/** The stateful side of the add-product page: the component's state (product
    record, image previews, loading/success/error flags) as a class whose
    methods are the page's event handlers, over a model of the browser's
    object-URL store that hands out and revokes preview handles. */
module AddProductPage {
  import opened JsValues
  import opened AddProductLogic

  /** An object URL created for a preview (`blob:...`); only its identity matters. */
  type Handle = nat

  /** The browser's object-URL registry behind `URL.createObjectURL` and
      `URL.revokeObjectURL`. `live` is the set of handles created and not yet
      revoked; it exists only for the proof. */
  class ObjectUrls {
    var issued: nat
    ghost var live: set<Handle>

    ghost predicate Valid()
      reads this
    {
      forall h :: h in live ==> h < issued
    }

    constructor ()
      ensures Valid() && live == {}
    {
      issued := 0;
      live := {};
    }

    /** `URL.createObjectURL(file)`: a handle that is not live yet, and is live afterwards. */
    method Create(file: FileRef) returns (h: Handle)
      requires Valid()
      modifies this
      ensures Valid()
      ensures h !in old(live) && live == old(live) + {h}
    {
      h := issued;
      issued := issued + 1;
      live := live + {h};
    }

    /** `URL.revokeObjectURL(h)`. */
    method Revoke(h: Handle)
      requires Valid()
      modifies this`live
      ensures Valid()
      ensures live == old(live) - {h}
    {
      live := live - {h};
    }
  }

  /** One entry of `imagePreviews`: the selected file and its object URL. */
  datatype ImagePreview = ImagePreview(file: FileRef, preview: Handle)

  const MaxImages := 3
  const TooManyImagesMessage := "Maximum of 3 images allowed"
  const AddFailedMessage := "Failed to add product"

  function Files(ps: seq<ImagePreview>): (fs: seq<FileRef>)
    ensures |fs| == |ps| && forall i :: 0 <= i < |ps| ==> fs[i] == ps[i].file
  {
    seq(|ps|, i requires 0 <= i < |ps| => ps[i].file)
  }

  /** The object URLs held by a list of previews. */
  function HandleSet(ps: seq<ImagePreview>): set<Handle> {
    set i | 0 <= i < |ps| :: ps[i].preview
  }

  predicate DistinctHandles(ps: seq<ImagePreview>) {
    forall i, j :: 0 <= i < j < |ps| ==> ps[i].preview != ps[j].preview
  }

  /** `copy.splice(i, 1)`: the element at `i` is gone, those before it stay
      where they were and those after it move down by one. */
  function RemoveAt<T>(s: seq<T>, i: nat): (r: seq<T>)
    requires i < |s|
    ensures |r| == |s| - 1
    ensures forall k :: 0 <= k < i ==> r[k] == s[k]
    ensures forall k :: i <= k < |r| ==> r[k] == s[k + 1]
  {
    s[..i] + s[i + 1..]
  }

  lemma HandleSetAppend(a: seq<ImagePreview>, b: seq<ImagePreview>)
    ensures HandleSet(a + b) == HandleSet(a) + HandleSet(b)
  {
    var ab := a + b;
    forall h | h in HandleSet(ab) ensures h in HandleSet(a) + HandleSet(b) {
      var i :| 0 <= i < |ab| && ab[i].preview == h;
      if i < |a| { assert a[i].preview == h; } else { assert b[i - |a|].preview == h; }
    }
    forall h | h in HandleSet(a) ensures h in HandleSet(ab) {
      var i :| 0 <= i < |a| && a[i].preview == h;
      assert ab[i].preview == h;
    }
    forall h | h in HandleSet(b) ensures h in HandleSet(ab) {
      var i :| 0 <= i < |b| && b[i].preview == h;
      assert ab[|a| + i].preview == h;
    }
  }

  lemma HandleSetSingleton(x: ImagePreview)
    ensures HandleSet([x]) == {x.preview}
  {
    assert [x][0].preview == x.preview;
  }

  /** Two lists with distinct handles and no handle in common make one list
      with distinct handles. */
  lemma DistinctAppend(a: seq<ImagePreview>, b: seq<ImagePreview>)
    requires DistinctHandles(a) && DistinctHandles(b) && HandleSet(a) !! HandleSet(b)
    ensures DistinctHandles(a + b)
  {
    var ab := a + b;
    forall i, j | 0 <= i < j < |ab| ensures ab[i].preview != ab[j].preview {
      if j < |a| {
        assert ab[i] == a[i] && ab[j] == a[j];
      } else if i >= |a| {
        assert ab[i] == b[i - |a|] && ab[j] == b[j - |a|];
      } else {
        assert ab[i].preview in HandleSet(a) by { assert ab[i] == a[i]; }
        assert ab[j].preview in HandleSet(b) by { assert ab[j] == b[j - |a|]; }
      }
    }
  }

  /** Removing a preview from a list whose handles are distinct removes exactly
      its handle from the list's handles, and keeps them distinct. */
  lemma HandleSetRemoveAt(ps: seq<ImagePreview>, i: nat)
    requires i < |ps| && DistinctHandles(ps)
    ensures HandleSet(RemoveAt(ps, i)) == HandleSet(ps) - {ps[i].preview}
    ensures DistinctHandles(RemoveAt(ps, i))
  {
    var r := RemoveAt(ps, i);
    forall h | h in HandleSet(r) ensures h in HandleSet(ps) - {ps[i].preview} {
      var k :| 0 <= k < |r| && r[k].preview == h;
      if k < i { assert ps[k].preview == h; } else { assert ps[k + 1].preview == h; }
    }
    forall h | h in HandleSet(ps) - {ps[i].preview} ensures h in HandleSet(r) {
      var k :| 0 <= k < |ps| && ps[k].preview == h;
      if k < i { assert r[k].preview == h; } else { assert r[k - 1].preview == h; }
    }
    forall a, b | 0 <= a < b < |r| ensures r[a].preview != r[b].preview {
      var a' := if a < i then a else a + 1;
      var b' := if b < i then b else b + 1;
      assert r[a] == ps[a'] && r[b] == ps[b'];
    }
  }

  /** Builds the multipart body: the six text fields in order, then one
      `images` part per preview (the `forEach` over `imagePreviews`). */
  method BuildFormData(p: Product, previews: seq<ImagePreview>) returns (parts: seq<Part>)
    ensures IsPayload(parts, p, Files(previews))
  {
    parts := [];
    parts := parts + [Part("title", Text(p.title))];
    parts := parts + [Part("description", Text(p.description))];
    parts := parts + [Part("price", Text(p.price))];
    parts := parts + [Part("category", Text(p.category))];
    parts := parts + [Part("subcategory", Text(p.subcategory))];
    parts := parts + [Part("quantity", Text(p.quantity))];
    var j := 0;
    while j < |previews|
      invariant 0 <= j <= |previews|
      invariant |parts| == |FieldOrder| + j
      invariant forall k :: 0 <= k < |FieldOrder| ==> parts[k] == Part(FieldName(FieldOrder[k]), Text(p.Get(FieldOrder[k])))
      invariant forall i :: 0 <= i < j ==> parts[|FieldOrder| + i] == Part(ImagesName, Blob(previews[i].file))
    {
      parts := parts + [Part(ImagesName, Blob(previews[j].file))];
      j := j + 1;
    }
  }

  /** What a submission ends in. */
  datatype SubmitOutcome = Blocked(reason: ValidationError) | Added | Failed(message: string)

  /** The server's answer to the add request: `ok` and the JSON `message`, or
      the message of an exception thrown by `fetch` or by reading the body. */
  datatype AddReply = Replied(ok: bool, message: Option<string>) | Rejected(reason: string)

  /** The outcome of submitting `p` with `imageCount` previews when the server
      answers `reply` (the reply only matters once validation passed). */
  function Outcome(p: Product, imageCount: nat, reply: AddReply): (o: SubmitOutcome)
    ensures o.Blocked? <==> Validate(p, imageCount).Some?
    ensures o.Blocked? ==> o.reason == Validate(p, imageCount).value
    ensures o.Added? <==> Validate(p, imageCount).None? && reply.Replied? && reply.ok
    ensures o.Failed? ==> o.message != ""
    ensures o.Failed? && reply.Replied? ==> o.message == OrElse(reply.message, AddFailedMessage)
    ensures o.Failed? && reply.Rejected? ==> o.message == OrElse(Some(reply.reason), AddFailedMessage)
  {
    match Validate(p, imageCount)
    case Some(e) => Blocked(e)
    case None =>
      match reply
      case Replied(ok, message) =>
        if ok then Added else Failed(OrElse(message, AddFailedMessage))
      case Rejected(reason) =>
        Failed(OrElse(Some(reason), AddFailedMessage))
  }

  /** The add-product component. */
  class AddProductForm {
    var product: Product
    var previews: seq<ImagePreview>
    var isLoading: bool
    var success: bool
    var error: string
    const urls: ObjectUrls

    /** At most three previews, each holding its own object URL, and the live
        object URLs are exactly those of the previews: none leaks. */
    ghost predicate Valid()
      reads this`previews, urls
    {
      && urls.Valid()
      && |previews| <= MaxImages
      && DistinctHandles(previews)
      && HandleSet(previews) == urls.live
    }

    constructor ()
      ensures Valid() && fresh(urls)
      ensures product == EmptyProduct && previews == []
      ensures !isLoading && !success && error == ""
    {
      product := EmptyProduct;
      previews := [];
      isLoading := false;
      success := false;
      error := "";
      urls := new ObjectUrls();
    }

    /** `handleChange`: the named field takes the typed value. */
    method HandleChange(f: Field, v: string)
      requires Valid()
      modifies this`product
      ensures Valid()
      ensures product == old(product).With(f, v)
    {
      product := product.With(f, v);
    }

    /** `handleImageUpload`: a batch that would take the list past three is
        refused as a whole; otherwise one preview per file is appended, in
        file order, each with a new object URL. */
    method HandleImageUpload(files: seq<FileRef>)
      requires Valid()
      modifies this`previews, this`error, urls
      ensures Valid()
      ensures |old(previews)| + |files| > MaxImages ==>
        error == TooManyImagesMessage && previews == old(previews) && urls.live == old(urls.live)
      ensures |old(previews)| + |files| <= MaxImages ==>
        && error == old(error)
        && |previews| == |old(previews)| + |files|
        && previews[..|old(previews)|] == old(previews)
        && Files(previews[|old(previews)|..]) == files
        && HandleSet(previews[|old(previews)|..]) !! old(urls.live)
    {
      if |previews| + |files| > MaxImages {
        error := TooManyImagesMessage;
        return;
      }
      var added: seq<ImagePreview> := [];
      var j := 0;
      while j < |files|
        invariant 0 <= j <= |files| && |added| == j
        invariant urls.Valid()
        invariant forall i :: 0 <= i < j ==> added[i].file == files[i]
        invariant DistinctHandles(added)
        invariant HandleSet(added) !! old(urls.live)
        invariant urls.live == old(urls.live) + HandleSet(added)
        invariant previews == old(previews) && error == old(error)
      {
        var h := urls.Create(files[j]);
        HandleSetAppend(added, [ImagePreview(files[j], h)]);
        HandleSetSingleton(ImagePreview(files[j], h));
        DistinctAppend(added, [ImagePreview(files[j], h)]);
        added := added + [ImagePreview(files[j], h)];
        j := j + 1;
      }
      HandleSetAppend(previews, added);
      DistinctAppend(previews, added);
      previews := previews + added;
      assert previews[|old(previews)|..] == added;
    }

    /** `removeImage(index)`: revokes that preview's object URL and drops it
        from the list; the others keep their order. */
    method RemoveImage(index: nat)
      requires Valid() && index < |previews|
      modifies this`previews, urls
      ensures Valid()
      ensures previews == RemoveAt(old(previews), index)
      ensures urls.live == old(urls.live) - {old(previews)[index].preview}
    {
      var updated := previews;
      urls.Revoke(updated[index].preview);
      HandleSetRemoveAt(updated, index);
      previews := RemoveAt(updated, index);
    }

    /** The reset's `forEach`: revokes the object URL of every preview. */
    method RevokeAllPreviews()
      requires urls.Valid()
      modifies urls`live
      ensures urls.Valid()
      ensures urls.live == old(urls.live) - HandleSet(previews)
    {
      var k := 0;
      while k < |previews|
        invariant 0 <= k <= |previews|
        invariant urls.Valid()
        invariant urls.live == old(urls.live) - HandleSet(previews[..k])
      {
        HandleSetAppend(previews[..k], [previews[k]]);
        assert previews[..k + 1] == previews[..k] + [previews[k]];
        HandleSetSingleton(previews[k]);
        urls.Revoke(previews[k].preview);
        k := k + 1;
      }
      assert previews[..k] == previews;
    }

    /** The `try` block after the request is sent: an ok reply clears every
        field and revokes every preview; a failed one, or an exception, sets
        the error and leaves fields and previews alone. */
    method ApplyReply(reply: AddReply)
      requires Valid()
      modifies this`success, this`error, this`product, this`previews, urls
      ensures Valid()
      ensures reply.Replied? && reply.ok ==>
        success && error == old(error) && product == EmptyProduct && previews == [] && urls.live == {}
      ensures reply.Replied? && !reply.ok ==>
        success == old(success) && error == OrElse(reply.message, AddFailedMessage)
        && product == old(product) && previews == old(previews) && urls.live == old(urls.live)
      ensures reply.Rejected? ==>
        success == old(success) && error == OrElse(Some(reply.reason), AddFailedMessage)
        && product == old(product) && previews == old(previews) && urls.live == old(urls.live)
    {
      match reply {
        case Rejected(reason) =>
          error := OrElse(Some(reason), AddFailedMessage);
        case Replied(ok, message) =>
          if !ok {
            error := OrElse(message, AddFailedMessage);
          } else {
            success := true;
            product := EmptyProduct;
            RevokeAllPreviews();
            previews := [];
          }
      }
    }

    /** `handleSubmit`: runs the validation chain; when it passes, builds and
        sends the payload (returned as `sent`) and applies the server's reply.
        On success every field is cleared and every preview revoked; on any
        failure the fields and previews are left as they were. `isLoading`
        ends false on every path. */
    method HandleSubmit(reply: AddReply) returns (sent: Option<seq<Part>>)
      requires Valid()
      modifies this, urls
      ensures Valid() && !isLoading
      ensures sent.Some? <==> Validate(old(product), |old(previews)|).None?
      ensures sent.Some? ==> IsPayload(sent.value, old(product), Files(old(previews)))
      ensures match Outcome(old(product), |old(previews)|, reply)
        case Added =>
          success && error == "" && product == EmptyProduct && previews == [] && urls.live == {}
        case Blocked(e) =>
          !success && error == e.Message()
          && product == old(product) && previews == old(previews) && urls.live == old(urls.live)
        case Failed(m) =>
          !success && error == m
          && product == old(product) && previews == old(previews) && urls.live == old(urls.live)
    {
      isLoading := true;
      error := "";
      success := false;

      var verdict := Validate(product, |previews|);
      if verdict.Some? {
        error := verdict.value.Message();
        isLoading := false;
        return None;
      }

      var parts := BuildFormData(product, previews);
      sent := Some(parts);
      ApplyReply(reply);
      isLoading := false;
    }
  }
}
