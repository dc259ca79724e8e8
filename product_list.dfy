/** The pure logic of the product list page: normalising the fetched list,
    dropping a deleted product, turning a product's stored images into
    `data:` URIs, and the fallbacks shown for quantity and creation date. */
module ProductListLogic {
  import opened JsValues

  type ProductId = string

  /** A stored image as the API returns it: a MIME type and base64 data, either
      of which may be missing. */
  datatype ImageData = ImageData(contentType: Option<string>, data: Option<string>)

  /** One product of the fetched list, reduced to what the page reads.
      `images` is `None` when the field is missing, null or not an array, and
      holds `None` for a null entry; `image` is the older single-image field. */
  datatype ProductRow = ProductRow(
    id: ProductId,
    title: string,
    description: string,
    category: string,
    subcategory: string,
    quantity: Option<int>,
    createdAt: Option<string>,
    images: Option<seq<Option<ImageData>>>,
    image: Option<ImageData>)

  /** The `products` field of the list response: an array, or anything else
      (missing, null, an object, ...). */
  datatype ProductsField = ProductsArray(items: seq<ProductRow>) | NotAnArray

  /** `Array.isArray(data.products) ? data.products : []`. */
  function NormalizeProducts(f: ProductsField): (r: seq<ProductRow>)
    ensures f.ProductsArray? ==> r == f.items
    ensures f.NotAnArray? ==> r == []
  {
    match f
    case ProductsArray(items) => items
    case NotAnArray => []
  }

  // ---------------------------------------------------------------------------
  // Deleting by id

  /** `products.filter(product => product.id !== id)`. */
  function WithoutId(ps: seq<ProductRow>, id: ProductId): (r: seq<ProductRow>)
    ensures |r| <= |ps|
    ensures forall p :: p in r <==> p in ps && p.id != id
  {
    if ps == [] then []
    else if ps[0].id != id then [ps[0]] + WithoutId(ps[1..], id)
    else WithoutId(ps[1..], id)
  }

  /** The number of products carrying the given id. */
  function CountId(ps: seq<ProductRow>, id: ProductId): nat {
    if ps == [] then 0 else (if ps[0].id == id then 1 else 0) + CountId(ps[1..], id)
  }

  /** Filtering works piecewise, so the products kept stay in their order. */
  lemma {:induction false} WithoutIdAppend(a: seq<ProductRow>, b: seq<ProductRow>, id: ProductId)
    ensures WithoutId(a + b, id) == WithoutId(a, id) + WithoutId(b, id)
  {
    if a == [] {
      assert a + b == b;
    } else {
      assert (a + b)[1..] == a[1..] + b;
      WithoutIdAppend(a[1..], b, id);
    }
  }

  /** Exactly the products with the id are dropped. */
  lemma {:induction false} WithoutIdLength(ps: seq<ProductRow>, id: ProductId)
    ensures |WithoutId(ps, id)| == |ps| - CountId(ps, id)
  {
    if ps != [] {
      WithoutIdLength(ps[1..], id);
    }
  }

  /** Deleting an id no product has leaves the list as it was. */
  lemma {:induction false} WithoutAbsentId(ps: seq<ProductRow>, id: ProductId)
    requires forall k :: 0 <= k < |ps| ==> ps[k].id != id
    ensures WithoutId(ps, id) == ps
  {
    if ps != [] {
      WithoutAbsentId(ps[1..], id);
    }
  }

  lemma SplitAround<T>(s: seq<T>, k: nat)
    requires k < |s|
    ensures s == s[..k] + ([s[k]] + s[k + 1..])
  {
    assert s[k..] == [s[k]] + s[k + 1..];
    assert s == s[..k] + s[k..];
  }

  /** When ids are unique, deleting the id of the product at `k` removes that
      product and no other, and the rest keep their order. */
  lemma WithoutUniqueId(ps: seq<ProductRow>, k: nat)
    requires k < |ps|
    requires forall i, j :: 0 <= i < j < |ps| ==> ps[i].id != ps[j].id
    ensures WithoutId(ps, ps[k].id) == ps[..k] + ps[k + 1..]
  {
    var id := ps[k].id;
    var before, after := ps[..k], ps[k + 1..];
    var rest := [ps[k]] + after;
    assert WithoutId(before, id) == before by {
      forall j | 0 <= j < |before| ensures before[j].id != id {
        assert before[j] == ps[j];
      }
      WithoutAbsentId(before, id);
    }
    assert WithoutId(rest, id) == after by {
      forall j | 0 <= j < |after| ensures after[j].id != id {
        assert after[j] == ps[k + 1 + j];
      }
      WithoutAbsentId(after, id);
      assert rest[0] == ps[k] && rest[1..] == after;
    }
    SplitAround(ps, k);
    WithoutIdAppend(before, rest, id);
  }

  /** Deleting the same id twice is the same as deleting it once. */
  lemma WithoutIdIdempotent(ps: seq<ProductRow>, id: ProductId)
    ensures WithoutId(WithoutId(ps, id), id) == WithoutId(ps, id)
  {
    var r := WithoutId(ps, id);
    forall k | 0 <= k < |r| ensures r[k].id != id {
      assert r[k] in r;
    }
    WithoutAbsentId(r, id);
  }

  // ---------------------------------------------------------------------------
  // Image sources

  /** `image && image.data`: the entry exists and its data is truthy. */
  predicate HasData(e: Option<ImageData>) {
    e.Some? && Truthy(e.value.data)
  }

  /** A possibly missing value inside a template literal: a missing one prints
      as "undefined". */
  function Interpolated(v: Option<string>): string {
    if v.Some? then v.value else "undefined"
  }

  /** `data:${contentType};base64,${data}`. */
  function DataUri(contentType: string, data: string): (r: string)
    ensures |r| == |contentType| + |data| + 13
  {
    "data:" + contentType + ";base64," + data
  }

  /** Where each piece sits in a data URI. */
  lemma DataUriShape(contentType: string, data: string)
    ensures var r := DataUri(contentType, data);
      && r[..5] == "data:" && r[5..5 + |contentType|] == contentType
      && r[5 + |contentType|..13 + |contentType|] == ";base64," && r[13 + |contentType|..] == data
  {
  }

  function SourceOf(e: Option<ImageData>): string
    requires HasData(e)
  {
    DataUri(Interpolated(e.value.contentType), e.value.data.value)
  }

  /** The URI of an entry with data: its data after the `data:` header, the
      header naming its content type, or "undefined" when it has none. */
  lemma SourceOfShape(e: Option<ImageData>)
    requires HasData(e)
    ensures var r := SourceOf(e);
      && |r| == 13 + |Interpolated(e.value.contentType)| + |e.value.data.value| && r[..5] == "data:"
      && r[|r| - |e.value.data.value|..] == e.value.data.value
      && (e.value.contentType.Some? ==> r[5..5 + |e.value.contentType.value|] == e.value.contentType.value)
      && (e.value.contentType.None? ==> r[5..14] == "undefined")
  {
    DataUriShape(Interpolated(e.value.contentType), e.value.data.value);
  }

  /** The `map`/`filter` over the `images` array: one URI per entry that has
      data, in the entries' order; entries without data are dropped. */
  function EntrySources(entries: seq<Option<ImageData>>): (r: seq<string>)
    ensures |r| <= |entries|
    ensures forall i :: 0 <= i < |entries| && HasData(entries[i]) ==> SourceOf(entries[i]) in r
    ensures (forall i :: 0 <= i < |entries| ==> HasData(entries[i])) ==>
      |r| == |entries| && forall i :: 0 <= i < |r| ==> r[i] == SourceOf(entries[i])
    ensures (forall i :: 0 <= i < |entries| ==> !HasData(entries[i])) ==> r == []
  {
    if entries == [] then []
    else if HasData(entries[0]) then [SourceOf(entries[0])] + EntrySources(entries[1..])
    else EntrySources(entries[1..])
  }

  /** Every source comes from an entry that has data. */
  lemma {:induction false} SourceFromEntry(entries: seq<Option<ImageData>>, src: string) returns (i: nat)
    requires src in EntrySources(entries)
    ensures i < |entries| && HasData(entries[i]) && src == SourceOf(entries[i])
  {
    if HasData(entries[0]) && src == SourceOf(entries[0]) {
      i := 0;
    } else {
      var j := SourceFromEntry(entries[1..], src);
      i := j + 1;
    }
  }

  /** Sources of consecutive runs of entries come out consecutively. */
  lemma {:induction false} EntrySourcesAppend(a: seq<Option<ImageData>>, b: seq<Option<ImageData>>)
    ensures EntrySources(a + b) == EntrySources(a) + EntrySources(b)
  {
    if a == [] {
      assert a + b == b;
    } else {
      assert (a + b)[1..] == a[1..] + b;
      EntrySourcesAppend(a[1..], b);
    }
  }

  /** The image sources of a product: the `images` array whenever it is an
      array, even an empty one; the single `image` only when there is no
      array. */
  function ImageSources(p: ProductRow): (r: seq<string>)
    ensures p.images.Some? ==> r == EntrySources(p.images.value) && |r| <= |p.images.value|
    ensures p.images.None? && HasData(p.image) ==> r == [SourceOf(p.image)]
    ensures p.images.None? && !HasData(p.image) ==> r == []
  {
    if p.images.Some? then EntrySources(p.images.value)
    else if HasData(p.image) then [SourceOf(p.image)]
    else []
  }

  /** Once `images` is an array the legacy `image` field has no effect. */
  lemma LegacyImageIgnored(p: ProductRow, legacy: Option<ImageData>)
    requires p.images.Some?
    ensures ImageSources(p.(image := legacy)) == ImageSources(p)
  {
  }

  /** An empty `images` array shows no image even when `image` has data. */
  lemma EmptyImagesArrayWins(p: ProductRow)
    requires p.images == Some([])
    ensures ImageSources(p) == []
  {
  }

  /** What the Images cell shows. */
  datatype ImageCell = NoImagesLabel | Thumbnails(sources: seq<string>)

  function ImageCellOf(p: ProductRow): (c: ImageCell)
    ensures c.NoImagesLabel? <==> ImageSources(p) == []
    ensures c.Thumbnails? ==> c.sources == ImageSources(p) && |c.sources| > 0
  {
    var srcs := ImageSources(p);
    if |srcs| > 0 then Thumbnails(srcs) else NoImagesLabel
  }

  // The reading side of a data URI, to show that the URI keeps the type and
  // the data apart.

  /** The position of the first `c` in `s`, or `|s|` when there is none. */
  function IndexOf(s: string, c: char): (k: nat)
    ensures k <= |s|
    ensures k < |s| ==> s[k] == c
    ensures forall j :: 0 <= j < k ==> s[j] != c
  {
    if s == [] then 0
    else if s[0] == c then 0
    else 1 + IndexOf(s[1..], c)
  }

  /** Splits `data:<type>;base64,<data>` at the first ';'. */
  function ParseDataUri(s: string): Option<(string, string)> {
    if |s| < 5 || s[..5] != "data:" then None
    else
      var rest := s[5..];
      var k := IndexOf(rest, ';');
      if k + 8 <= |rest| && rest[k..k + 8] == ";base64," then Some((rest[..k], rest[k + 8..]))
      else None
  }

  /** A data URI gives back its content type and data, provided the type has
      no ';' of its own. */
  lemma DataUriRoundTrip(contentType: string, data: string)
    requires forall i :: 0 <= i < |contentType| ==> contentType[i] != ';'
    ensures ParseDataUri(DataUri(contentType, data)) == Some((contentType, data))
  {
    var s := DataUri(contentType, data);
    var rest := contentType + ";base64," + data;
    assert s[..5] == "data:" && s[5..] == rest;
    var k := IndexOf(rest, ';');
    assert rest[|contentType|] == ';';
    assert forall j :: 0 <= j < |contentType| ==> rest[j] == contentType[j];
    assert k == |contentType|;
    assert rest[k..k + 8] == ";base64,";
    assert rest[..k] == contentType;
    assert rest[k + 8..] == data;
  }

  // ---------------------------------------------------------------------------
  // Display fallbacks

  /** `product.quantity || 0`. */
  function QuantityShown(q: Option<int>): (r: int)
    ensures r == 0 <==> q.None? || q.value == 0
    ensures r != 0 ==> q == Some(r)
  {
    if q.Some? && q.value != 0 then q.value else 0
  }

  /** The "Added On" cell: the formatted date, or "N/A" when `createdAt` is
      missing or empty. */
  datatype DateCell = NotAvailable | FormattedDate(raw: string)
  {
    function Label(): string {
      match this
      case NotAvailable => "N/A"
      case FormattedDate(raw) => raw
    }
  }

  function CreatedAtShown(c: Option<string>): (d: DateCell)
    ensures d.NotAvailable? <==> !Truthy(c)
    ensures d.FormattedDate? ==> c == Some(d.raw)
    ensures !Truthy(c) ==> d.Label() == "N/A"
    ensures Truthy(c) ==> d.Label() == c.value
  {
    if Truthy(c) then FormattedDate(c.value) else NotAvailable
  }
}
