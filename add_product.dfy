/** The pure logic of the add-product page: the product record the form edits,
    the allowed categories, the ordered validation chain run on submit, and the
    multipart payload built from a product that passed it. */
module AddProductLogic {
  import opened JsValues
  import opened JsParseInt

  /** The six inputs of the form, by their `name` attribute. */
  datatype Field = Title | Description | Price | Category | Subcategory | Quantity

  /** The form's product record: every field holds the raw text of its input. */
  datatype Product = Product(
    title: string,
    description: string,
    price: string,
    category: string,
    subcategory: string,
    quantity: string)
  {
    function Get(f: Field): string {
      match f
      case Title => title
      case Description => description
      case Price => price
      case Category => category
      case Subcategory => subcategory
      case Quantity => quantity
    }

    /** `{ ...prev, [name]: value }`: the named field takes the new value and
        every other field keeps its old one. */
    function With(f: Field, v: string): (r: Product)
      ensures r.Get(f) == v
      ensures forall g :: g != f ==> r.Get(g) == Get(g)
    {
      match f
      case Title => this.(title := v)
      case Description => this.(description := v)
      case Price => this.(price := v)
      case Category => this.(category := v)
      case Subcategory => this.(subcategory := v)
      case Quantity => this.(quantity := v)
    }
  }

  /** The record the form starts with and is reset to after a successful add. */
  const EmptyProduct := Product("", "", "", "", "", "")

  /** The only categories the form accepts. */
  const Categories: seq<string> := ["Skincare", "Makeup", "Haircare", "Fragrance"]

  /** A category is accepted exactly when it is one of the four names, spelled
      with that exact case. */
  lemma CategoryMembership(c: string)
    ensures c in Categories <==> c == "Skincare" || c == "Makeup" || c == "Haircare" || c == "Fragrance"
  {
  }

  /** The ways a submission can be stopped before any request is built. */
  datatype ValidationError = MissingRequired | InvalidCategory | NoImages | BadQuantity
  {
    function Message(): (m: string)
      ensures m != ""
    {
      match this
      case MissingRequired => "Title, price, category, subcategory, and quantity are required"
      case InvalidCategory => "Invalid category selected"
      case NoImages => "At least one product image is required"
      case BadQuantity => "Quantity must be a non-negative number"
    }
  }

  /** Title, price, category, subcategory and quantity are all non-empty
      (description is optional). */
  predicate RequiredPresent(p: Product) {
    p.title != "" && p.price != "" && p.category != "" && p.subcategory != "" && p.quantity != ""
  }

  /** `parseInt(quantity)` is a number and not negative. */
  predicate QuantityAccepted(q: string) {
    var n := ParseInt(q);
    n.Some? && n.value >= 0
  }

  /** The validation chain of the submit handler; the first check that fails
      decides the error, and `None` means the product may be sent. */
  function Validate(p: Product, imageCount: nat): (r: Option<ValidationError>)
    ensures r == None <==>
      RequiredPresent(p) && p.category in Categories && imageCount > 0 && QuantityAccepted(p.quantity)
  {
    if !RequiredPresent(p) then Some(MissingRequired)
    else if p.category !in Categories then Some(InvalidCategory)
    else if imageCount == 0 then Some(NoImages)
    else if !QuantityAccepted(p.quantity) then Some(BadQuantity)
    else None
  }

  /** An empty required field is reported first, whatever the category, the
      number of images and the quantity are. */
  lemma MissingFieldReportedFirst(p: Product, imageCount: nat, f: Field)
    requires f != Description && p.Get(f) == ""
    ensures Validate(p, imageCount) == Some(MissingRequired)
  {
  }

  /** Description is never required: changing it never changes the verdict. */
  lemma DescriptionIsOptional(p: Product, imageCount: nat, v: string)
    ensures Validate(p.With(Description, v), imageCount) == Validate(p, imageCount)
  {
  }

  /** A non-empty category outside the list is rejected once the required
      fields are present, before images and quantity are looked at. */
  lemma UnknownCategoryRejected(p: Product, imageCount: nat)
    requires RequiredPresent(p) && p.category !in Categories
    ensures Validate(p, imageCount) == Some(InvalidCategory)
  {
  }

  /** With valid fields and no image the error is about images, even when the
      quantity is malformed as well. */
  lemma MissingImagesBeforeQuantity(p: Product)
    requires RequiredPresent(p) && p.category in Categories
    ensures Validate(p, 0) == Some(NoImages)
  {
  }

  /** A negative quantity is rejected when everything before it passes. */
  lemma NegativeQuantityRejected(p: Product, imageCount: nat, k: nat)
    requires RequiredPresent(p) && p.category in Categories && imageCount > 0
    requires k > 0 && p.quantity == "-" + ToDecimal(k)
    ensures Validate(p, imageCount) == Some(BadQuantity)
  {
    ParseIntNegated(k);
  }

  /** Any quantity `parseInt` turns into NaN or a negative number is rejected
      when everything before it passes. */
  lemma UnacceptedQuantityRejected(p: Product, imageCount: nat)
    requires RequiredPresent(p) && p.category in Categories && imageCount > 0
    requires !QuantityAccepted(p.quantity)
    ensures Validate(p, imageCount) == Some(BadQuantity)
  {
  }

  /** A quantity without any decimal digit is rejected when everything before
      it passes. */
  lemma NonNumericQuantityRejected(p: Product, imageCount: nat)
    requires RequiredPresent(p) && p.category in Categories && imageCount > 0
    requires forall i :: 0 <= i < |p.quantity| ==> !IsDigitIn(p.quantity[i], 10)
    ensures Validate(p, imageCount) == Some(BadQuantity)
  {
    ParseIntNoDigits(p.quantity);
  }

  /** A product with all required fields, a listed category, at least one image
      and a quantity spelled as a natural number passes. */
  lemma WellFormedProductAccepted(p: Product, imageCount: nat, k: nat)
    requires RequiredPresent(p) && p.category in Categories && imageCount > 0
    requires p.quantity == ToDecimal(k)
    ensures Validate(p, imageCount) == None
  {
    ParseIntDecimal(k, []);
    assert ToDecimal(k) + [] == ToDecimal(k);
  }

  // ---------------------------------------------------------------------------
  // The multipart payload

  /** A selected file, identified by the browser's `File` object. */
  type FileRef = nat

  datatype PartValue = Text(text: string) | Blob(file: FileRef)

  /** One `formData.append(name, value)`. */
  datatype Part = Part(name: string, value: PartValue)

  /** The order in which the text fields are appended. */
  const FieldOrder: seq<Field> := [Title, Description, Price, Category, Subcategory, Quantity]

  function FieldName(f: Field): string {
    match f
    case Title => "title"
    case Description => "description"
    case Price => "price"
    case Category => "category"
    case Subcategory => "subcategory"
    case Quantity => "quantity"
  }

  const ImagesName := "images"

  /** The payload layout: the six text fields in `FieldOrder`, each with the raw
      text of the form (quantity is sent as typed, not as the parsed number),
      then one `images` part per selected file, in order. */
  predicate IsPayload(parts: seq<Part>, p: Product, files: seq<FileRef>) {
    && |parts| == |FieldOrder| + |files|
    && (forall k :: 0 <= k < |FieldOrder| ==> parts[k] == Part(FieldName(FieldOrder[k]), Text(p.Get(FieldOrder[k]))))
    && (forall i :: 0 <= i < |files| ==> parts[|FieldOrder| + i] == Part(ImagesName, Blob(files[i])))
  }

  // The receiving side: how a multipart body is read back into a product and
  // its files.

  /** The text of the first part with the given name. */
  function TextField(parts: seq<Part>, name: string): Option<string> {
    if parts == [] then None
    else if parts[0].name == name then (if parts[0].value.Text? then Some(parts[0].value.text) else None)
    else TextField(parts[1..], name)
  }

  /** The files of all `images` parts, in order. */
  function ImageFiles(parts: seq<Part>): seq<FileRef> {
    if parts == [] then []
    else if parts[0].name == ImagesName && parts[0].value.Blob? then [parts[0].value.file] + ImageFiles(parts[1..])
    else ImageFiles(parts[1..])
  }

  function DecodeProduct(parts: seq<Part>): Option<Product> {
    var t := TextField(parts, "title");
    var d := TextField(parts, "description");
    var pr := TextField(parts, "price");
    var c := TextField(parts, "category");
    var s := TextField(parts, "subcategory");
    var q := TextField(parts, "quantity");
    if t.Some? && d.Some? && pr.Some? && c.Some? && s.Some? && q.Some?
    then Some(Product(t.value, d.value, pr.value, c.value, s.value, q.value))
    else None
  }

  lemma {:induction false} ImageFilesAppend(a: seq<Part>, b: seq<Part>)
    ensures ImageFiles(a + b) == ImageFiles(a) + ImageFiles(b)
  {
    if a == [] {
      assert a + b == b;
    } else {
      assert (a + b)[1..] == a[1..] + b;
      ImageFilesAppend(a[1..], b);
    }
  }

  lemma {:induction false} NoImageParts(parts: seq<Part>)
    requires forall i :: 0 <= i < |parts| ==> parts[i].name != ImagesName
    ensures ImageFiles(parts) == []
  {
    if parts != [] {
      NoImageParts(parts[1..]);
    }
  }

  /** The first part with a given name decides that name's text field. */
  lemma {:induction false} TextFieldAt(parts: seq<Part>, k: nat, name: string)
    requires k < |parts| && parts[k].name == name && parts[k].value.Text?
    requires forall j :: 0 <= j < k ==> parts[j].name != name
    ensures TextField(parts, name) == Some(parts[k].value.text)
  {
    if k > 0 {
      TextFieldAt(parts[1..], k - 1, name);
    }
  }

  /** The image parts of a payload carry exactly the selected files. */
  lemma {:induction false} ImagePartsCarryFiles(parts: seq<Part>, files: seq<FileRef>)
    requires |parts| == |files|
    requires forall i :: 0 <= i < |files| ==> parts[i] == Part(ImagesName, Blob(files[i]))
    ensures ImageFiles(parts) == files
  {
    if parts != [] {
      ImagePartsCarryFiles(parts[1..], files[1..]);
    }
  }

  /** Reading a payload back gives the product and the files it was built
      from: every field of the form reaches the server unchanged, and so do
      the files, in their order. */
  lemma PayloadRoundTrip(parts: seq<Part>, p: Product, files: seq<FileRef>)
    requires IsPayload(parts, p, files)
    ensures DecodeProduct(parts) == Some(p)
    ensures ImageFiles(parts) == files
  {
    var head, tail := parts[..6], parts[6..];
    assert parts == head + tail;
    assert parts[0] == Part("title", Text(p.title));
    assert parts[1] == Part("description", Text(p.description));
    assert parts[2] == Part("price", Text(p.price));
    assert parts[3] == Part("category", Text(p.category));
    assert parts[4] == Part("subcategory", Text(p.subcategory));
    assert parts[5] == Part("quantity", Text(p.quantity));
    TextFieldAt(parts, 0, "title");
    TextFieldAt(parts, 1, "description");
    TextFieldAt(parts, 2, "price");
    TextFieldAt(parts, 3, "category");
    TextFieldAt(parts, 4, "subcategory");
    TextFieldAt(parts, 5, "quantity");
    NoImageParts(head);
    ImagePartsCarryFiles(tail, files);
    ImageFilesAppend(head, tail);
  }
}
