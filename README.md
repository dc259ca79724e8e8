# AdminDashboard: add-product form and product list, modelled in Dafny

This project models the two admin pages of the AdminDashboard client that hold
real logic.

- **Add product** (`client/src/pages/Adminaddproduct.js`): a form with six text
  fields and up to three image previews.
  - `handleChange` edits one field.
  - `handleImageUpload` appends a batch of previews, or refuses the whole batch
    when the list would exceed three.
  - `removeImage` revokes one preview's object URL and splices it out.
  - `handleSubmit` runs an ordered validation chain (required fields, category
    list, at least one image, `parseInt` of the quantity). It then builds a
    multipart body and applies the server's reply. On success every field is
    cleared and every preview revoked.
- **Product list** (`client/src/pages/Adminproducts.js`):
  - The fetch handler keeps the `products` field only when it is an array.
  - The delete handler filters the deleted id out of the list.
  - Each row resolves its images to `data:` URIs. The `images` array wins over
    the legacy single `image` field.
  - Quantity and creation date have display fallbacks.

Files and modules:

- `js_values.dfy` (`JsValues`): optional JSON values, string truthiness, and
  `message || fallback`.
- `parse_int.dfy` (`JsParseInt`): `parseInt(s)` without a radix, with
  round-trip lemmas against the decimal spelling of a natural number.
- `add_product.dfy` (`AddProductLogic`): the product record, the categories,
  the validation chain, and the multipart layout. The layout comes with a
  decoder on the receiving side and a round-trip lemma.
- `add_product_page.dfy` (`AddProductPage`): the component as class
  `AddProductForm` over `ObjectUrls`. `ObjectUrls` models the browser's
  object-URL store; its ghost `live` set holds the handles created and not yet
  revoked. The class invariant says the list holds at most three previews,
  their handles are distinct, and the live handles are exactly the previews'
  handles. So, with each handler run as one step, no object URL leaks; the
  page itself can leak one when a preview is added while the add request is
  pending (see "Left out").
- `product_list.dfy` (`ProductListLogic`): the pure list transforms, image
  resolution with a `data:` URI reader as partner, and the display fallbacks.
- `product_list_page.dfy` (`ProductListPage`): the component as class
  `ProductsPage`.

The server's answers are inputs. Each is either `ok`/`success` flags with an
optional `message`, or the message of an exception thrown by `fetch` or by
reading the body. Nothing simulates the network.

## Model

| member | source | states |
|---|---|---|
| `AddProductLogic.Product.With` | client/src/pages/Adminaddproduct.js:20-25 | the named field takes the new value; every other field keeps its old value |
| `AddProductPage.AddProductForm.HandleChange` | client/src/pages/Adminaddproduct.js:20-25 | the product becomes the old product with only the named field replaced; previews and object URLs are untouched |
| `AddProductLogic.Validate` | client/src/pages/Adminaddproduct.js:56-80 | a product passes exactly when the five required fields are non-empty, the category is listed, there is at least one image and the quantity parses to a non-negative number |
| `AddProductLogic.CategoryMembership` | client/src/pages/Adminaddproduct.js:18 | a category is accepted exactly when it is "Skincare", "Makeup", "Haircare" or "Fragrance", case included |
| `AddProductLogic.ValidationError.Message` | client/src/pages/Adminaddproduct.js:58-78 | each check's error text, the strings the page shows; none is empty |
| `AddProductLogic.MissingFieldReportedFirst` | client/src/pages/Adminaddproduct.js:57-61 | any empty required field gives the "required" error, whatever the category, images and quantity are |
| `AddProductLogic.DescriptionIsOptional` | client/src/pages/Adminaddproduct.js:57 | the description never changes the validation verdict |
| `AddProductLogic.UnknownCategoryRejected` | client/src/pages/Adminaddproduct.js:63-67 | with required fields present, a category outside the four listed ones gives "Invalid category selected", before images and quantity are checked |
| `AddProductLogic.MissingImagesBeforeQuantity` | client/src/pages/Adminaddproduct.js:69-73 | with valid fields and no image the error is about images, whatever the quantity |
| `AddProductLogic.NegativeQuantityRejected` | client/src/pages/Adminaddproduct.js:75-80 | a quantity "-k" with k > 0 gives "Quantity must be a non-negative number" once the earlier checks pass |
| `AddProductLogic.NonNumericQuantityRejected` | client/src/pages/Adminaddproduct.js:75-80 | a quantity with no decimal digit gives the quantity error once the earlier checks pass |
| `AddProductLogic.UnacceptedQuantityRejected` | client/src/pages/Adminaddproduct.js:75-80 | any quantity `parseInt` turns into NaN or a negative number gives the quantity error once the earlier checks pass |
| `AddProductLogic.WellFormedProductAccepted` | client/src/pages/Adminaddproduct.js:57-80 | required fields, a listed category, at least one image and a natural-number quantity pass every check |
| `JsParseInt.TrimStart` | client/src/pages/Adminaddproduct.js:75 | the result is a suffix of the input with no leading white space; input without leading white space is unchanged |
| `JsParseInt.ParseInt` | client/src/pages/Adminaddproduct.js:75 | `parseInt` without a radix; a negative result needs a '-' after the leading white space |
| `JsParseInt.TrimStartAfterWhitespace` | client/src/pages/Adminaddproduct.js:75 | any run of leading white space is skipped in full |
| `JsParseInt.ParseIntSkipsWhitespace` | client/src/pages/Adminaddproduct.js:75 | white space in front of the text never changes what it parses to |
| `JsParseInt.DigitPrefix` | client/src/pages/Adminaddproduct.js:75 | the longest prefix made only of digits of the base: a prefix of the input, all digits, and followed by a non-digit or the end |
| `JsParseInt.ToDecimal` | client/src/pages/Adminaddproduct.js:75 | helper, not in the page: the decimal spelling used as the inverse of `parseInt`; it is non-empty, all digits and has no leading zero |
| `JsParseInt.ValueOfToDecimal` | client/src/pages/Adminaddproduct.js:75 | reading the decimal spelling of n gives n |
| `JsParseInt.DigitPrefixStopsAt` | client/src/pages/Adminaddproduct.js:75 | an all-digit string followed by a non-digit is exactly the digit prefix |
| `JsParseInt.MagnitudeOfDecimal` | client/src/pages/Adminaddproduct.js:75 | the unsigned part of the parse reads a decimal spelling back, with "0x" the only continuation |
| `JsParseInt.ParseIntDecimal` | client/src/pages/Adminaddproduct.js:75 | parseInt of a decimal spelling followed by non-numeric text gives that number |
| `JsParseInt.ParseIntNegated` | client/src/pages/Adminaddproduct.js:75 | parseInt of "-" and a decimal spelling gives the negated number |
| `JsParseInt.ParseIntNoDigits` | client/src/pages/Adminaddproduct.js:75-76 | a string without any decimal digit parses to NaN |
| `JsParseInt.ParseIntUnsigned` | client/src/pages/Adminaddproduct.js:75 | a string starting with a decimal digit parses to the value of its unsigned part, with no sign applied |
| `AddProductPage.BuildFormData` | client/src/pages/Adminaddproduct.js:83-92 | the body is title, description, price, category, subcategory and the raw quantity text, in that order, then one `images` part per preview file in list order |
| `AddProductLogic.PayloadRoundTrip` | client/src/pages/Adminaddproduct.js:83-92 | reading such a body back gives the exact product and the files in their order |
| `AddProductLogic.ImagePartsCarryFiles` | client/src/pages/Adminaddproduct.js:90-92 | the trailing image parts carry exactly the preview files, in order |
| `AddProductLogic.ImageFilesAppend` | client/src/pages/Adminaddproduct.js:90-92 | image files are read back piecewise over a split body |
| `AddProductPage.ObjectUrls.Create` | client/src/pages/Adminaddproduct.js:37 | `createObjectURL` returns a handle that was not live and is live afterwards |
| `AddProductPage.ObjectUrls.Revoke` | client/src/pages/Adminaddproduct.js:45 | `revokeObjectURL` takes the handle out of the live set |
| `AddProductPage.HandleSetAppend` | client/src/pages/Adminaddproduct.js:40 | the handles of appended preview lists are the union of their handles |
| `AddProductPage.DistinctAppend` | client/src/pages/Adminaddproduct.js:40 | appending previews with fresh handles keeps every handle distinct |
| `AddProductPage.AddProductForm.HandleImageUpload` | client/src/pages/Adminaddproduct.js:28-41 | a batch that would take the list past 3 sets "Maximum of 3 images allowed" and changes nothing else; otherwise the new previews follow the old ones in file order, each with a fresh handle, and the error is left as it was; the list never exceeds 3 |
| `AddProductPage.RemoveAt` | client/src/pages/Adminaddproduct.js:44-46 | splicing one element out: one shorter, the elements before the index in place, those after it shifted down by one |
| `AddProductPage.HandleSetRemoveAt` | client/src/pages/Adminaddproduct.js:43-47 | removing a preview removes exactly its handle and keeps the handles distinct |
| `AddProductPage.AddProductForm.RemoveImage` | client/src/pages/Adminaddproduct.js:43-48 | exactly preview i is revoked and spliced out; the others keep their relative order |
| `AddProductPage.AddProductForm.RevokeAllPreviews` | client/src/pages/Adminaddproduct.js:116 | every preview's handle is revoked, and nothing else |
| `AddProductPage.AddProductForm.ApplyReply` | client/src/pages/Adminaddproduct.js:99-120 | an ok reply sets `success`, clears all six fields, empties the list and leaves no object URL live; a non-ok reply or an exception sets the server's or the exception's message, or "Failed to add product", and keeps fields and previews |
| `AddProductPage.Outcome` | client/src/pages/Adminaddproduct.js:56-123 | the submission is blocked exactly when validation fails, and then by the first failing check; it succeeds exactly when validation passes and the response is ok; a failure message is the server's or the exception's message, or "Failed to add product", and is never empty |
| `AddProductPage.AddProductForm.HandleSubmit` | client/src/pages/Adminaddproduct.js:50-124 | a request is built exactly when validation passes, with the payload above; a validation error sets its message and leaves the state alone; on success `success` is set, all six fields are "", the list is empty and no object URL is live; a failed reply sets its message and keeps fields and previews; `isLoading` ends false on every path |
| `AddProductPage.AddProductForm.constructor` | client/src/pages/Adminaddproduct.js:5-16 | the form starts with six empty fields, no preview, no object URL, not loading, no success and no error |
| `JsValues.OrElse` | client/src/pages/Adminproducts.js:16 | `message || fallback` is the message when truthy, else the fallback, and never empty when the fallback is not |
| `ProductListLogic.NormalizeProducts` | client/src/pages/Adminproducts.js:18 | the list is `products` when it is an array and empty otherwise |
| `ProductListPage.FetchError` | client/src/pages/Adminproducts.js:15-21 | a failed answer leaves the server's message when it is truthy, else exactly "Failed to fetch products"; a thrown exception leaves its own message |
| `ProductListPage.ProductsPage.FetchProducts` | client/src/pages/Adminproducts.js:11-25 | on an ok and successful answer the list becomes the normalised `products`; otherwise the list is kept and the error set; loading ends false on every path |
| `ProductListPage.ProductsPage.constructor` | client/src/pages/Adminproducts.js:5-7 | the page starts with an empty list, loading, and no error |
| `ProductListLogic.WithoutId` | client/src/pages/Adminproducts.js:41 | a product is kept exactly when it was in the list and its id differs from the deleted one |
| `ProductListLogic.WithoutIdAppend` | client/src/pages/Adminproducts.js:41 | the filter works piecewise, so kept products stay in their order |
| `ProductListLogic.WithoutIdLength` | client/src/pages/Adminproducts.js:41 | the list shrinks by exactly the number of products with that id |
| `ProductListLogic.WithoutAbsentId` | client/src/pages/Adminproducts.js:41 | deleting an id no product has leaves the list unchanged |
| `ProductListLogic.WithoutUniqueId` | client/src/pages/Adminproducts.js:40-41 | with unique ids, deleting the id at position k removes that product and no other |
| `ProductListLogic.WithoutIdIdempotent` | client/src/pages/Adminproducts.js:41 | deleting the same id twice equals deleting it once |
| `ProductListPage.DeleteError` | client/src/pages/Adminproducts.js:37-43 | a failed delete leaves the server's message when it is truthy, else exactly "Failed to delete product"; a thrown exception leaves its own message |
| `ProductListPage.ProductsPage.HandleDelete` | client/src/pages/Adminproducts.js:31-45 | on success the list is the old list without the deleted id and the error is kept; on failure the list is unchanged and the error set |
| `ProductListLogic.EntrySources` | client/src/pages/Adminproducts.js:109-115 | no more sources than entries; every entry with data contributes its URI; with all entries carrying data the sources match the entries one by one; with none the result is empty |
| `ProductListLogic.SourceFromEntry` | client/src/pages/Adminproducts.js:109-115 | every source is the URI of some entry that has data |
| `ProductListLogic.EntrySourcesAppend` | client/src/pages/Adminproducts.js:109-115 | sources come out in the entries' order |
| `ProductListLogic.DataUri` | client/src/pages/Adminproducts.js:112 | the URI is exactly 13 characters longer than the type and the data together (the `data:` and `;base64,` markers) |
| `ProductListLogic.DataUriShape` | client/src/pages/Adminproducts.js:112 | the URI is `data:`, the content type, `;base64,` and the data, in that order |
| `ProductListLogic.SourceOfShape` | client/src/pages/Adminproducts.js:109-118 | an entry with data gives a `data:` URI that starts with its content type, or with "undefined" when it has none, and ends with its data |
| `ProductListLogic.ImageSources` | client/src/pages/Adminproducts.js:105-119 | with an `images` array the sources are exactly that array's entry sources (at most one per entry); without one, exactly the legacy image's URI when it has data, otherwise nothing |
| `ProductListLogic.LegacyImageIgnored` | client/src/pages/Adminproducts.js:107-119 | when `images` is an array the legacy `image` field has no effect |
| `ProductListLogic.EmptyImagesArrayWins` | client/src/pages/Adminproducts.js:107-116 | an empty `images` array shows no image even when `image` has data |
| `ProductListLogic.ImageCellOf` | client/src/pages/Adminproducts.js:127-140 | the cell shows "No images" exactly when there is no source, and otherwise every source |
| `ProductListLogic.DataUriRoundTrip` | client/src/pages/Adminproducts.js:112 | `data:<type>;base64,<data>` gives back the type and the data when the type has no ';' |
| `ProductListLogic.IndexOf` | client/src/pages/Adminproducts.js:112 | helper of the `data:` URI reader, not in the page: the position of the first occurrence of a character, or the length when it is absent |
| `ProductListLogic.QuantityShown` | client/src/pages/Adminproducts.js:144 | a missing or zero quantity shows 0; any other quantity shows itself |
| `ProductListLogic.CreatedAtShown` | client/src/pages/Adminproducts.js:146 | the cell reads "N/A" exactly when `createdAt` is missing or empty; otherwise it carries the date itself |

## Left out

- Network I/O: the `fetch` calls, `response.json()` and the fixed `localhost:8080` URLs. Each answer is an input value. A body that fails to parse as JSON is folded into the "exception" variant of the reply.
- React state hooks, `useEffect` timing and all JSX rendering. Exceptions: the Images cell and the quantity and date fallbacks. The choice between spinner, error, "No products found" and the table (client/src/pages/Adminproducts.js:69-87) is not modelled.
- `AddProductPage.AddProductForm.HandleSubmit` runs as one step. In the page, the user could still add or remove previews while the request is pending; those interleavings are not modelled. One of them leaks: on success the page revokes the previews of the list it rendered with (client/src/pages/Adminaddproduct.js:116) and then empties the current list (:117), so a preview added meanwhile is dropped without its object URL being revoked. The model's "no object URL leaks" invariant holds only because each handler runs as one step.
- `ProductListPage.ProductsPage.HandleDelete` filters the list as it stands when the reply arrives. The page filters the `products` array captured when the row rendered (client/src/pages/Adminproducts.js:41), and its delete button is never disabled. With two deletes in flight, the second completion writes back a list that still holds the first deleted product. That lost update is not modelled.
- `URL.createObjectURL` / `URL.revokeObjectURL` are a browser store. Here it is a counter of issued handles plus a ghost set of live ones.
- `handleChange` with an input name other than the six form fields. The form has no other inputs.
- `JsParseInt.ParseInt` computes mathematical integers. JavaScript rounds long digit runs to a double, which never changes the sign the validation looks at. White space is the ASCII set plus NBSP, BOM and the two Unicode line separators; other Unicode space separators are not recognised.
- JSON typing on the list page:
  - `quantity` is an optional integer; the other falsy values (the empty string, NaN, `false`) are not modelled.
  - `data` is an optional string.
  - A `null` `contentType` (which prints as "null") is not told apart from a missing one (which prints as "undefined").
  - A null or non-array `images` field is treated like a missing one.
- `price?.toFixed(2)` and `formatDate` / `toLocaleDateString` (floating-point and locale formatting). The date cell carries the raw `createdAt`, and `price` is not part of the row.
- `client/src/pages/Adminlogin.js`, `client/src/pages/Adminqueries.js` and `client/src/pages/Adminuser.js` are not part of this model. They only fetch and render, or hold a placeholder login.
