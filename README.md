# Product catalog: backend store and browser page state, in Dafny

This project models the two halves of a small shop application.

The backend is a FastAPI service over a MongoDB collection `productos`. It lists products for the administrator, capped at 100. It lists the products in stock for the client, also capped at 100. It reads, creates, updates and deletes a product by id, and it runs a purchase that checks the stock and then decrements it.

The model treats the collection as a sequence of documents in stored order, held by the class `ProductApi.ProductStore`. Each handler is a method or a reading function of that class. Its invariant (`Products.StoreInvariant`) says that `_id` is unique and that every stored document meets the `Producto` constraints: `precio > 0` and `cantidad_en_stock >= 0`. Every handler keeps that invariant.

Every handler wraps its body in `try ... except Exception` and re-raises a 500. That also catches the handler's own `HTTPException(404)` and `HTTPException(400)`. As the code is written, a missing product or a short stock therefore reaches the client as 500 "Error interno del servidor". The model keeps the internal reason (`Products.Failure`) apart from the status the client is shown (`Products.ReportedStatus`). Only a body that fails validation gets its own status, 422, because validation runs before the handler.

Ids are modelled as twelve bytes (`ObjectIds`). `str(_id)` gives 24 lower-case hex digits. `ObjectId(s)` accepts exactly 24 hex digits, in either case. A path id that `ObjectId` rejects is a generic failure, so the client sees 500. The `_id` that `insert_one` assigns is a parameter of `CreateProduct`. If it is already in use, the insert fails, which is also reported as 500.

The browser script is the class `Frontend.Page`. It holds three panel-visibility flags and the module variables `isAdminLoggedIn`, `isEditing` and `editingProductId`. Each panel function and handler is a method that updates those fields in the order the script does. Its invariant says two things: at most one panel is visible, and edit mode always names a product. Network results and dialog answers are inputs. Alerts are returned as their text, and table reloads as a `Refresh` tag.

The requests the script sends are pure functions:
- the save handler's PUT or POST (`Frontend.SaveRequest`);
- the purchase gate of `buyProduct` (`Frontend.PurchaseRequest`).

`parseInt` without a radix follows section 19.2.5 of ECMA-262 (`JsParseInt`). It skips leading white space and line terminators and reads an optional sign. A `0x` or `0X` prefix selects base 16. It then takes the longest digit prefix, and the result is NaN when that prefix is empty.

Three behaviours of the code are easy to misread; the model follows the code as written:
- The purchase handler raises `HTTPException(400, "Stock insuficiente")` at main.py:145, but its own `except Exception` turns that into 500 with detail "Error interno del servidor". The client alert therefore never shows the real reason (`Frontend.RejectedPurchaseAlert`).
- A failed login only alerts. It leaves the session flag as it was, which is `true` if an earlier login succeeded and no logout followed.
- `editProduct` enters edit mode on any truthy JSON body. The `{"detail": ...}` body of a failed lookup is truthy too (`Frontend.ErrorBodyIsTruthy`), not only a loaded product.

## Model

| member | source | states |
|---|---|---|
| `ObjectIds.Parse` | main.py:76 | `ObjectId(s)` succeeds exactly on strings of 24 hexadecimal digits |
| `ObjectIds.ToString` | main.py:50 | `str(_id)` is 24 characters long |
| `ObjectIds.ParseToString` | main.py:50 | the string form of every id is accepted by `ObjectId(...)` and denotes that same id |
| `ObjectIds.ToStringOfParse` | main.py:76 | every accepted id string is the string form of its id, with its letters in lower case |
| `ObjectIds.ToStringInjective` | main.py:50 | distinct ids have distinct string forms |
| `ObjectIds.FromHexOfHex` | main.py:50 | decoding hex digit pairs inverts the hex rendering of any byte sequence |
| `ObjectIds.HexOfFromHex` | main.py:76 | rendering the bytes of a hex string gives back that string in lower case |
| `Products.Body` | main.py:102 | the fields written to the store satisfy the stored-field constraints exactly when the request met `gt=0` / `ge=0` |
| `Products.ProductoHelper` | main.py:48-55 | the response's `id` is `str(_id)` and parses back to the document's `_id`; the other four fields are the stored ones unchanged; it is a valid `Producto` iff the document is valid |
| `Products.IndexOf` | main.py:76 | `find_one` by `_id`: the position of the first document with that id, or none exactly when no document has it |
| `Products.Locate` | main.py:76-80 | InvalidId exactly when `ObjectId(pid)` raises; NotFound exactly when no document has the id; otherwise a position holding that id |
| `Products.IntendedStatus` | main.py:80-145 | the status each handler raises on purpose: 404 exactly for a missing product, 400 exactly for short stock, 422 exactly for a body that fails validation, 500 for a bad id or a failed insert |
| `Products.ReportedDetail` | main.py:81-83 | a `detail` is sent exactly when the reported status is 500, and it is always "Error interno del servidor" |
| `Products.ReportedStatus` | main.py:81-83 | a success is 200; every failure raised inside a handler is reported as 500; the status differs from the intended one exactly for NotFound (404) and InsufficientStock (400) |
| `Products.Serialize` | main.py:68 | the list comprehension keeps length and maps each document through `producto_helper` at the same position |
| `Products.InStock` | main.py:161 | the `$gt: 0` query returns exactly the stored documents with positive stock |
| `Products.ToList` | main.py:67 | `to_list(100)` returns a prefix of the results of length min(n, 100) |
| `Products.InStockIsSubsequence` | main.py:161 | the in-stock query keeps the stored order |
| `Products.AvailableFirstMatches` | main.py:161-162 | the client listing is the first matches of the in-stock query, in the query's order, as many as are listed |
| `Products.AvailableInStock` | main.py:161-162 | every product in the client listing has stock > 0 |
| `Products.AvailableInOrder` | main.py:161-162 | the client listing is an order-preserving selection of the stored products |
| `Products.AvailableComplete` | main.py:161-162 | when fewer than 100 products are listed, every product with stock is among them |
| `Products.TotalStockUpdate` | main.py:147-150 | changing one document's stock changes the total stock by exactly that difference |
| `Products.ListedIdLocates` | main.py:48-55 | with unique ids, the `id` a listed product carries locates that same document again |
| `Products.AppendKeepsInvariant` | main.py:88-91 | appending a valid document under an unused id keeps the store invariant |
| `ProductApi.ProductStore.ListProducts` | main.py:64-71 | at most 100 records, the first ones in stored order, each mapped by `producto_helper`; on a valid store each passes the response model |
| `ProductApi.ProductStore.ListAvailable` | main.py:158-165 | the first (at most 100) matches of the in-stock query; so all have stock > 0, they are in stored order, and none with stock is left out when fewer than 100 come back |
| `ProductApi.ProductStore.GetProduct` | main.py:73-83 | the record of the document the id names; otherwise the InvalidId or NotFound cause, reported as 500 |
| `ProductApi.ProductStore.CreateProduct` | main.py:85-97 | an invalid body is 422 and a used id fails; otherwise exactly one document is appended under the fresh id with the request's fields, the client `id` is discarded, and that record is returned; store unchanged on failure; invariant kept |
| `ProductApi.ProductStore.UpdateProduct` | main.py:99-115 | a bad body is 422; a bad or missing id fails with the store unchanged, reported as 500; otherwise the four non-id fields of that document are replaced in place, its id kept, and the updated record returned |
| `ProductApi.ProductStore.DeleteProduct` | main.py:117-129 | removes exactly the document the id names, keeping the order of the others; bad or missing id changes nothing and is reported as 500 |
| `ProductApi.ProductStore.Purchase` | main.py:136-156 | succeeds iff `cantidad > 0`, the product exists and its stock >= `cantidad`; then only that document's stock drops by exactly `cantidad` and the total stock by `cantidad`; any rejection leaves the store unchanged and is reported as 500 (422 for an invalid body); invariant (stock >= 0) kept |
| `ProductApi.ListedProductRoundTrip` | main.py:64-83 | fetching a listed product by its listed `id` returns exactly that listed record |
| `ProductApi.SoldOutNotAvailable` | main.py:161 | a product whose stock is 0 is not in the client listing |
| `JsParseInt.ParseInt` | frontend/static/script.js:81 | NaN exactly when, after the leading white space, the sign and a `0x`/`0X` prefix, no digit of the chosen base follows |
| `JsParseInt.ParseSigned` | frontend/static/script.js:81 | NaN exactly when the unsigned part is NaN; otherwise the unsigned value or its negation, negative only after a `-` |
| `JsParseInt.ParseUnsigned` | frontend/static/script.js:81 | base 16 after `0x`/`0X`, else base 10; NaN exactly when no digit of that base comes first; never negative |
| `JsParseInt.TrimStart` | frontend/static/script.js:81 | the trimmed string is no longer than the input and does not start with white space |
| `JsParseInt.TrimStartDropsLeadingWhiteSpace` | frontend/static/script.js:81 | the trimmed string is the input with a prefix of white space removed and the rest kept |
| `JsParseInt.LongestDigitPrefix` | frontend/static/script.js:81 | a prefix of the input made only of radix digits, followed by a non-digit or the end |
| `JsParseInt.Numeral` | frontend/static/script.js:81 | NaN exactly when no digit of the radix comes first; otherwise a non-negative value |
| `JsParseInt.DigitsValue` | frontend/static/script.js:81 | the value of a numeral of k digits is below radix^k |
| `JsParseInt.RadixStringValue` | frontend/static/script.js:81 | in base 10 and base 16, the digits of the numeral of n denote n |
| `JsParseInt.LeadingWhiteSpace` | frontend/static/script.js:81 | leading white space and line terminators do not change the result |
| `JsParseInt.UnsignedDecimal` | frontend/static/script.js:81 | after the sign step, a decimal numeral followed by a non-digit reads as its value, unless it is "0" followed by x or X |
| `JsParseInt.DecimalNumeral` | frontend/static/script.js:81 | a decimal numeral followed by a non-digit reads as its value, except "0" before x or X |
| `JsParseInt.NegativeDecimalNumeral` | frontend/static/script.js:81 | the same after a minus sign reads as the negated value |
| `JsParseInt.MinusSign` | frontend/static/script.js:81 | a leading minus sign negates whatever the rest reads as, NaN staying NaN |
| `JsParseInt.UnsignedHex` | frontend/static/script.js:81 | after the sign step, `0x` and a base-16 numeral followed by a non-hex-digit read as the numeral's value |
| `JsParseInt.HexNumeral` | frontend/static/script.js:81 | `0x` and the base-16 numeral of n, followed by anything but a hex digit, read as n |
| `JsParseInt.HexExample` | frontend/static/script.js:81 | "0x1A" reads as 26 |
| `JsParseInt.SignedExample` | frontend/static/script.js:81 | "  -12px" reads as -12 |
| `JsParseInt.TruncationAndNaNExamples` | frontend/static/script.js:81 | "3.9" reads as 3; "", "abc" and "0x" read as NaN |
| `Frontend.Truthy` | frontend/static/script.js:138 | a JSON value is falsy exactly when it is `null`, `false`, `0` or `""` |
| `Frontend.ErrorBodyIsTruthy` | frontend/static/script.js:138 | the `{"detail": ...}` error body passes `if (product)` |
| `Frontend.FormPayload` | frontend/static/script.js:180-185 | `productData` carries the name, description and price input unchanged and `parseInt` of the stock input |
| `Frontend.TypedStockIsSent` | frontend/static/script.js:184 | a stock input holding the decimal numeral of n is sent as the number n |
| `Frontend.SaveRequest` | frontend/static/script.js:186-206 | PUT iff `isEditing`, to `/admin/productos/` followed by `editingProductId`; otherwise POST to `/admin/productos/`; the body is the form's fields with the stock passed through `parseInt` |
| `Frontend.PurchaseRequest` | frontend/static/script.js:79-85 | a request exactly when the prompt answer is non-null and its `parseInt` is a number > 0; it is a POST to `/cliente/comprar/` with `producto_id` the product and `cantidad` that number |
| `Frontend.PurchaseFeedback` | frontend/static/script.js:94-103 | the client table reloads exactly on an ok response; a failed response alerts the server's detail; a thrown fetch alerts nothing |
| `Frontend.Page.constructor` | frontend/static/script.js:2-4 | after loading and `backToMain`, all panels are hidden, nobody is logged in and edit mode is off, whatever the markup showed |
| `Frontend.Page.ShowAdminLogin` | frontend/static/script.js:7-11 | only the login panel is visible; session and edit state untouched |
| `Frontend.Page.ShowAdmin` | frontend/static/script.js:14-23 | logged in: only the admin panel, and the admin table reloads; otherwise the same as `showAdminLogin` |
| `Frontend.Page.ShowClient` | frontend/static/script.js:26-31 | exactly the client panel is visible and the client table reloads |
| `Frontend.Page.BackToMain` | frontend/static/script.js:34-38 | all three panels hidden |
| `Frontend.Page.LogoutAdmin` | frontend/static/script.js:41-44 | logged out and all panels hidden, whatever the prior state |
| `Frontend.Page.SubmitLogin` | frontend/static/script.js:223-235 | "admin"/"admin123" sets the flag and leaves only the admin panel visible; any other pair leaves flag and panels as they were and alerts |
| `Frontend.Page.EditProduct` | frontend/static/script.js:134-150 | a truthy loaded body sets `isEditing` and `editingProductId = productId`; a thrown request or a falsy body changes nothing |
| `Frontend.Page.SubmitProductForm` | frontend/static/script.js:174-220 | sends `SaveRequest` of the state before; an ok response clears edit mode and reloads the admin table; a failed or thrown request leaves edit state unchanged |
| `Frontend.PutTargetsEditedProduct` | frontend/static/script.js:188-196 | on a consistent page a PUT always names the edited product, never `null` |
| `Frontend.PurchaseRequestIsValidCompra` | frontend/static/script.js:81-85 | every purchase the page sends passes the backend's `cantidad > 0` validation |
| `Frontend.TypedQuantityIsSent` | frontend/static/script.js:81-85 | a typed positive decimal, after spaces and before any non-digit tail, is sent as that number |
| `Frontend.NegativeQuantityNotSent` | frontend/static/script.js:81 | an answer starting with a minus sign never sends a purchase |
| `Frontend.ZeroQuantityNotSent` | frontend/static/script.js:81 | an answer reading as zero ("0" followed by anything but a digit, x or X) sends nothing |
| `Frontend.RejectedPurchaseAlert` | frontend/static/script.js:97-100 | a purchase the backend rejects for any cause but body validation (a bad or missing id, short stock) alerts the generic server message |
| `Frontend.Scenarios` | frontend/static/script.js:79-85 | buying "42" with answer "3" sends `cantidad` 3; Cancel or an empty answer sends nothing; saving "Widget" in create mode POSTs stock 5 |

## Left out

- Network and asynchrony: `fetch`, `await` and JSON encoding are not modelled. Each handler runs as one sequential step with its response passed in. Other handlers running between a handler's awaits are not modelled.
- The non-atomic read, check and decrement in `realizar_compra` races under concurrent requests. Purchase is modelled as one sequential step.
- DOM rendering is not modelled: table rows in `fetchProducts` and `fetchAvailableProducts`, filling the form in `editProduct`, the form reset, and the form title.
- `deleteProduct` in the browser is not modelled: its confirm dialog, DELETE request and alerts change no script state. The backend delete is modelled.
- `parseFloat`, `toFixed(2)` and the price value are not modelled. The price is a real number on the backend, and only `> 0` is used. The browser payload keeps the price input's text.
- `JsParseInt.TrimStart`: its own contract states only that the result is no longer than the input and starts with no white space. That it removes exactly the leading white space and keeps the rest is the separate lemma `JsParseInt.TrimStartDropsLeadingWhiteSpace`.
- `JsParseInt.ParseInt`: the result is the exact integer, and -0 is merged with 0. Two cases are not modelled. A numeral whose value exceeds 2^53 is rounded to the nearest Number. One whose value exceeds about 1.8e308 reads as Infinity, which `JSON.stringify` sends as `null`. `JSON.stringify` gives "0" for -0, so merging it changes nothing the page sends.
- `JSON.stringify(NaN)` sending `null`, and Pydantic's coercion of strings and floats, are not modelled. Validation is the predicate on the modelled fields.
- The detail list in a 422 response body is not modelled, nor how the page shows it.
- `ObjectIds.Parse`: `bytes.fromhex` skips white space between digit pairs, so some 24-character strings with spaces become short ids. That case is not modelled.
- The collection's natural order is taken to be insertion order.
- `ProductApi.ProductStore.CreateProduct`: BSON stores integers in at most 8 bytes. An accepted `cantidad_en_stock` of 2^63 or more makes `insert_one` raise, which is reported as 500; the model's unbounded integers return Ok there.
- `ProductApi.ProductStore.UpdateProduct`: for the same reason, such a stock makes `update_one` raise, reported as 500, where the model returns Ok.
- Failures of the database connection, which the startup code only logs, are not modelled. Driver errors and response-model validation are not modelled either; the store invariant guarantees that every listed record passes the response model.
- CORS, static-file mounting, serving `index.html`, and logging are not modelled.
