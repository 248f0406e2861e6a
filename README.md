# CarHub marketplace core in Dafny

This project models the core of CarHub, a small used-car marketplace with an Express/MongoDB
backend and a React client:

- the listing routes of `backend/Routes/Products.js`:
  - POST /createproduct, GET /mycars, GET, PUT and DELETE /cars/:id;
  - POST /search, together with its helper `searchProducts`;
- the `Product` schema of `backend/models/Product.js`: required fields, the title's `trim`
  setter, the timestamp defaults and the pre-save hook;
- the account routes of `backend/Routes/CreateUser.js`, /CreateUser and /LoginUser;
- the image-list, tags-field and save rules of the car details page
  (`src/components/CarDetails.js`), and the component state its handlers update.

Modules, one per concern:

| module | file | contents |
|---|---|---|
| `Wrappers` | wrappers.dfy | `Option` |
| `Text` | text.dfy | `split` with a one-character separator, `join` and `trim`. Split and join are proved to be inverses. |
| `Seqs` | seqs.dfy | `filter` as an order-preserving sublist, and `$limit` |
| `Http` | http.dfy | request body values: JavaScript truthiness, the emptiness test of express-validator, `String(v)` and the Mongoose string cast |
| `ProductSchema` | product_schema.dfy | the listing record, document construction, `save` with its hook (class `ProductDocument`) |
| `ListingRules` | listing_rules.dfy | each listing route as a function from the collection and the request to its reply and the new collection, with the properties the routes promise |
| `ListingStore` | listing_store.dfy | the product collection as a class whose handler methods change it in place, each proved to follow its rule |
| `Search` | search.dfy | the aggregation pipeline, `searchProducts` and the search route, together with the route as written |
| `CarDetails` | car_details.dfy | the client's list and tags rules, the requests it sends, and the page state (class `CarDetailsView`) |
| `Accounts` | accounts.dfy | registration and login as functions, and the user collection as a class |

Semantics of the libraries the routes rely on, as the model fixes them:

- **Body values.** A body field is one of:
  - absent;
  - a string;
  - an array of strings;
  - a scalar (number, boolean or null), carrying the text validators see and its truthiness. Null is seen as the empty text.
- **`not().isEmpty()`.** It fails on absent and empty values. Arrays are checked element by element, so `[]` passes it. `optional()` skips only an absent value.
- **Required arrays and string casts.** A required array is satisfied by `[]`. A `String` path accepts strings and scalars. An array does not cast to a string, and such a failing cast turns into the route's 500.
- **Setters and hooks on updates.** `findByIdAndUpdate` runs the `trim` setter but neither the schema validators nor the `save` hook. So a PUT does not refresh `updatedAt`.
- **Ids and order.** Document ids are numbers handed out in insertion order. `/mycars` lists records in that order.
- **Timestamps.** Every `Date.now()` reading is a parameter.
- **Versions.** The package manifest is not part of this model. These rules assume Mongoose 5 or later, because Mongoose 4 fails `required` on `[]`.

## Model

| member | source | states |
|---|---|---|
| Text.Split | backend/Routes/Products.js:116 | `split(',')` gives at least one piece, and no piece holds the separator |
| Text.JoinSplit | backend/Routes/Products.js:116 | joining the pieces of a split with the separator gives back the split string |
| Text.SplitJoin | backend/Routes/Products.js:415 | splitting undoes joining when no piece holds the separator |
| Text.SplitPlain | backend/Routes/Products.js:116 | a string without the separator splits into itself alone |
| Text.LeadingSpaces | backend/models/Product.js:8 | the count covers exactly the run of spaces `trim` drops at the front: all counted characters are space and the next one is not |
| Text.TrailingSpaces | backend/models/Product.js:8 | the count covers exactly the run of spaces `trim` drops at the back: all counted characters are space and the one before them is not |
| Text.Trim | backend/models/Product.js:8 | the result is the infix of the input that starts where the leading spaces end, has no space at either end, and everything outside it is space; an already trimmed input is returned as it is |
| Text.TrimBetween | backend/models/Product.js:8 | when everything around a trimmed middle of a string is space, `trim` returns exactly that middle |
| Text.TrimLeadingSpace | src/components/CarDetails.js:202 | `trim` ignores a leading space |
| Text.SplitTrim | backend/Routes/Products.js:415 | split-and-trim gives one tag per piece of `split(',')`, tag `i` being piece `i` trimmed, so each tag is trimmed and comma-free |
| Seqs.Keep | backend/Routes/Products.js:615 | `filter` gives an order-preserving sublist holding only elements that pass the test and every element that passes; it keeps the whole input exactly when every element passes |
| Seqs.KeepCounts | backend/Routes/Products.js:615 | `filter` keeps each passing element as many times as it occurs in the input, and no other element |
| Seqs.Take | backend/Routes/Products.js:499-503 | `$limit n` keeps the first `min(n, length)` documents, as a prefix |
| ProductSchema.Construct | backend/models/Product.js:4-33 | a new document's title is the given title passed through `trim`; both timestamps equal the construction time, and every other field is as given |
| ProductSchema.ProductDocument.constructor | backend/models/Product.js:26-33 | `new Product(...)` holds exactly the constructed record |
| ProductSchema.ProductDocument.PreSave | backend/models/Product.js:37-40 | the hook sets `updatedAt` to now and changes nothing else |
| ProductSchema.ProductDocument.Save | backend/models/Product.js:5-25 | `save` succeeds exactly when title, description and owner email are non-empty, and only then stamps `updatedAt` |
| ProductSchema.BlankTitleIsNotSaved | backend/models/Product.js:5-9 | a title made only of spaces is trimmed to nothing, and the document fails `required` |
| ListingRules.CreateErrors | backend/Routes/Products.js:104-113 | there are no errors exactly when title, description and tags are non-empty and image URLs is an array of 1 to 10 items; there are at most four errors |
| ListingRules.CreateTags | backend/Routes/Products.js:116 | array tags are kept as they are; any other value becomes at least one comma-free piece, and the pieces joined with commas give back `String(tags)` |
| ListingRules.CreateStep | backend/Routes/Products.js:104-131 | the create route replies 200, 400 or 500; any reply but 200 leaves the collection as it was, and a 200 adds the saved product under the fresh id and nothing else |
| ListingRules.CreateRejectsInvalid | backend/Routes/Products.js:104-113 | create replies 400 exactly on a failing validator, and then stores nothing |
| ListingRules.CreateAddsOneRecord | backend/Routes/Products.js:115-131 | a reply is 200, 400 or 500. Only a 200 changes the collection, and it adds exactly one record under the fresh id, with the request's email, images and tags rule applied, a trimmed non-empty title and the two times. Other records are unchanged. |
| ListingRules.CreateSucceedsIff | backend/Routes/Products.js:115-131 | create saves exactly when the validators pass, title, description and email cast to strings, and trimmed title, description and email are non-empty |
| ListingRules.CreateTagsRule | backend/Routes/Products.js:116 | array tags are kept, and string tags are split without trimming, so `"a, b"` gives `["a", " b"]` |
| ListingRules.CreateSpaceTitleIsServerError | backend/Routes/Products.js:105-131 | a title of one space passes the validator but fails `save`, giving 500 with nothing stored |
| ListingRules.OwnedBelow | backend/Routes/Products.js:206 | the listed records are exactly the stored records owned by the email, in increasing id order |
| ListingRules.MyCarsResponse | backend/Routes/Products.js:202-207 | /mycars replies 200 with a list of stored records, each owned by the requested email |
| ListingRules.FetchResponse | backend/Routes/Products.js:278-285 | GET /cars/:id replies 200 with the stored record exactly when the id is stored, and 404 otherwise |
| ListingRules.UpdateErrors | backend/Routes/Products.js:396-405 | there are no errors exactly when each present title, description and tags value is non-empty and present image URLs form an array of at most 10 |
| ListingRules.UpdateFieldsOf | backend/Routes/Products.js:407-420 | `updateFields` has a title, description or images key exactly when the request brings a truthy value for it, and a tags key exactly for truthy string or array tags, always as an array; split string tags are trimmed |
| ListingRules.Apply | backend/Routes/Products.js:423 | `findByIdAndUpdate` never changes the record's id, owner or timestamps, and an empty `updateFields` leaves the record as it was |
| ListingRules.UpdateStep | backend/Routes/Products.js:396-431 | the update route replies 200, 400, 404 or 500; any reply but 200 leaves the collection as it was, and a 200 replaces only the addressed, existing record, keeping its id |
| ListingRules.UpdateRejectsEmpty | backend/Routes/Products.js:397-404 | a present but empty title, description or tags value gives 400 with the collection unchanged |
| ListingRules.UpdateChangesOnlyPresentFields | backend/Routes/Products.js:407-427 | only a 200 changes the collection, and in only the addressed record. A field changes only when the request brings a truthy value for it: the title is trimmed, string tags are split and trimmed. Id, owner and both timestamps never change. |
| ListingRules.UpdateImageBounds | backend/Routes/Products.js:400-420 | more than 10 image URLs give 400; an empty array is accepted and replaces the whole image list |
| ListingRules.UpdateIgnoresOtherTags | backend/Routes/Products.js:412-419 | truthy tags that are neither a string nor an array leave the record's tags as they were |
| ListingRules.UpdateSkipsFalsyTitle | backend/Routes/Products.js:410 | a falsy non-empty title such as `0` passes validation and is then skipped, leaving the collection unchanged |
| ListingRules.DeleteStep | backend/Routes/Products.js:467-482 | delete replies 200 exactly when the id is stored and 404 otherwise; afterwards the collection holds every other record unchanged and not that id |
| ListingRules.MissingIdIsNotFound | backend/Routes/Products.js:278-285 | on a missing id, GET and DELETE reply 404, a valid PUT replies 404, and none of them changes the collection |
| ListingRules.DeleteThenFetchIsNotFound | backend/Routes/Products.js:467-478 | delete removes exactly the addressed record and replies with success, after which GET on that id replies 404 |
| ListingStore.ProductCollection.Create | backend/Routes/Products.js:104-131 | the handler's reply and new collection are those of the create rule; the fresh id was unused and advances only on success |
| ListingStore.ProductCollection.MyCars | backend/Routes/Products.js:202-207 | the reply is that of the /mycars rule: exactly the collection's records owned by the email, in increasing id order; it cannot modify the collection |
| ListingStore.ProductCollection.GetCar | backend/Routes/Products.js:278-285 | 200 with the stored record exactly when the id is stored, 404 otherwise |
| ListingStore.ProductCollection.BuildUpdateFields | backend/Routes/Products.js:408-420 | the key-by-key construction of `updateFields` gives the object the update rule specifies |
| ListingStore.ProductCollection.UpdateCar | backend/Routes/Products.js:396-431 | the handler's reply and new collection are those of the update rule |
| ListingStore.ProductCollection.DeleteCar | backend/Routes/Products.js:467-482 | the handler's reply and new collection are those of the delete rule |
| ListingStore.SaveDocument | backend/Routes/Products.js:118-126 | building and saving a document yields the stamped record exactly when the schema accepts it |
| ListingStore.InsertFresh | backend/Routes/Products.js:118-126 | the id a new document receives is unused, and inserting under it keeps every record stored under its own id |
| ListingStore.CreateListDeleteScenario | backend/Routes/Products.js:104-131 | any listing that creates successfully on an empty collection is stored with the request's email, is then its owner's only car, and after it is deleted GET on its id replies 404 |
| Search.Pipeline | backend/Routes/Products.js:487-503 | the pipeline opens with the text search over title, description and tags, and has a `$limit` stage exactly when `lim` is a number above 0 |
| Search.BuildPipeline | backend/Routes/Products.js:487-503 | the literal-then-`push` construction gives that pipeline |
| Search.SearchProducts | backend/Routes/Products.js:486-522 | `searchProducts` never resolves to an empty list: an empty aggregation result becomes an error |
| Search.SearchProductsOutcome | backend/Routes/Products.js:486-522 | `searchProducts` finds the index's ranked documents, cut to `lim` when given. An empty list fails with "No products found.", and a database error passes on. |
| Search.GuardsPrecedeIndex | backend/Routes/Products.js:602-608 | a falsy query, then a falsy email, gives 400 with its message, whatever the index holds |
| Search.SearchRoute | backend/Routes/Products.js:602-628 | the route replies 200, 400, 404 or 500, and a 200 carries a non-empty list of hits that are all owned by the string email in the body |
| Search.SearchIndexError | backend/Routes/Products.js:610-627 | with both guards passed, a database error gives 404 with its message when that is "No products found." and 500 "Server error" otherwise |
| Search.SearchOutcomes | backend/Routes/Products.js:610-621 | with both guards passed and the index answering, no hits give 404 "No products found." and hits none of which the caller owns give 404 "No products found for this user". Status 200 comes exactly when some hit is owned by the caller, and then exactly the caller's hits are returned, in index order. |
| Search.SearchOwnHits | backend/Routes/Products.js:612-621 | a 200 returns each hit the caller owns exactly as many times as the index gave it, in the index's order, and nothing else |
| Search.SearchHitsAreStoredAndOwned | backend/Routes/Products.js:615-621 | when the index answers with stored records, every returned hit is a stored record owned by the caller |
| Search.SearchAsWrittenNeverReplies | backend/Routes/Products.js:594-599 | the route as written (`SearchRouteAsWritten`) throws a ReferenceError before any reply, so it never behaves as its intended logic `SearchRoute` |
| CarDetails.AppendImage | src/components/CarDetails.js:98 | the uploaded list is the old list followed by the new URL |
| CarDetails.AppendWithinLimit | src/components/CarDetails.js:79-82 | under the upload guard the new list holds at most 10 images |
| CarDetails.RemoveImage | src/components/CarDetails.js:134 | every occurrence of the URL is removed and every other image is kept in order, as many times as it occurred; the list is unchanged exactly when the URL is absent |
| CarDetails.RemoveEmptiesIff | src/components/CarDetails.js:134 | removing a URL leaves no image exactly when every image is that URL |
| CarDetails.DuplicatesDefeatGuard | src/components/CarDetails.js:127-134 | `["u", "u"]` passes the at-least-one guard, and removing `"u"` leaves `[]` |
| CarDetails.ParseTags | src/components/CarDetails.js:202 | the tags input reads back one tag per comma-separated piece of the text, tag `i` being piece `i` trimmed |
| CarDetails.TagsTextPieces | src/components/CarDetails.js:200 | the shown text `tags.join(', ')` (`TagsText`) is the first tag, then each further tag after a space, joined by commas |
| CarDetails.TrimPieces | src/components/CarDetails.js:202 | trimming each comma-separated piece of the shown text gives back the trimmed tags |
| CarDetails.TagsRoundTrip | src/components/CarDetails.js:200-202 | a non-empty list of trimmed, comma-free tags is shown joined and read back as the same tags |
| CarDetails.ClearedTagsField | src/components/CarDetails.js:202 | an emptied tags field reads back as one empty tag |
| CarDetails.UploadRequest | src/components/CarDetails.js:98-106 | the upload's PUT body carries only `imageUrls`: the old images followed by the new URL |
| CarDetails.ImageDeleteRequest | src/components/CarDetails.js:134-143 | the image delete's PUT body carries only `imageUrls`, without the deleted URL and no longer than before |
| CarDetails.SaveRequest | src/components/CarDetails.js:38-42 | the save body has no `imageUrls` key, so the update route builds no images field from it; its tags pass the emptiness check exactly when no tag is empty |
| CarDetails.UploadStoresAppended | src/components/CarDetails.js:98-106 | the upload's PUT under the guard passes validation, and a stored car's images become the old list followed by the URL |
| CarDetails.DuplicateDeleteEmptiesStoredImages | src/components/CarDetails.js:127-143 | deleting the duplicated URL of a car with images `["u", "u"]` is accepted and leaves it without images |
| CarDetails.SaveKeepsImagesAndOwner | src/components/CarDetails.js:36-42 | a save never changes any car's images, owner, id or timestamps |
| CarDetails.AfterPut | src/components/CarDetails.js:109-116 | the car is replaced by the server's car on an ok reply and kept otherwise |
| CarDetails.CarDetailsView.constructor | src/components/CarDetails.js:7-10 | the page starts with no car, not editing, no file and no upload running |
| CarDetails.CarDetailsView.Load | src/components/CarDetails.js:13-29 | the car is set to the stored record when the GET succeeds and kept otherwise |
| CarDetails.CarDetailsView.ToggleEditing | src/components/CarDetails.js:251 | the Edit/Cancel button flips editing and keeps the edits |
| CarDetails.CarDetailsView.ChooseFile | src/components/CarDetails.js:160-162 | the file choice is recorded and nothing else changes |
| CarDetails.CarDetailsView.EditTitle | src/components/CarDetails.js:31-34 | when editing, the title becomes the typed value, and nothing else changes |
| CarDetails.CarDetailsView.EditDescription | src/components/CarDetails.js:31-34 | when editing, the description becomes the typed value, and nothing else changes |
| CarDetails.CarDetailsView.EditTags | src/components/CarDetails.js:200-203 | when editing, the tags become the typed text split and trimmed |
| CarDetails.CarDetailsView.Upload | src/components/CarDetails.js:74-124 | nothing changes without a file or with 10 or more images. Otherwise the server applies the appended list, and the car is replaced only by an ok reply. The uploading flag ends cleared. |
| CarDetails.CarDetailsView.ImageDelete | src/components/CarDetails.js:126-158 | nothing changes with at most one image or without confirmation. Otherwise the server applies the filtered list, and the car is replaced only by an ok reply. |
| CarDetails.CarDetailsView.Save | src/components/CarDetails.js:36-53 | the server applies the update rule to the page's car; a successful reply ends editing, and the page's car is kept |
| CarDetails.CarDetailsView.Delete | src/components/CarDetails.js:55-72 | the DELETE goes out only when confirmed, and the page navigates exactly when the car existed |
| Accounts.ValidatorLength | backend/Routes/CreateUser.js:45-46 | `isLength` counts the code points of the string other than the variation selectors U+FE0E and U+FE0F, which is the whole length when neither occurs |
| Accounts.RegisterErrors | backend/Routes/CreateUser.js:43-52 | there are no errors exactly when the email is valid and name and password have at least 5 characters |
| Accounts.RegisterStep | backend/Routes/CreateUser.js:41-77 | register replies 200, 400 or 409; only `{success: true}` changes the collection, adding the new email alone, with the hashed password |
| Accounts.RegisterRejectsInvalid | backend/Routes/CreateUser.js:49-52 | an invalid registration gets 400 with its errors, creates nothing, and is decided before any lookup |
| Accounts.RegisterRejectsDuplicate | backend/Routes/CreateUser.js:54-57 | a valid registration of a taken email gets 409 and changes nothing |
| Accounts.RegisterAddsOneAccount | backend/Routes/CreateUser.js:59-75 | `{success: true}` comes exactly for a valid, new, fault-free registration, adding exactly one account with the hashed password and the next id. A fault gives 200 `{success: false}` and adds nothing. |
| Accounts.LoginErrors | backend/Routes/CreateUser.js:109-116 | there are no errors exactly when the email is valid and the password has at least 5 characters |
| Accounts.LoginReply | backend/Routes/CreateUser.js:109-143 | login replies 200 or 400, and a token only for a registered email whose stored hash compares equal to the password |
| Accounts.LoginRejectsInvalid | backend/Routes/CreateUser.js:113-116 | invalid credentials get 400 with their errors before any lookup |
| Accounts.LoginSucceedsIff | backend/Routes/CreateUser.js:121-138 | a token comes exactly when the account exists and the password compares equal to its hash, and it signs that account's id. An unknown email and a wrong password both give 400, with different messages. |
| Accounts.LoginClaimsDiffer | backend/Routes/CreateUser.js:132-137 | two different registered accounts log in with different token claims |
| Accounts.RegisterThenLogin | backend/Routes/CreateUser.js:59-71 | with a sound hash pair, login right after a registration returns a token for the new account |
| Accounts.AccountRegistry.Register | backend/Routes/CreateUser.js:41-77 | the handler's reply and new collection are those of the register rule; the next id advances only on success |
| Accounts.AccountRegistry.Login | backend/Routes/CreateUser.js:109-143 | the handler's reply is that of the login rule, and it cannot modify the collection |

## Left out

- `backend/models/User.js` is not part of this model. The stored account holds the fields the register route passes to `create`.
- Accounts.Registration: the account routes' fields are plain strings. Absent or non-string JSON values in account requests are not modelled.
- Request values that are JSON objects, or arrays holding non-strings, are not modelled. Fields are absent, strings, arrays of strings or scalars.
- ListingRules.CreateErrors: reports one error per failing field. express-validator reports one per failing element of an array.
- ListingRules.UpdateErrors: reports one error per failing field. express-validator reports one per failing element of an array.
- ListingStore.ProductCollection.MyCars: takes the email as a string. A request without `email` makes Mongoose drop the filter and list every product, and that case is not modelled.
- ListingStore.ProductCollection.MyCars: lists records in creation order. MongoDB promises no order for a `find` without a sort.
- The malformed `:id` values that fail the ObjectId cast, which the routes turn into 500, are not modelled. Ids are numbers.
- Database and network faults in the listing routes are not modelled: the catch-all 500s of GET, DELETE and /mycars, and faults in `save` or `findByIdAndUpdate`. Account routes take a `fault` flag instead.
- Search.LimitArg: numeric `lim` values are integers. A fractional `lim` is not modelled.
- Search: the Atlas text index (tokenising, relevance) is a parameter that gives the ranked matches for a query. The route always calls `searchProducts` without `lim`.
- Server bootstrap, CORS, body parsing, swagger and the database connection (`backend/index.js`, `backend/db.js`) are I/O and are not modelled.
- Console logging is left out, with one exception: the call at line 598 of `backend/Routes/Products.js`, whose undeclared name is the finding below.
- The rendering, alerts and navigation of the React pages are left out; the car details page keeps only a `navigated` result for its delete.
- `src/components/SearchResults.js`, `ProductCreation.js`, `MyCars.js`, `Cardes.js`, `navbar.js`, `Loginform.js`, `Signupform.js` and `src/App.js` are not modelled.
  - `SearchResults.js` sends `userEmail` as a request header (line 91). The search route reads `req.body.userEmail` (`backend/Routes/Products.js:596`), so that client's searches fall to the "User email is required" guard.
- The image host (Cloudinary) upload is a parameter: the URL it returned, or none. Failures of `fetch` itself (the catch branches of the client handlers) are not modelled.
- bcrypt and jsonwebtoken are function-typed parameters (`Accounts.Library`). `genSalt` is a salt parameter, and `Date.now()` readings are time parameters.
- Accounts.RegisterAddsOneAccount: states that the stored password is `hash(password, salt)`, not that it differs from the plaintext, because that depends on bcrypt.
- Accounts.RegisterStep: the `fault` flag covers throws inside the `try` only (hashing and `create`). The `findOne` lookup (`backend/Routes/CreateUser.js:54`) sits outside it, so a fault there leaves the request without a reply; that case is not modelled.
- Concurrency is not modelled: the check-then-create race on a duplicate email, last-writer-wins updates and parallel uploads. Handlers run one at a time.
- The page's handlers are modelled as running to completion, one at a time. Of the controls the page disables, only the read-only form fields are modelled: the edit methods change nothing unless editing. The disabled upload button and the buttons shown only while editing are not modelled.

## Code versus its description

- A PUT whose title is the empty string is refused with 400 by `optional().not().isEmpty()` (`backend/Routes/Products.js:397`). It is not treated as a field left out, and the model follows the code.
- Create splits string tags on commas without trimming the pieces (`backend/Routes/Products.js:116`); only the update route trims them (`backend/Routes/Products.js:415`). The model follows the code.
- A search whose hits all belong to other owners replies 404 "No products found for this user" (`backend/Routes/Products.js:617-619`), not an empty success. The model follows the code.
- The register route logs the whole request body, password included, before the duplicate check (`backend/Routes/CreateUser.js:53`). Logging is not modelled.
- `updatedAt` is refreshed only by `save` (`backend/models/Product.js:37-40`). The update route uses `findByIdAndUpdate` (`backend/Routes/Products.js:423`), which does not run the hook, so a PUT leaves `updatedAt` unchanged. The model follows the code.

## Findings

| source | as written | input that shows it | evidently intended | confidence | as-written member | corrected member |
|---|---|---|---|---|---|---|
| backend/Routes/Products.js:598 | the handler logs `seearchQuery`, a name that is never declared, so it throws a ReferenceError before its guards and never replies | any POST /search, e.g. `?q=tesla` with body `{ "userEmail": "a@x.com" }` | log `searchQuery` and go on to the guards, the search and the owner filter | not executed | Search.SearchAsWrittenNeverReplies | Search.SearchOutcomes |
