# Inventory tracker: section items, user store and activity log

A Dafny model of the three pieces of sequential logic in an inventory-tracking
web application (an Express/Mongoose API with a React dashboard):

- **Section item list** (`section_detail.dfy`, module `SectionDetail`). The
  section detail view keeps the section's items, each with a per-item quantity
  input. Its handlers adjust stock by ± quantity with the result clamped at 0,
  read the quantity input with `parseInt`, append a created item, delete an
  item by id and update the section's `itemCount`, and build the activity-log
  bodies they post. Each list change is a pure transform (`AdjustStock`,
  `SetQuantity`, `RemoveItem`, `LoadedItems`). The class
  `SectionDetailView` holds `items: seq<Item>` and the parent's `section`, and
  its methods replace them with the transformed values.
- **User store** (`auth.dfy`, module `Auth`). It models signup, signin,
  changepassword, user deletion, user listing and logout over the User
  collection. Each route is a pure step function over `Db` that returns the
  reply (status and JSON) and the new collection. The class `UserCollection`
  performs the same steps on mutable fields. Each of its state-changing methods
  is proved equal to its step function, and logout returns the constant reply.
- **Activity log** (`log_schema.dfy`, `log_controller.dfy`). The Log schema
  is a casting and validation function plus a defaulting constructor. The
  controller is an append-only store (`LogCollection`) with `createLog` and
  `getLogs`. `getLogs` returns a newest-first sorted permutation of the store.

Supporting modules: `Wrappers` (Option, Result), `Seqs` (first-match search,
as `findOne` and `Array.find` do), `Text` (JavaScript's decimal
`String(n)`, `parseInt` in base 10, and the integer subset of the `Number()`
cast Mongoose applies to a string sent to a Number path), and `Json` (request bodies).

Modelling choices:
- I/O becomes parameters. The clock reading `now` is what the store stamps as
  `createdAt`/`updatedAt`.
- A database error is `fault: Option<string>`: an error thrown by the
  handler's database call, which becomes a 500 reply carrying its message.
- Password hashing is abstracted away. `PasswordMatches` is equality between
  the stored password and the candidate.
- A JWT is an opaque `Token(userId, expiresIn)`.
- Document ids are natural numbers handed out by the store.
- The log POSTs the client makes are returned as request bodies.

Points where the model follows the code's exact behaviour:
- a bad role at signup is a 403 "Unauthorized role", not a validation error;
- a log that fails validation is a 500 carrying Mongoose's message;
- only email uniqueness is checked at signup, not username uniqueness;
- the password is overwritten as given, and any hashing happens inside the
  User model, which is not part of this model.

## Model

| member | source | states |
|---|---|---|
| `Seqs.FirstIndex` | backend/routes/auth.js:12 | the first index whose element matches, or None exactly when no element matches |
| `Text.IntToString` | client/components/section-detail.tsx:75 | the decimal text of an integer is non-empty and starts with a digit exactly when the number is non-negative |
| `Text.ParseInt` | client/components/section-detail.tsx:169 | `parseInt` yields a number exactly when a digit follows the optional sign |
| `Text.ParseExactInt` | backend/models/Log.js:13-16 | on its integer subset, a string casts to a Number exactly when it is a sign and digits throughout, and then agrees with `parseInt` |
| `Text.ParseIntOfIntToString` | client/components/section-detail.tsx:169 | reading back the text of any integer, followed by non-digit text, gives that integer |
| `Text.ParseExactIntOfIntToString` | backend/models/Log.js:13-16 | the integer Number cast reads back every integer's text |
| `LogSchema.CastString` | backend/models/Log.js:5-24 | a String path keeps strings, turns numbers into their text, and leaves null/absent as null |
| `LogSchema.CastNumber` | backend/models/Log.js:13-16 | on the integer subset of the `Number()` cast, a Number path fails to cast exactly for a non-empty string that is not a signed digit string, and the error names the path; a number casts to itself, a signed digit string to its value, and null, absent or "" to null |
| `LogSchema.RequiredString` | backend/models/Log.js:5-20 | a required path is accepted exactly when it casts to a non-empty string; otherwise a Required error on that path |
| `LogSchema.Validate` | backend/models/Log.js:3-27 | a body is accepted exactly when username, activity and createdBy are non-empty strings and count casts; the fields are the cast values, and every error names a schema path; a count that fails to cast is the first error, and every later error is a Required error; a Required error names only a required path that is actually missing, and a cast error appears only when count fails to cast |
| `LogSchema.MissingRequired` | backend/models/Log.js:5-20 | the required validators report nothing exactly when username, activity and createdBy are all present, and each error they report is a Required error on a missing required path |
| `LogSchema.ValidationErrors` | backend/models/Log.js:3-27 | the document's error list is empty exactly when count casts and no required path is missing; a failed count cast is its first entry, and every other entry is a Required error on a missing required path |
| `LogSchema.NewEntry` | backend/models/Log.js:26 | a saved document carries the validated fields, the store's id, and createdAt = updatedAt = the clock reading |
| `LogSchema.MissingRequiredReported` | backend/models/Log.js:5-20 | a missing or empty username, activity or createdBy rejects the body with a Required error on that path |
| `LogSchema.OmittedOptionalsDefaultToNull` | backend/models/Log.js:13-24 | an omitted count or updatedBy is stored as null |
| `LogSchema.ValidateReadsOnlyLogPaths` | backend/controllers/logController.js:6-7 | two bodies that agree on the five schema keys are validated identically: no other key reaches the document |
| `LogSchema.WellTypedBodyAccepted` | backend/models/Log.js:3-25 | five well-typed fields with non-empty strings are accepted unchanged, updatedBy null |
| `LogController.CreateLogStep` | backend/controllers/logController.js:4-13 | 201 exactly when validation passes and the save does not fail; then one entry is appended and echoed with "Log created"; otherwise 500 with the error message and the store unchanged; the old entries are always a prefix of the new ones; id invariant kept |
| `LogController.AppendKeepsValid` | backend/controllers/logController.js:7-8 | appending a document that carries the next id keeps ids distinct and below the new next id |
| `LogController.InsertNewestFirst` | backend/controllers/logController.js:18 | inserting into a newest-first sequence keeps it newest first and adds exactly that entry |
| `LogController.SortNewestFirst` | backend/controllers/logController.js:18 | the result is ordered by createdAt non-increasing and is a permutation of the input |
| `LogController.GetLogsReply` | backend/controllers/logController.js:16-23 | without a fault, 200 with every stored entry newest first (a permutation of the store); with a fault, 500 with its message |
| `LogController.CreatedLogIsListed` | backend/controllers/logController.js:4-23 | an entry createLog accepted appears in the next getLogs listing |
| `LogController.LogCollection.CreateLog` | backend/controllers/logController.js:4-13 | performs CreateLogStep on the collection, keeps its invariant, and never alters or removes existing entries |
| `LogController.LogCollection.GetLogs` | backend/controllers/logController.js:16-23 | reads without changing the collection; the list is newest first and a permutation of the stored entries |
| `Auth.SignupStep` | backend/routes/auth.js:45-65 | a role other than admin/user gives 403 "Unauthorized role", and a known email gives 400 "User already exists", both leaving the store unchanged; 200 exactly otherwise (no fault), adding exactly one user and echoing the submitted username, email and role with a 7d token; keeps ids and emails unique; with an allowed role, a database fault gives 500 with its message and the store unchanged |
| `Auth.SigninReply` | backend/routes/auth.js:69-88 | 200 exactly when the email is known and the password matches, with the stored username and role of the user found and a 1d token; every other fault-free reply is 400 "Invalid credentials"; a database fault gives 500 with its message |
| `Auth.ChangePasswordStep` | backend/routes/auth.js:8-22 | an unknown email gives 404 with nothing changed; a known email always succeeds and overwrites only that user's password, with no check of the old one; a database fault gives 500 with its message and nothing changed |
| `Auth.DeleteUserStep` | backend/routes/auth.js:24-32 | an absent id gives 404 with the store unchanged; otherwise exactly that user is removed and the others keep their order; a database fault gives 500 with its message and the store unchanged |
| `Auth.RemoveAtKeepsValid` | backend/routes/auth.js:24-32 | removing the user at one position keeps the collection invariant: distinct ids and emails, ids below the next id, allowed roles |
| `Auth.ListUsersReply` | backend/routes/auth.js:35-42 | every user, in order, with the password left out |
| `Auth.FindByEmailUnique` | backend/routes/auth.js:54-55 | under the store invariant, looking up a user's email finds that user |
| `Auth.SigninFailuresIndistinguishable` | backend/routes/auth.js:74-81 | an unknown email and a wrong password give the identical reply |
| `Auth.ChangePasswordThenSignin` | backend/routes/auth.js:8-16 | for any store, after a password change the new password signs in and a different old one is refused |
| `Auth.SignupThenSignin` | backend/routes/auth.js:45-88 | a fresh signup signs in at once with its password and gets its id, username, email and role back |
| `Auth.DeletedUserNotListed` | backend/routes/auth.js:24-42 | after deleting an id, no listed user has it |
| `Auth.AliceScenario` | backend/routes/auth.js:8-88 | signup alice/pw1/admin, signin with pw1 gives role admin; after changing to pw2, pw1 is refused and pw2 signs in |
| `Auth.UserCollection.Signup` | backend/routes/auth.js:45-65 | performs SignupStep on the collection and keeps its invariant |
| `Auth.UserCollection.Signin` | backend/routes/auth.js:69-88 | reads without changing the collection; the reply is SigninReply, so every fault-free failure is "Invalid credentials" |
| `Auth.UserCollection.ChangePassword` | backend/routes/auth.js:8-22 | performs ChangePasswordStep on the collection and keeps its invariant |
| `Auth.UserCollection.DeleteUser` | backend/routes/auth.js:24-32 | performs DeleteUserStep on the collection and keeps its invariant |
| `Auth.UserCollection.ListUsers` | backend/routes/auth.js:35-42 | reads without changing the collection; each listed user is the stored one without its password |
| `Auth.UserCollection.Logout` | backend/routes/auth.js:91-94 | the constant 200 logout reply; declares no modifies, so no state changes |
| `SectionDetail.LoadedItems` | client/components/section-detail.tsx:51 | every fetched item keeps its server fields and starts with quantity 1 |
| `SectionDetail.AdjustStock` | client/components/section-detail.tsx:58-99 | items with another id are unchanged and length and order are kept; each matching item gets availableCount = max(0, old + multiplier × quantity) (never negative) and quantity 1, with id and name unchanged |
| `SectionDetail.ParseQuantity` | client/components/section-detail.tsx:169-170 | the parsed value when it is a non-negative number, 0 when it is NaN or negative; never negative |
| `SectionDetail.SetQuantity` | client/components/section-detail.tsx:172-176 | matching items get the new quantity with the other fields unchanged; every other item and the length are unchanged |
| `SectionDetail.RemoveItem` | client/components/section-detail.tsx:152 | no item with the id remains and the list does not grow |
| `SectionDetail.RemoveItemMembers` | client/components/section-detail.tsx:152 | an item is in the result exactly when it was in the list and has a different id |
| `SectionDetail.SessionUsername` | client/components/section-detail.tsx:43-45 | the stored username when non-empty, otherwise "unknown"; never empty |
| `SectionDetail.StockActivity` | client/components/section-detail.tsx:72-87 | the update's activity text is non-empty, as the log schema requires |
| `SectionDetail.AddActivity` | client/components/section-detail.tsx:139 | the add activity text is non-empty |
| `SectionDetail.DeleteActivity` | client/components/section-detail.tsx:148-159 | the delete activity text is non-empty and names "undefined" when no item has the id |
| `SectionDetail.DeleteSectionActivity` | client/components/section-detail.tsx:114 | the section-delete activity text is non-empty |
| `SectionDetail.ActivityBody` | client/components/section-detail.tsx:73-79 | with a non-empty username and activity, the log schema accepts the body and stores exactly username, activity, count, createdBy = username and updatedBy null |
| `SectionDetail.StockLogs` | client/components/section-detail.tsx:63-90 | one log body per item with the id, in list order; the k-th is the activity body for the k-th such item, naming its stock change and carrying its quantity as count; none exactly when no item matches; each accepted by the log schema |
| `SectionDetail.ItemsWithId` | client/components/section-detail.tsx:72-87 | the items the mapping visits: only items with that id, no more than the list holds, and none exactly when the id is absent |
| `SectionDetail.ItemsWithIdMembers` | client/components/section-detail.tsx:72-87 | an item is selected exactly when it is in the list and carries the id, so every matching item is visited |
| `SectionDetail.ItemsWithIdAppend` | client/components/section-detail.tsx:72-87 | selection distributes over concatenation, so the matching items keep their list order and a repeated id is selected once per occurrence |
| `SectionDetail.StockLogsAppend` | client/components/section-detail.tsx:58-90 | the logs of a list are the logs of its first part followed by the logs of the rest: one body per matching item, in list order, for any ids |
| `SectionDetail.NoItemsWithAbsentId` | client/components/section-detail.tsx:72-87 | an id no item carries yields no matches |
| `SectionDetail.ItemsWithUniqueId` | client/components/section-detail.tsx:72-87 | with distinct ids, exactly one item matches the id at a given position: that item |
| `SectionDetail.StockLogOfUniqueItem` | client/components/section-detail.tsx:63-90 | with distinct ids, a stock change posts exactly one log, which validates to that item's activity text, its quantity as count, and the session user as author |
| `SectionDetail.StockActivityStatesQuantity` | client/components/section-detail.tsx:72-87 | the text starts "removed " for −1 and "added " for +1, and the number after it reads back as the quantity sent as count |
| `SectionDetail.TypedQuantityRead` | client/components/section-detail.tsx:169-170 | typing a non-negative number (optionally followed by non-digits) sets exactly that quantity |
| `SectionDetail.RemoveItemKeepsQuantities` | client/components/section-detail.tsx:152 | deleting keeps every remaining quantity input non-negative |
| `SectionDetail.RemoveItemAppend` | client/components/section-detail.tsx:152 | removal distributes over concatenation, so the remaining items keep their order |
| `SectionDetail.RemoveAbsentItem` | client/components/section-detail.tsx:152 | removing an id no item has leaves the list unchanged |
| `SectionDetail.RemoveUniqueItem` | client/components/section-detail.tsx:152 | with distinct ids, deleting removes exactly the one item and keeps the rest in order |
| `SectionDetail.SectionDetailView.Load` | client/components/section-detail.tsx:47-55 | the view's items become the fetched items with quantity 1 |
| `SectionDetail.SectionDetailView.UpdateQuantity` | client/components/section-detail.tsx:57-102 | items become AdjustStock of the old items, the log bodies are built from the items before the change, and every quantity stays non-negative |
| `SectionDetail.SectionDetailView.HandleQuantityChange` | client/components/section-detail.tsx:168-177 | items become SetQuantity with the parsed quantity; every quantity stays non-negative |
| `SectionDetail.SectionDetailView.HandleAddItem` | client/components/section-detail.tsx:123-145 | exactly one item with quantity 1 is appended at the end, itemCount becomes old length + 1, and the "added … into …" body is posted |
| `SectionDetail.SectionDetailView.DeleteItem` | client/components/section-detail.tsx:147-165 | items become RemoveItem of the old items, itemCount becomes the new length, and the "deleted … from …" body is posted |
| `SectionDetail.SectionDetailView.DeleteSection` | client/components/section-detail.tsx:105-121 | reports the section's id to the parent and posts a log body the schema accepts with count 0 |

## Left out

- Rendering, styling, the add-item dialog and the `confirm` prompt are not modelled. They are UI, not logic.
- HTTP transport is not modelled. The item PUT/POST/DELETE calls and the log POSTs are either left out or returned as request bodies. `handleAddItem` and `deleteItem` are modelled as their success continuations.
- `updateQuantity` updates the list optimistically whatever the PUT returns. Its log bodies are the ones posted once each PUT succeeds, and the order of those network calls is not modelled.
- The handlers read `items` from a render-time closure. The model assumes no other state change happens between the call and its callback, so stale closures are not modelled.
- Dashboard counting, the logs and employees pages, the employees route, login/logout storage flags and the role context are not part of this model. They are UI glue or wiring.
- The section/item backend and the low-stock logic are not part of this model, because their source is not available.
- JWT signing, the secret and expiry checking are not modelled. A token is the user id plus the literal expiry.
- Password hashing and `comparePassword` belong to the User model, which is not part of this model. They are abstracted as equality of stored and candidate passwords.
- The User model's own schema validation and unique indexes are not modelled.
- Missing or non-string auth request fields are not modelled. For example, an undefined email makes `findOne({})` match any user; the model takes every auth field as a string.
- A malformed `:id` makes Mongoose raise a cast error and reply 500. The model takes ids as natural numbers, so this case is absent.
- The model has one `fault` per handler, raised by its database access. It does not say which call failed; every database-call failure gives the same reply.
- `SectionDetail.ParseQuantity`: `parseInt` leading-whitespace trimming, the `0x` hexadecimal prefix, and precision loss on very long digit strings are not modelled.
- `Text.IntToString`: covers integral numbers only. It does not model non-integers or the exponent form JavaScript uses at 1e21 and above.
- `LogSchema.Validate`: JSON values are limited to null, strings and integers. It does not model Mongoose's casting of booleans, arrays and objects, or numeric strings with whitespace, decimals, exponents, `0x`/`0b`/`0o` prefixes or `Infinity`; such strings are cast errors in the model. The `__v` version key is not modelled.
- `LogSchema.ValidationMessage` gives Mongoose's message shape for required-path and Number cast errors. The errors are listed with the count cast error first (it is recorded when the document is built) and the required-path errors after it in schema order; Mongoose's exact key order is taken to be that. The BSON type wording of the cast message is fixed to "string".
- `LogController.SortNewestFirst`: MongoDB does not fix the order of entries with the same `createdAt`. The model keeps them in stored order, which is one of the allowed outputs.
- `Auth.ListUsersReply`: the model takes `find()` natural order to be insertion order, and it does not model the timestamp and version keys the projection would also return.
