# Account records of a user/admin CRUD backend, in Dafny

This project models the logic of a small Express and mongoose backend. The backend keeps two account collections, users and admins. The model covers five parts:

- **The account store.** It has the statics `login`, `register`, `update…ById`, `updatePasswordByOTP`, `updatePasswordByEmail` and `delete…ById`, and the schema they write through: required fields, defaults, and the e-mail regular expression.
- **The user controller.** It builds the update payload and maps each store result to a status code and message.
- **The DTO projections** sent back to clients.
- **The `authorizeAdmin` middleware.**
- **The two rate-limit handlers.**

Both collections share one model, `Accounts.AccountStore`. The account kind is a constant of the store (`Schema.Kind`: `User` or `Admin`). Every message is chosen by kind, word for word as each model file writes it. The admin schema has no `coverImage` path: admin records hold `None` there, and an update of that path is dropped.

How the store is stated:

- **Specification.** Each operation is first written as a function on a table of records: `Accounts.LoginOutcome`, `RegisterStep`, `UpdateStep`, `ResetByOtpStep`, `ChangePasswordStep` and `DeleteStep`. Their contracts give the error cases, the frame ("nothing else changes"), and that e-mail uniqueness is preserved.
- **Implementation.** The class keeps the documents (`table`), the unique index on `email` (`emailIndex`) and the next identifier to assign. Each method is proved to return the function's result and to leave the function's table. Its invariant, `Valid()`, ties the index to the table, which makes e-mails unique.
- **Lemmas.** They relate several operations: registering then logging in, registering twice, deleting twice, and logging in after a password change.

Collaborators the code calls but that are not shown are parameters of the model:

- Hashing, compare and token signing are the three functions of a `Schema.Crypto` value that the store holds. bcrypt's fresh salt is a `salt` argument.
- A stored password has type `Schema.Digest`, apart from `string`, so a plaintext cannot stand in for a hash by accident. That every stored password is the hasher's output is stated operation by operation: by `Accounts.RegisterStep`, `Accounts.ResetByOtpStep` and `Accounts.ChangePasswordStep`, and for updates by `UserController.UpdateDataHashesPassword`.
- The one-time-code check is its reported error, `otpError`.
- `ObjectId.isValid` is a boolean, `idWellFormed`.
- The upload collaborator is the list of URLs it returned.
- Token verification and the admin lookup are functions passed to `AuthorizeAdmin.Decide`.
- The `Timekoto` clock is a `now` argument. The rate-limit clock and reset time are arguments too.
- Identifiers are natural numbers handed out in sequence. They stand in for ObjectIds.

Behaviour of the code worth knowing. The model follows the code:

- `updateUserById` responds 200 "User updated successfully" even when the store found no record. The store's `{ error }` object is then the response data.
- `updateUserById`, `getOneUser` and `updatePasswordByEmail` return the whole stored document, so the password hash is sent to the client.
- The account e-mail is not immutable. The update payload may name `email`. Only the unique index stops it from taking another record's address, and the format check does not run on updates.
- Registering a taken e-mail, and giving a wrong password, both answer 401. No separate status is used for them.
- An empty `Authorization` header is falsy, so `authHeader && …` evaluates to the empty string. That is not `null`, so the empty token is sent to verification and the outcome is 403, not 401. Only a missing header, or a non-empty one without a space, gets 401 "Unauthorized Access!".

## Model

| member | source | states |
|---|---|---|
| `EmailFormat.ValidEmailIffRegexMatches` | src/models/UserModel.js:19-22 | The validator accepts a string iff `/\S+@\S+\.\S+/` matches somewhere in it: a non-empty run of non-space, `@`, a non-empty run, `.`, a non-empty run. The match is unanchored. `\S` is the complement of JavaScript's `\s`. |
| `EmailFormat.IsValidEmail` | src/models/UserModel.js:21 | The validator as a decision: an `@` with a non-space character before it, then a `.` after a non-empty run of non-space characters and with a non-space character after it. Its contract: an accepted string has at least five characters, an `@` and a `.`. |
| `EmailFormat.AcceptedExamples` | src/models/UserModel.js:21 | Accepted: "a@x.com"; a sentence with an address inside it (unanchored); "a@b@c.d" (`\S` matches `@`). |
| `EmailFormat.RefusedExamples` | src/models/UserModel.js:21 | Refused: "a@b" (no dot), "@b.c" (nothing before `@`), "a@ b.c" (space after `@`). |
| `Schema.ValidationErrors` | src/models/UserModel.js:13-33 | `save` reports no validation error iff `name` is non-empty and `email` passes the e-mail check (an empty e-mail is missing). There are at most two errors, one per path. |
| `Schema.NewAccount` | src/models/UserModel.js:85 | `new this({ name, email, password })` with the schema defaults of UserModel.js:34-47: the given fields, the placeholder display image, a placeholder cover image for users only, and `now` as the creation time. The new record has its schema's paths. |
| `Schema.ApplySet` | src/models/UserModel.js:101-107 | `$set` keeps the record's id. A record that has its schema's paths still has them afterwards: a user keeps a cover image, an admin never gets one. |
| `Schema.Spread` | src/controllers/UserController.js:93-112 | The object spread `{ ...a, ...b }`: a path `b` names takes `b`'s value, every other path keeps `a`'s. The empty patch is an identity on both sides. |
| `Schema.ApplyNoChanges` | src/models/UserModel.js:103-107 | A `$set` that names no path leaves the record as it was. |
| `Schema.ApplySetIdempotent` | src/models/UserModel.js:103-107 | The same `$set` applied twice gives the same record as applying it once. |
| `Schema.ApplySetSpread` | src/models/UserModel.js:103-107 | Two successive `$set`s equal one `$set` of the object spread of their patches. |
| `Schema.ApplyPasswordOnly` | src/models/UserModel.js:136-140 | `$set: { password }` changes the password and no other field. |
| `Schema.AdminHasNoCoverImage` | src/models/AdminModel.js:13-44 | A new admin gets the placeholder display image and no cover image. No update gives an admin a cover image. |
| `UserDto.SessionDTOsCarryExactly` | src/dtos/UserDTO.js:3-19 | The login and register projections are the record's id, name and e-mail copied unchanged, plus the given token. Two records give equal projections iff they agree on those three fields, so nothing of the password hash is carried. |
| `UserDto.NewUserLoginDTO` | src/dtos/UserDTO.js:3-10 | The login projection: id, name, e-mail and token. Its contract is stated by `UserDto.SessionDTOsCarryExactly`. |
| `UserDto.NewUserRegisterDTO` | src/dtos/UserDTO.js:12-19 | The register projection: id, name, e-mail and token. Its contract is stated by `UserDto.SessionDTOsCarryExactly`. |
| `UserDto.NewUserFetchDTO` | src/dtos/UserDTO.js:21-27 | The fetch projection: id, name and e-mail. Its contract is stated by `UserDto.PublicDTOsCarryExactly`. |
| `UserDto.NewUserUpdateDTO` | src/dtos/UserDTO.js:29-34 | The update projection: name and e-mail. Its contract is stated by `UserDto.UpdateDTOCarriesExactly`. |
| `UserDto.NewUserDeleteDTO` | src/dtos/UserDTO.js:36-42 | The delete projection: id, name and e-mail. Its contract is stated by `UserDto.PublicDTOsCarryExactly`. |
| `UserDto.PublicDTOsCarryExactly` | src/dtos/UserDTO.js:21-42 | The fetch and delete projections are the record's id, name and e-mail copied unchanged. Two records give equal projections iff they agree on those three fields. |
| `UserDto.UpdateDTOCarriesExactly` | src/dtos/UserDTO.js:29-34 | The update projection is the given name and e-mail. |
| `Accounts.LoginOutcome` | src/models/UserModel.js:51-70 | "User not found" exactly when no record has the e-mail. "Invalid password" when the record's hash does not match. Otherwise success: the login projection of that record (id, name, e-mail) with a token signed for the e-mail. The table is never an output. |
| `Accounts.RegisterStep` | src/models/UserModel.js:73-98 | A taken e-mail gives "User already exists" and an unchanged table. Success iff the e-mail is free and validation passes. Success adds exactly one record under the fresh id: given e-mail and name, `hash(password)` as password, placeholder images, `now` as creation time. It returns that record's projection with a token for the e-mail. Uniqueness and schema shape are preserved, and every failure leaves the table unchanged. |
| `Accounts.UpdateStep` | src/models/UserModel.js:101-117 | A missing id gives "Failed to update user". A new e-mail held by another record is refused by the unique index. Otherwise exactly that record takes the `$set` and is returned. Other records are untouched. Uniqueness is preserved, and failures change nothing. |
| `Accounts.ResetByOtpStep` | src/models/UserModel.js:120-150 | An error from the OTP check is returned as is, with the table unchanged. With no record for the e-mail: "No modifications were made". Otherwise only that record's password becomes `hash(newPassword)`. |
| `Accounts.SetPassword` | src/models/UserModel.js:136-140 | `findOneAndUpdate({ email }, { $set: { password } }, { new: true })` on a record that exists: exactly the record with the e-mail has its password replaced, and that updated record is returned. Also src/models/UserModel.js:173-177. |
| `Accounts.ChangePasswordStep` | src/models/UserModel.js:153-183 | "User not found", or "Invalid password" when the old password does not match; the table is unchanged in both. Otherwise only that record's password becomes `hash(newPassword)`. |
| `Accounts.DeleteStep` | src/models/UserModel.js:185-197 | The table loses exactly `id`. Success, with "User deleted successfully with id: " followed by the id, iff the record existed. Otherwise "No user found to delete with this id: " followed by the id. |
| `Accounts.RegisterThenLogin` | src/models/UserModel.js:51-98 | Registering and then logging in with the same credentials returns the new record's id, name and e-mail with a token for the e-mail, assuming compare accepts a hash's own password. |
| `Accounts.RegisterTwice` | src/models/UserModel.js:73-79 | A second registration with the same e-mail fails with "… already exists". The table still has only the first record for that e-mail. |
| `Accounts.DeleteTwice` | src/models/UserModel.js:185-197 | Deleting the same id a second time always reports that nothing was deleted. |
| `Accounts.LoginAfterPasswordChange` | src/models/UserModel.js:153-183 | After a successful password change, the new password logs in and the old one gets "Invalid password". |
| `Accounts.AdminFailureTexts` | src/models/AdminModel.js:47-193 | The admin store's failures carry the admin texts: "Admin not found", "Invalid password", "Admin already exists", "Failed to update admin", "No modifications were made", "No admin found to delete with this id: …". Its delete success is "Admin deleted successfully with id: …". |
| `Accounts.AccountStore.Valid` | src/models/UserModel.js:14-17 | The store invariant: the e-mail index agrees with the documents. It implies unique e-mails, records under their own ids with their schema's paths, and a fresh next id. |
| `Accounts.InsertKeepsIndex` | src/models/UserModel.js:85-88 | Saving a new record with a fresh e-mail under the next id keeps the store invariant: the index still agrees with the documents both ways, and the next id is still fresh. |
| `Accounts.AccountStore.IndexFinds` | src/models/UserModel.js:53 | The unique index answers `findOne({ email })`. An e-mail is indexed iff some record has it, and the index gives that record. |
| `Accounts.AccountStore.Login` | src/models/UserModel.js:51-70 | Returns `LoginOutcome` of the current table and changes nothing. For the admin kind: src/models/AdminModel.js:47-66. |
| `Accounts.AccountStore.Register` | src/models/UserModel.js:73-98 | Leaves the table and returns the result that `RegisterStep` gives for the next id, and keeps `Valid()`. Every failure leaves the store wholly unchanged. Admin kind: src/models/AdminModel.js:69-94. |
| `Accounts.AccountStore.FindById` | src/controllers/UserController.js:60 | `findOne({ _id })`: the record with that id if there is one. |
| `Accounts.AccountStore.UpdateById` | src/models/UserModel.js:101-117 | Agrees with `UpdateStep` and keeps `Valid()`, with the index moved to the new e-mail. Admin kind: src/models/AdminModel.js:97-113. |
| `Accounts.AccountStore.UpdatePasswordByOTP` | src/models/UserModel.js:120-150 | Agrees with `ResetByOtpStep`. Failures leave the store unchanged. Admin kind: src/models/AdminModel.js:116-146. |
| `Accounts.AccountStore.SetPasswordOf` | src/models/UserModel.js:136-140 | Agrees with `SetPassword` through the e-mail index, and keeps `Valid()`. Also src/models/UserModel.js:173-177. |
| `Accounts.AccountStore.UpdatePasswordByEmail` | src/models/UserModel.js:153-183 | Agrees with `ChangePasswordStep`. Failures leave the store unchanged. Admin kind: src/models/AdminModel.js:149-179. |
| `Accounts.AccountStore.DeleteById` | src/models/UserModel.js:185-197 | Agrees with `DeleteStep`, chooses its report by the deleted count, and keeps the index in step. Admin kind: src/models/AdminModel.js:181-193. |
| `ObjectIds.ValidObjectId` | src/services/validationHandlers/HandleObjectIdValidation.js:4-12 | The intended check: never throws, and answers whether the id is well formed. |
| `ObjectIds.AsWrittenThrowsOnMalformedId` | src/services/validationHandlers/HandleObjectIdValidation.js:7 | As written, the check throws on every malformed id because `userId` is undeclared. On well-formed ids it agrees with the intended check. |
| `UserController.BuildUpdateData` | src/controllers/UserController.js:80-113 | The successive merges give the per-path precedence `UpdateData` defines: data fields (merged last) beat upload URLs; the display image is the single upload's first URL and the cover image the multiple upload's, each only when those files came; the password only as a hash; absent data counts as `{}`. |
| `UserController.UpdateData` | src/controllers/UserController.js:80-113 | The update payload path by path, the reference that `BuildUpdateData` is proved against: a data path wins; otherwise the display image is the single upload's first URL and the cover image the multiple upload's; a password only as the hash of a truthy plaintext. |
| `UserController.UpdateDataHashesPassword` | src/controllers/UserController.js:82-109 | The update carries a password iff the data's password is present and non-empty, and then only as its hash. |
| `UserController.LoginUser` | src/controllers/UserController.js:14-28 | Unknown e-mail: 404 "User not found". Wrong password: 401 "Invalid password". Otherwise 200 with the record's projection and a token for the e-mail. |
| `UserController.RegisterUser` | src/controllers/UserController.js:30-39 | Any store error is 401 with its text. Success is 201 with the projection. The table is the one `RegisterStep` leaves. |
| `UserController.GetOneUser` | src/controllers/UserController.js:52-71 | Malformed id: 400 (with the corrected check, see Findings), read before the store. Missing record: 404 "User not found". Otherwise 200 with the stored record. |
| `UserController.UpdateUserById` | src/controllers/UserController.js:73-125 | Malformed id: 400 (with the corrected check, see Findings) with the store unchanged. Otherwise the store applies `UpdateStep` to `UpdateData`, and the reply is 200 "User updated successfully" whose data is the store's result, error included. |
| `UserController.UpdateUserPasswordByOTP` | src/controllers/UserController.js:150-165 | A store error is 401 with its text. Success is 200 "Password updated successfully". The table follows `ResetByOtpStep`. |
| `UserController.UpdateUserPasswordByOldPassword` | src/controllers/UserController.js:168-184 | A store error is 401 with its text. Success is 200 with the updated record. The table follows `ChangePasswordStep`. |
| `UserController.DeleteUserById` | src/controllers/UserController.js:187-203 | Malformed id: 400 (with the corrected check, see Findings) with the store unchanged. Otherwise the id is removed: 200 with the deleted message if it existed, else 404 "No user found to delete with this id: …". |
| `AuthorizeAdmin.NoTokenIff` | src/middlewares/AuthorizeAdmin.js:8-9 | There is no token iff the header is missing, or non-empty and without a space. An empty header yields the empty token. |
| `AuthorizeAdmin.TokenOf` | src/middlewares/AuthorizeAdmin.js:8-9 | `authHeader && authHeader.split(" ")[1]`: a token only when there is a header; the token never contains a space; an empty header gives the empty token. |
| `AuthorizeAdmin.TokenIsSecondWord` | src/middlewares/AuthorizeAdmin.js:9 | In a header "scheme token…", the token is the text after the first space, up to the next space or the end. "Bearer " yields the empty token, not a missing one. |
| `AuthorizeAdmin.NoTokenNoVerification` | src/middlewares/AuthorizeAdmin.js:11-13 | Without a token the decision is 401 "Unauthorized Access!", whatever verification and lookup would say. |
| `AuthorizeAdmin.BearerDecision` | src/middlewares/AuthorizeAdmin.js:8-30 | For "Bearer t": the request passes iff t verifies and the claims find an admin. Verification failure is 403 "Invalid token". A missing admin is 401. A pass sets `req.auth` to the admin with role "admin". |
| `AuthorizeAdmin.Decide` | src/middlewares/AuthorizeAdmin.js:8-30 | For any header: no token gives 401 "Unauthorized Access!". A token that fails to verify gives 403 "Invalid token", and so does an admin query that throws, since it runs inside the `try`. Verified claims that find no admin give 401 "No valid admin exists with the given token!". The request passes iff the token verifies and its claims find an admin; `req.auth` is then that admin with role "admin". |
| `AuthorizeAdmin.Authorize` | src/middlewares/AuthorizeAdmin.js:7-31 | A rejection sends its reply and leaves `next` uncalled and `req.auth` unset. A pass sets `req.auth`, sends nothing, and calls `next` exactly once. |
| `RateLimiters.LimiterSettings` | src/middlewares/RateLimiters.js:4-7 | Login: 50 requests per 60000 ms. Registration: 50 per 3600000 ms. |
| `RateLimiters.RetryAfterSeconds` | src/middlewares/RateLimiters.js:15-17 | The ceiling of (reset − now) / 1000 on whole milliseconds: the least whole number of seconds covering the wait. |
| `RateLimiters.LoginReplyQuotesWait` | src/middlewares/RateLimiters.js:14-22 | Status 429, Retry-After is the ceiling above, and the message always reads "…later in N seconds", where N reads back as the Retry-After value. |
| `RateLimiters.LoginLimitReply` | src/middlewares/RateLimiters.js:14-22 | The login handler's reply: 429, `Retry-After` set to `RetryAfterSeconds`, and the message quoting it. Its contract is stated by `RateLimiters.LoginReplyQuotesWait`. |
| `RateLimiters.RegisterLimitReply` | src/middlewares/RateLimiters.js:31-41 | The registration handler's reply: 429, the same `Retry-After`, and the message quoting it only when it is positive. Its contract is stated by `RateLimiters.RegisterReplyQuotesPositiveWait`. |
| `RateLimiters.RegisterReplyQuotesPositiveWait` | src/middlewares/RateLimiters.js:31-41 | Status 429 with the same Retry-After. The message ends at "later" iff N ≤ 0. Otherwise it continues " in N seconds", where N reads back as the Retry-After value. |
| `Text.IntToStringReadsBack` | src/middlewares/RateLimiters.js:20 | A whole number printed in a template literal reads back as the same number. |
| `Text.Split` | src/middlewares/AuthorizeAdmin.js:9 | `split(" ")` yields at least one piece, and no piece contains the separator. |
| `Text.JoinSplit` | src/middlewares/AuthorizeAdmin.js:9 | Joining the pieces of `split` with the separator gives back the string. |

## Left out

- The one-time-code service (`sendOTP`, `validateOTP`) is not part of this model. The store receives `validateOTP`'s verdict as `otpError` (`Some` of its error text when that text is truthy). Whatever the check itself changes is not modelled.
- `getAllUsers`, `sendPasswordResetOTP` and `validatePasswordResetOTP` are not modelled. They are a plain listing query and thin calls into the OTP service.
- The `catch` branches of the statics turn an exception into `{ error: message }`. Only the exceptions whose cause is in the model are represented: schema validation failing on `save`, and the unique index refusing an update. Other causes are not: a database that is down, bcrypt throwing on a missing password, the signer failing, or a cast error on an id.
- The texts of mongoose's validation error and of the driver's duplicate-key error belong to those libraries. The model renders them with fixed templates, errors in schema order.
- Request fields are typed. E-mails, names and passwords are strings, and the update payload's paths are those of the schema. Mongoose's casting of other JSON types, keys outside the schema (dropped in strict mode) and an `_id` in the payload are not represented. So is `findOne({ email: undefined })`, which matches any record.
- Concurrency is not modelled. The model is sequential: the race between `register`'s existence check and its insert cannot occur, and the `updatePasswordByEmail` update always finds its record.
- `UserController.UpdateUserById` requires every present upload field to come with at least one URL. The upload collaborator returns one URL per uploaded file. Its failure, and the storage it writes to, are not modelled.
- JWT contents, secret and expiry are not modelled. Tokens are the result of `Crypto.sign` on the e-mail. `authorizeAdmin`'s verification and admin query are abstract functions, so the model does not claim which admin (if any) a token's claims select.
- `src/dtos/AdminDTO.js` is not part of this model. The admin store returns the same projections as the user store.
- ObjectIds are modelled as sequential natural numbers. Mongoose's `Timekoto` default is the `now` argument.
- `express-rate-limit`'s counting and windows are not modelled. Only the handlers' arithmetic and messages are, with `Retry-After` as a number.
- `authorizeAdmin` sets `req.auth = { ...admin, role: "admin" }` on a mongoose document. An object spread copies only the document's own properties, not the schema paths, which are getters on its prototype. So in the source `req.auth.email` and the other paths are most likely undefined. This was not executed. The model records the admin's record in `Auth` and does not capture that loss.
- Schema.ValidationErrors: does not model the `password` required check. The value checked is the hasher's output, which the model leaves abstract.
- `asyncHandler`, `sendResponse`, Winston logging, the route table and server start-up are wiring and are not modelled.

## Findings

| source | as written | input that shows it | evidently intended | confidence | as-written member | corrected member |
|---|---|---|---|---|---|---|
| src/services/validationHandlers/HandleObjectIdValidation.js:7 | The invalid branch logs `userId`, which the module never declares, so the branch throws a ReferenceError before `return false`. | Any malformed id, e.g. "abc". `GET /find/abc` never reaches the 400 "Invalid ObjectId" reply. | Log the `id` parameter and return `false`, so the handlers answer 400. | high (reading of the code; not executed) | `ObjectIds.ValidObjectIdAsWritten` (shown by `ObjectIds.AsWrittenThrowsOnMalformedId`) | `ObjectIds.ValidObjectId`, used by `UserController.GetOneUser`, `UpdateUserById` and `DeleteUserById` |
