# backend.learn in Dafny

backend.learn is the Express and Mongoose back end of a small video-sharing
service. This project models its core and proves properties of the model:

- **Accounts.** Registration, login and logout, the user document's pre-save
  hook, password check and token minting.
- **Authentication.** The `verifyJWT` middleware in front of the protected
  routes.
- **Videos.** Listing a channel, publishing, fetching, updating, deleting and
  liking a video.
- **Comments.** Reading, posting, editing and deleting comments.

Modules, leaves first:

- `Common` (`common.dfy`): record ids, optional request fields, JavaScript
  truthiness, and `Result`, the way a handler ends.
  - `Ok` is the value it answers with.
  - `Err(statusCode, message)` is the `ApiError` it throws.
  - `Crash` is any other exception, such as a TypeError.
  - The thrown messages form the `Message` type. `Text` gives each one's
    exact wording.
- `Strings` (`strings.dfy`): the string built-ins the handlers call. These
  are `trim` (ECMAScript whitespace), `toLowerCase`, and `replace` with a
  string pattern, which replaces the first occurrence only.
- `Crypto` (`crypto.dfy`): bcrypt and jsonwebtoken as four abstract
  functions (`hash`, `compare`, `sign`, `verify`). It also holds the
  secrets and expiries read from the environment.
- `UserModel` (`user_model.dfy`): the user document and its public
  projection, the pre-save hook, `isPasswordCorrect`, and the two token
  generators.
- `Store` (`store.dfy`): the database as one object, `Db`.
  - It holds three collections, users, videos and comments, as maps from
    ids to documents.
  - Handlers update them in place.
  - An id counter stands for ObjectId generation.
  - `Db.Valid` states that ids are never reused and that no video's likes
    list names a user twice.
- `Auth` (`auth.dfy`): token extraction, verification and the account
  lookup, as a pure function of the users collection and the request.
- `Users` (`users.dfy`), `Videos` (`videos.dfy`) and `Comments`
  (`comments.dfy`): one method per route handler, over `Db`.
  - Request fields are parameters, and a missing field is `None`.
  - The authenticated user, `req.user._id`, is a parameter `user`.
  - The answers of the media host (Cloudinary) to an upload are parameters,
    `None` when the upload failed.
  - Where the checks before a write are long, they are a pure function,
    such as `CheckRegistration` or `CheckUpload`. The method's contract
    says the store is untouched unless that function answers `Ok`.

`findOne` is modelled as a choice of any matching document. Each handler's
contract therefore holds whichever match the database returns.

## Model

| member | source | states |
|---|---|---|
| Strings.TrimStart | src/controllers/users.controller.js:40 | the result is a suffix of the input, everything dropped is whitespace, and it does not start with whitespace |
| Strings.TrimEnd | src/controllers/users.controller.js:40 | the result is a prefix of the input, everything dropped is whitespace, and it does not end with whitespace |
| Strings.Trim | src/controllers/users.controller.js:40 | `trim()` is `TrimEnd` after `TrimStart`: its result is no longer than the input and neither starts nor ends with whitespace; `TrimEmptyIff` states when it is empty |
| Strings.TrimEmptyIff | src/controllers/users.controller.js:40 | `field.trim() === ''` exactly when every character of the field is whitespace |
| Strings.ToLower | src/controllers/users.controller.js:65-66 | `toLowerCase` keeps the length, lowers each character, and leaves no capital letter |
| Strings.ToLowerIdempotent | src/controllers/users.controller.js:65-66 | lowering an already lowered user name or email changes nothing |
| Strings.IndexOf | src/middlewares/auth.middleware.js:11 | the position found is an occurrence with none before it; None means the pattern occurs nowhere |
| Strings.ReplaceFirst | src/middlewares/auth.middleware.js:11 | `String.prototype.replace` with a string pattern, defined from `IndexOf`; what it does is stated by `ReplaceFirstAbsent`, `ReplaceFirstAt` and `ReplaceFirstPrefix` |
| Strings.ReplaceFirstAbsent | src/middlewares/auth.middleware.js:11 | `replace` leaves a string without the pattern unchanged |
| Strings.ReplaceFirstAt | src/middlewares/auth.middleware.js:11 | `replace` substitutes the first occurrence and only it |
| Strings.ReplaceFirstPrefix | src/middlewares/auth.middleware.js:11 | a string starting with the pattern loses exactly that prefix |
| UserModel.Project | src/controllers/users.controller.js:113 | the document `select('-password -refreshToken')` returns (also src/middlewares/auth.middleware.js:20); `ProjectHidesSecrets` states that it drops exactly the password and the refresh token |
| UserModel.ProjectHidesSecrets | src/controllers/users.controller.js:113 | `select('-password -refreshToken')` hides exactly those two fields: two accounts project equal iff they agree on every other field |
| UserModel.PreSave | src/models/user.model.js:53-57 | the hook changes at most the password; it rehashes it only when the password was modified and otherwise leaves the document as it is |
| UserModel.IsPasswordCorrect | src/models/user.model.js:60-62 | `isPasswordCorrect`: the bcrypt comparison of the plain password with the stored hash; `PasswordCheckSurvivesTokenSave` states that saving a refresh token never changes its answer |
| UserModel.PasswordCheckSurvivesTokenSave | src/models/user.model.js:53-62 | storing a refresh token never changes what `isPasswordCorrect` answers |
| UserModel.GenerateAccessToken | src/models/user.model.js:65-78 | `generateAccessToken`: signs the account's `_id`, `username`, `email` and `fullName` with the access secret and expiry; `TokenKeysAreSeparate` and `RefreshPayloadCarriesOnlyId` state which key and which fields it uses |
| UserModel.GenerateRefreshToken | src/models/user.model.js:81-91 | `generateRefreshToken`: signs the `_id` alone with the refresh secret and expiry; `TokenKeysAreSeparate` and `RefreshPayloadCarriesOnlyId` state that it reads no other account field and no access key |
| UserModel.TokenKeysAreSeparate | src/models/user.model.js:65-91 | the access token uses only the access secret and expiry; the refresh token uses only the refresh secret and expiry and reads no account field |
| UserModel.RefreshPayloadCarriesOnlyId | src/models/user.model.js:65-91 | the access payload carries `_id`, `username`, `email` and `fullName`; the refresh payload carries `_id` only |
| Auth.StripFirstBearer | src/middlewares/auth.middleware.js:11 | `replace("Bearer ", "")` cuts out the first "Bearer ", at whatever position it first occurs |
| Auth.ExtractToken | src/middlewares/auth.middleware.js:11 | a truthy cookie token wins; otherwise the header is used with its first "Bearer " cut out, wherever it stands; a header without "Bearer " passes unchanged; no header gives no token |
| Auth.BearerInsideHeader | src/middlewares/auth.middleware.js:11 | the header "xBearer t" yields the token "xt": the prefix is removed even when it does not start the header |
| Auth.Authenticate | src/middlewares/auth.middleware.js:9-29 | the `try` block: no token answers 401 "Unauthorized Request"; a token `jwt.verify` rejects throws; a verified `_id` naming no stored account answers 401 "Invalid Access Token"; it succeeds exactly when some account `AuthenticatesAs`, and then yields that account without password and refresh token |
| Auth.VerifyJWT | src/middlewares/auth.middleware.js:8-33 | every failure is the one 401 "Unauthorized Acces Token"; success happens exactly when the token verifies under the access secret and its `_id` names a stored account, and then yields that account without password and refresh token |
| Auth.AccessTokenAuthenticates | src/middlewares/auth.middleware.js:11-27 | an access token minted for a stored account and sent as "Bearer <token>" authenticates as that account |
| Auth.AuthenticationIgnoresRefreshKey | src/middlewares/auth.middleware.js:17 | the refresh secret and expiry play no part in authenticating |
| Auth.AuthenticationIgnoresSecrets | src/middlewares/auth.middleware.js:20 | changing an account's password or refresh token never changes the middleware's answer |
| Auth.RefreshTokenRefusedUnderDistinctSecrets | src/middlewares/auth.middleware.js:17 | for every codec that refuses a token verified under a secret other than the one it was signed with, and distinct access and refresh secrets, a refresh token sent as bearer token is refused with the one 401 |
| Auth.SecretCheckingCodecExists | src/middlewares/auth.middleware.js:17 | a codec that checks the secret exists, so the assumption of the lemma above can be met |
| Users.SaveRefreshToken | src/controllers/users.controller.js:13-14 | saving the token changes only that account's refresh token, which becomes the new token |
| Users.GenerateAccessAndRefreshToken | src/controllers/users.controller.js:7-20 | for a stored account it returns the two minted tokens and stores the refresh one; for an unknown id it answers 500 with the TypeError's message and writes nothing |
| Users.ScanFields | src/controllers/users.controller.js:40 | the scan passes iff every field is present and not blank; otherwise the first failing field decides, and the scan crashes iff that field is undefined |
| Users.ScanRegistrationFields | src/controllers/users.controller.js:40-42 | the registration check passes iff username, email, fullName and password are each present and not blank |
| Users.NewAccount | src/controllers/users.controller.js:64-71 | the stored user name and email are `toLowerCase` of the submitted ones, with no capital left; the password is hashed, the cover image is "" when none, and there is no refresh token |
| Users.CheckRegistration | src/controllers/users.controller.js:40-61 | the checks run in order: fields (400 or crash), duplicate (400), avatar (400); they pass iff all fields are filled, no account shares the user name or email, and the avatar upload succeeded |
| Store.Db.InsertUser | src/controllers/users.controller.js:64-72 | `User.create` stores the account under an id no account had, and changes no other account and no other collection |
| Users.RegisterUser | src/controllers/users.controller.js:23-80 | a failed check writes nothing; otherwise exactly the new account is added under a fresh id and returned without its secrets |
| Users.LoginUser | src/controllers/users.controller.js:82-134 | 500 without username and email; 400 when no account matches; 400 on a wrong password; no write on any failure; on success the matching account's stored refresh token is overwritten with the one returned |
| Users.ClearRefreshToken | src/controllers/users.controller.js:140-146 | logout removes the refresh token of that account and changes no other field and no other account |
| Users.LogoutUser | src/controllers/users.controller.js:136-163 | the store after logout is the old one with the requester's refresh token cleared |
| Users.LatestLoginWins | src/controllers/users.controller.js:110 | a second login overwrites the token stored by the first |
| Users.LogoutUndoesLogin | src/controllers/users.controller.js:140-146 | logging out after a login leaves the account as before the login, with no refresh token |
| Videos.Pull | src/controllers/video.controller.js:260 | `$pull` removes every occurrence of the user and nothing else, and keeps a duplicate-free list duplicate-free |
| Videos.AddToSet | src/controllers/video.controller.js:262 | `$addToSet` leaves a list already holding the user unchanged and otherwise appends the user at the end; existing entries keep their places, and no duplicate is created |
| Videos.ToggleLike | src/controllers/video.controller.js:257-263 | the user's membership flips, every other user is listed as often as before, and no duplicate appears |
| Videos.NoDuplicatesCount | src/controllers/video.controller.js:262 | in a duplicate-free list every user is counted at most once |
| Videos.ToggleTwiceRestores | src/controllers/video.controller.js:257-269 | toggling twice restores the same collection of likes |
| Videos.PullAbsent | src/controllers/video.controller.js:260 | pulling a user who is not in the list changes nothing |
| Videos.PullAppend | src/controllers/video.controller.js:260 | `$pull` distributes over concatenation |
| Videos.ToggleTwiceFromUnliked | src/controllers/video.controller.js:257-269 | a like followed by its withdrawal gives back the very same list |
| Videos.MergeUpdate | src/controllers/video.controller.js:208-212 | title, description and thumbnail take each truthy new value and keep the old one otherwise; nothing else changes |
| Videos.MergeUpdateIdempotent | src/controllers/video.controller.js:205-215 | sending the same update twice equals sending it once |
| Videos.MergeUpdateNothing | src/controllers/video.controller.js:209-211 | an update with no truthy value leaves the video unchanged |
| Videos.GetAllVideos | src/controllers/video.controller.js:9-86 | 400 without a user name; 404 for an unknown channel; success whenever some account has the user name, answering with exactly the videos that channel owns and `totalVideos` their number; never a crash, never a write |
| Videos.NewVideo | src/controllers/video.controller.js:105-112 | the created video has the requester as owner, the upload's duration and URLs, and no views, likes, dislikes or comments |
| Videos.CheckUpload | src/controllers/video.controller.js:91-103 | in order: title and description (400), video file (400), thumbnail (400), video upload (500), thumbnail upload (500); they pass iff all are present |
| Videos.UploadVideo | src/controllers/video.controller.js:88-122 | a failed check writes nothing; otherwise exactly one new video, owned by the requester, is added under a fresh id |
| Videos.GetVideoById | src/controllers/video.controller.js:124-177 | 400 without an id, 400 for an unknown video, both writing nothing; otherwise the video's views rise by exactly one and nothing else changes |
| Videos.CheckUpdate | src/controllers/video.controller.js:183-192 | in order: id (400), at least one field (400), existence (400), ownership (403); they pass iff the requester owns the video and sent a title or description |
| Videos.UpdateVideo | src/controllers/video.controller.js:179-224 | a failed check or thumbnail upload writes nothing; otherwise only that video's title, description and thumbnail are merged, and the handler then crashes on `.josn` |
| Videos.DeleteVideo | src/controllers/video.controller.js:226-246 | 403 for a missing video and 403 for a non-owner, writing nothing; otherwise exactly that video is removed |
| Videos.ToggleVideoLike | src/controllers/video.controller.js:248-278 | 400 without an id, 404 for an unknown video; otherwise only that video's likes are toggled, and the handler then crashes on the tagged template |
| Comments.GetComments | src/controllers/comment.controller.js:9-34 | 400 without an id, 404 for an unknown video, otherwise that video; never a crash, never a write |
| Comments.CheckPost | src/controllers/comment.controller.js:41-51 | in order: video id (400), text (400), video existence (404); they pass iff all hold |
| Comments.PostComment | src/controllers/comment.controller.js:36-73 | a failed check writes nothing; otherwise one comment with the text, the video and the author is created, and its id is appended at the end of the video's comment list |
| Comments.UpdateComment | src/controllers/comment.controller.js:75-97 | 400 without an id or text; otherwise the comment's text is replaced whoever asks, and an unknown id changes nothing |
| Comments.DeleteComment | src/controllers/comment.controller.js:99-123 | 404 for a missing comment, 403 for a non-author, both leaving it in place; otherwise exactly that comment is removed |

## Left out

- `Users.LogoutUser` and `Users.ClearRefreshToken`: model `$set: {refreshToken: undefined}`
  (src/controllers/users.controller.js:140-146) as removing the stored refresh token, which is
  what Mongoose 5 does with an undefined value in `$set`. Mongoose 6 and later strip undefined
  keys from an update, so the `$set` is empty and logout leaves the refresh token stored. No
  Mongoose version is fixed in the files modelled; the model follows the intent the logout
  handler states.

- Cryptography is abstract. bcrypt's hashing and comparison and the JWT
  signature and expiry are the four functions of `Crypto.Primitives`. The
  clock is a parameter `now`. bcrypt's random salt is a parameter `salt`.
- `bcrypt.hash` is not awaited in the pre-save hook
  (src/models/user.model.js:55). What the hook stores is whatever
  `Primitives.hash` yields. The model does not look at that value, so
  storing the pending promise rather than a digest is not visible in it.
- Mongoose schema options are not applied. These are `required`,
  `lowercase`, `trim`, `unique`, `default`, casting, and dropping fields
  the schema does not declare. A document holds what the handler writes.
  - The user schema declares a required `name` rather than `username`.
    Strict mode drops the `username` that `User.create` sends, and no
    `name` is sent, so validation rejects the document (see the
    `Users.RegisterUser` line below). The model keeps `username`, as every
    handler uses it.
  - The video schema declares no `videoFile` and declares `likes` as a
    Number, default 0 (src/models/video.model.js:34-37). The model keeps
    `videoFile` and treats `likes` as the list of user ids the handlers
    use.
- `Videos.ToggleVideoLike`: models the toggle as if `likes` were a list.
  With the schema as written, `likes` is a Number, so `video.likes.includes`
  (src/controllers/video.controller.js:257) throws before any update. In
  the running server the handler never changes the likes. The model does
  not capture this failure. Its `$pull`/`$addToSet` contract describes the
  handler without it.
- `Users.RegisterUser`: as written, `User.create`
  (src/controllers/users.controller.js:64-71) throws a ValidationError
  and stores no account. Mongoose validates before the pre-save hook. The
  required `name` (src/models/user.model.js:6-8) is never sent, and the
  required `coverImage` (src/models/user.model.js:34-37) rejects the `""`
  written when no cover image was uploaded. So every registration that
  passes the checks crashes after the uploads, with nothing stored. The
  model does not capture this failure. Its success branch, an `Ok` answer
  and the stored account with `coverImage == ""` when none was sent,
  describes the handler without it.
- `Users.RegisterUser`: the duplicate lookup compares the submitted user
  name and email as they are. The account stores them lower-cased, so
  the duplicate check is case-sensitive. The model keeps this.
  `registerUser`'s "User not created" (500) cannot happen, because the
  account was just created. The uploads of avatar and cover image are
  parameters.
- `Users.LoginUser`: which matching account `findOne` returns is left open.
  When a key is undefined, an account matches only on the key that was
  sent; how the driver treats an undefined key is not modelled.
- `Auth.VerifyJWT`: the middleware reads `req.cookie`, not `req.cookies`,
  which cookie-parser fills. The model keeps `req.cookie`, so in the
  running server the cookie is always absent.
  - The middleware imports `jsonwebtoken` while the user model imports
    `jwt`. Both are the one codec of `Crypto.Primitives`.
  - Attaching `req.user` and calling `next()` are modelled by returning
    the user.
- `Strings.ToLower`: lowers ASCII letters only. The Unicode case mapping of
  `toLowerCase` for other letters is not modelled.
- `Videos.GetVideoById`: models the handler as if its aggregation
  succeeded. It answers with the stored video and counts one view. As
  written, the `$lookup` stores the owner under `Owner`
  (src/controllers/video.controller.js:140). The `$addFields` stage then
  applies `$first` to `$owner`, which is an id and not an array
  (src/controllers/video.controller.js:155). MongoDB rejects that operand.
  So in the running server the aggregation throws for every existing
  video, before the `$inc` at src/controllers/video.controller.js:164-166,
  and no view is ever counted. The model does not capture this failure.
- `Videos.GetAllVideos`: the videos are a map from id to video, not an
  ordered array. Each video's owner, projected by `$lookup`, is given once
  as `owner`. The response's message text is not modelled.
- `Comments.GetComments`: answers with the stored video. The population of
  comments and owner and the `select('owner')` projection are not
  modelled.
- `Videos.UpdateVideo` and `Videos.ToggleVideoLike`: the store write is
  modelled. Each then ends in a TypeError: `.josn` in `updateVideo`, and
  an object literal called as a template tag in `toggleVideoLike`. What
  the client receives after that error is not modelled.
- Deleting a video leaves its comments in place, and deleting a comment
  leaves its id in the video's comment list. The model keeps both dangling
  references, as the handlers do.
- Ids that are not valid ObjectId strings are not modelled. Such ids make
  `findById` throw a cast error. An id parameter is either absent (`None`)
  or a well-formed id.
- The response envelope (`ApiResponse`), status 201 versus 200,
  cookie-setting and clearing, and console logging are not modelled.
- Concurrency between store calls is not modelled. Each handler is one
  sequential step over the store.
- These handlers are imported by src/routes/user.routes.js:2 but not
  defined in src/controllers/users.controller.js, so they are not part of
  this model:
  - `refreshAccessToken`
  - `changeCurrentPassword`
  - `getCurrentUser`
  - `updateUserAvatar`
  - `updateUserCoverImage`
  - `updateAccountDetails`
  - `deletAccount`
- Database connection, server start-up, Express and CORS setup, route
  wiring and the upload helper (src/utils/cloudinary.js) are not part of
  this model.
