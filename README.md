# Parcel manager: a Dafny model

The system is a small farm-plot manager. An Express/Sequelize backend keeps users, their profiles and
their plots in three tables (`Plot`, `User`, `Profile`). It exposes them through four routers guarded by a
JWT middleware and express-validator chains. Three browser scripts show the plots:

- `index.js`: the user's plot list, the plot dialog and the status picker;
- `dashboard.js`: a tile grid with a details panel;
- `map.js`: a Leaflet map with search and error toasts.

This project models that core in Dafny 4.11. It has one module per source file and a few shared ones:

| module | file | models |
|---|---|---|
| `Wrappers` | wrappers.dfy | `Option`, and an HTTP reply as status code plus body |
| `JsString` | jsstring.dfy | `split` on one character, `toLowerCase` (ASCII letters), `trim`, `includes`, validator.js `isInt` text and its integer |
| `Json` | json.dfy | request bodies as JSON values with JavaScript truthiness, `value \|\| existing`, destructuring-then-create (`Pick`) |
| `Columns` | columns.dfy | how a column accepts a JSON value: kinds, `CHAR(n)`/`STRING(n)` caps, the 32-bit `INTEGER` range; nullable columns |
| `PlotModel`, `UserModel`, `ProfileModel` | plot_model.dfy, user_model.dfy, profile_model.dfy | the three tables: rows, enums, defaults, required columns, length caps, the JSON of a row, and how `create`/`update` turn a body into a row |
| `Store` | store.dfy | the database as a class with three id-keyed maps; the invariants the database enforces; `findByPk` and `findOne` as the handlers use them |
| `PlotController`, `UserController`, `ProfileController`, `AuthController` | *_controller.dfy | every handler, as methods on the store, with the functions that specify them |
| `AuthMiddleware` | auth_middleware.dfy | `authMiddleware`: choosing the token, verifying it, attaching the user to the request |
| `Rules`, `PlotValidation`, `UserValidation`, `ProfileValidation` | rules.dfy, *_validation.dfy | the express-validator chains: the list of errors each chain reports for a request |
| `Routing`, `PlotRoutes`, `UserRoutes`, `ProfileRoutes`, `AuthRoutes` | routing.dfy, *_routes.dfy | each route's guard list, and when its handler runs |
| `FrontIndex`, `Dashboard`, `MapView` | frontend_index.dfy, dashboard.dfy, map_view.dfy | the pure helpers of the three scripts; their bits of module state as classes |

**Request bodies.** A request body is a `map<string, Json>`, and an absent key stands for `undefined`.

**The database.** `Store.Database` holds `users`, `profiles` and `plots` as maps from id to row, plus the
next id of each table. Its `Valid()` predicate is what the database enforces on every write:

- usernames and emails are unique among all users;
- every plot's `ownerId` names a user;
- every profile's `user_id`, when set, names a user;
- every row fits the length caps of its text columns, and every integer column lies in the 32-bit range.

The handlers keep `Valid()`. A write the database would refuse is a 500 with the handler's own message.

**Validation.** The express-validator checks are modelled as the list of `(field, message)` errors a chain
reports. No chain stops at its first failure. An `optional()` chain reports nothing for `undefined`. A custom
check that throws reports the database's own message, modelled as `Issue(field, None)`.

**Parameters, not models.** These are supplied as parameters, so no property depends on their internals:

- the password hash and compare;
- the JWT signer and verifier;
- `NODE_ENV`;
- `Date.now()`;
- `Number()`;
- the float, email and ISO-8601 tests of validator.js.

**Where the code departs from what its names and messages suggest, the model follows the code:**

- A path id that is not an integer gets "Id must be an integer" and then the database's error, not "Plot not
  found". The custom check still runs and `findByPk` throws on the text (`PlotValidation.IdErrors`).
- The plot validators require `establishmentLocation`, `establishmentLat` and `establishmentLng`. The plot
  table has none of those columns and requires `location` instead. A body that passes validation but has no
  `location` is refused by the database with 500 (`PlotValidation.ValidatedCreateWithoutLocation`).
- The front end knows seven statuses (white, violet, blue, yellow, green, gray, red). The plot table accepts
  five (blue, yellow, green, red, black). `black` has no badge in `index.js`
  (`FrontIndex.ModelStatusesWithBadges`) and no name or colour in `dashboard.js`. white, violet and gray can
  never be stored, and `map.js` draws them in the default style (`MapView.FrontOnlyStatusesUnstyled`).
- The user and profile routers attach no validation chain at all (`UserRoutes.NoValidation`,
  `ProfileRoutes.NoGuards`). The user and profile validators are modelled on their own, as written.
- `plot.routes.js` imports `getMyPlots`, which `plot.controller.js` does not define. `auth.routes.js` imports
  `myProfile` and `myPlots`, while `auth.controller.js` exports `me`. The route tables record these handlers
  as undefined (`PlotRoutes.MyPlotsRoute`, `AuthRoutes.UndefinedHandlers`). Under ES modules, a named import
  that the module does not export stops the application from loading. The model treats each router on its
  own.
- `user.controller.js` uses `ProfileModel` without importing it (see Findings). `getUserById` also asks its
  profile include for `birth_date`, which the profile table does not have (see Findings).
- `profile.model.js` declares `first_name`, `last_name` and `deleted`, and `belongsTo` adds `user_id`. The
  profile handlers also pass `biography`, `avatar_url` and `birth_date`. Sequelize's `create` and `update` drop
  keys that are not attributes, so these three are never stored (`ProfileModel.UndeclaredIgnored`,
  `ProfileController.MergedDecodes`).
- `app.js` leaves `cookie-parser` commented out, so `req.cookies` is `undefined` at run time and the
  middleware's cookie branch never fires. `AuthMiddleware` still models the cookie branch as written; a
  request with no cookie is the case that occurs.

## Model

| member | source | states |
|---|---|---|
| JsString.Split | frontend/assets/js/dashboard.js:12 | `split` yields at least one piece, and no piece holds the separator |
| JsString.JoinSplit | frontend/assets/js/dashboard.js:12 | joining the pieces of a split gives the original string back |
| JsString.SplitPrefix | backend/src/middlewares/auth.middlewares.js:16 | a separator-free prefix glues onto the first piece of what follows |
| JsString.SplitPiece | backend/src/middlewares/auth.middlewares.js:16 | a separator-free piece followed by the separator is a piece of its own |
| JsString.SplitJoin | frontend/assets/js/dashboard.js:12 | splitting a join of separator-free pieces gives the pieces back |
| JsString.StartsWithConcat | frontend/assets/js/index.js:216 | a string starts with whatever it is built from |
| JsString.LowerIdempotent | frontend/assets/js/map.js:17 | lower-casing twice is lower-casing once |
| JsString.TrimStart | frontend/assets/js/map.js:231 | drops exactly the leading white space of JavaScript's `trim` set (Unicode spaces, line terminators and the BOM included): a suffix, whose first character is not white space |
| JsString.TrimEnd | frontend/assets/js/map.js:231 | drops exactly the trailing white space of the same set: a prefix, whose last character is not white space |
| JsString.Trim | backend/src/middlewares/validations/user.validations.js:20-24 | the result is an infix of the input with only white space before and after it, and neither starts nor ends with white space |
| JsString.TrimUnique | frontend/assets/js/map.js:231 | any infix with only white space around it that neither starts nor ends with white space is the trim: the trim is unique |
| JsString.TrimIdempotent | backend/src/middlewares/validations/user.validations.js:20-24 | trimming twice is trimming once |
| JsString.ContainsEmpty | frontend/assets/js/map.js:234-235 | every string includes the empty string |
| JsString.NatText | backend/src/middlewares/validations/plot.validations.js:6-7 | the decimal text of a natural number is non-empty and all digits |
| JsString.NatTextValue | backend/src/middlewares/validations/plot.validations.js:6-7 | reading the decimal text of a natural number gives it back |
| JsString.IntTextRoundTrip | backend/src/middlewares/validations/plot.validations.js:6-7 | the text of any integer passes `isInt()` and reads back as that integer |
| Json.OrElseChoice | backend/src/controllers/user.controller.js:71-76 | `value \|\| existing` keeps the existing value exactly when the new one is absent or falsy |
| Json.Pick | backend/src/controllers/profile.controller.js:37-52 | destructuring then creating passes exactly the picked keys the body defines, with their values |
| Columns.AsInt | backend/src/models/plot.model.js:29-31 | an `INTEGER` column takes exactly an integral number within the 32-bit range, and stores that number |
| Columns.NullableRoundTrip | backend/src/models/plot.model.js:21-24 | a nullable column shows `null` for no value and reads `null` back as no value |
| PlotModel.ParseStatus | backend/src/models/plot.model.js:37-41 | a status text is accepted exactly when it is one of the five enum names, and parses to the status printing as it |
| PlotModel.StatusRoundTrip | backend/src/models/plot.model.js:37-41 | every status prints to an enum name and parses back to itself |
| PlotModel.PatchNames | backend/src/models/plot.model.js:8-69 | after `update(body)` every column the body names shows the value given and every other column is unchanged |
| PlotModel.PatchFails | backend/src/models/plot.model.js:8-69 | a body is refused exactly when some column it names rejects its value, a text over its `STRING(n)` cap or an owner id outside the 32-bit range included |
| PlotModel.NewPlotAttrs | backend/src/models/plot.model.js:8-69 | a created plot shows each named column's value and each other column's default (status "blue", deleted false, null for nullable columns) |
| PlotModel.NewPlotRequires | backend/src/models/plot.model.js:8-49 | creation succeeds exactly when the body names every `allowNull: false` column without a default |
| PlotModel.CapsKept | backend/src/models/plot.model.js:8-61 | a created or updated plot keeps name within 100, crop type within 50, damage description and pests within 255 characters, and the owner id in range |
| UserModel.RoleRoundTrip | backend/src/models/user.model.js:21-24 | each role, and no role, reads back as itself |
| UserModel.PatchNames | backend/src/models/user.model.js:7-37 | an update shows each named column as given, keeps the others, and never touches the coordinates |
| UserModel.PatchFails | backend/src/models/user.model.js:7-37 | a body is refused exactly when a named column rejects its value, a text over its `CHAR(n)` or `STRING(n)` cap included |
| UserModel.NewUserAttrs | backend/src/models/user.model.js:7-37 | a created user shows each named column as given and the defaults elsewhere (role "user", not deleted, no coordinates) |
| UserModel.NewUserRequires | backend/src/models/user.model.js:7-20 | for a body every named column accepts, creation succeeds exactly when username, email and password are named |
| UserModel.NewUserExactly | backend/src/models/user.model.js:7-28 | a body creates a user exactly when it names username, email and password and every column it names accepts its value, the 20, 100 and 255 character caps included |
| UserModel.CapsKept | backend/src/models/user.model.js:7-28 | a created or updated user keeps username within 20, email within 100, password and location within 255 characters |
| UserModel.UserJson | backend/src/middlewares/auth.middlewares.js:30-32 | the JSON of a user has `password` exactly when asked for, and every other column as stored |
| ProfileModel.PatchNames | backend/src/models/profile.model.js:8-28 | an update shows each of `first_name`, `last_name`, `user_id` and `deleted` the body names as given and keeps the others |
| ProfileModel.PatchFails | backend/src/models/profile.model.js:8-28 | a body is refused exactly when one of the four columns it names rejects its value, a name over 50 characters included |
| ProfileModel.NewProfileAttrs | backend/src/models/profile.model.js:8-28 | a created profile shows each of the four columns the body names as given and the defaults elsewhere |
| ProfileModel.NewProfileRequires | backend/src/models/profile.model.js:8-15 | for a body every named column accepts, creation succeeds exactly when both names are given |
| ProfileModel.NewProfileExactly | backend/src/models/profile.model.js:8-28 | a body creates a profile exactly when it gives both names and every column it names accepts its value, the 50 character caps included |
| ProfileModel.UndeclaredIgnored | backend/src/models/profile.model.js:5-22 | a key the table does not declare changes nothing in what `create` or `update` writes |
| ProfileModel.CapsKept | backend/src/models/profile.model.js:8-15 | a created or updated profile keeps both names within 50 characters and `user_id` in range |
| Store.PutUserKeepsUnique | backend/src/models/user.model.js:7-16 | writing a row the unique indexes admit keeps usernames and emails unique |
| Store.SameKeysFit | backend/src/models/user.model.js:7-16 | a row keeping its username and email still fits the unique indexes |
| Store.InsertUserConsistent | backend/src/models/user.model.js:7-28 | inserting, at the next id, a user the unique indexes admit and that fits its caps keeps every database invariant |
| Store.InsertProfileConsistent | backend/src/models/profile.model.js:8-33 | inserting, at the next id, a profile that fits its caps and whose user exists keeps every database invariant |
| Store.PathId | backend/src/controllers/plot.controller.js:28-29 | a path id is read exactly when it is an integer text within the 32-bit range, as that integer; any other text makes the query fail |
| Store.PathIdOfText | backend/src/controllers/plot.controller.js:28-29 | the path of an id reads back as that id exactly when the id is in range |
| Store.ProfilesOf | backend/src/controllers/user.controller.js:92-94 | exactly the profiles whose `user_id` is the user's id |
| Store.PkLookup | backend/src/middlewares/auth.middlewares.js:30 | `findByPk`: an integral number in range, or an integer text in range, is that id; `undefined`, `null`, fractions and numbers out of range find nothing; other texts and values throw |
| Store.FindExcept | backend/src/middlewares/validations/user.validations.js:88-94 | `findOne` on a column, with one id left out: a hit exactly when another user holds the string; `null` finds nothing; `undefined`, non-strings and an unreadable id throw |
| Store.Find | backend/src/controllers/auth.controller.js:21-23 | `findOne` over all users, soft-deleted ones included: a hit exactly when some user holds the string |
| Store.Database.constructor | backend/src/models/plot.model.js:5-72 | an empty database satisfies the database's invariants |
| PlotController.BuildPlotMeaning | backend/src/controllers/plot.controller.js:48-57 | a created plot carries each named column as given and the default elsewhere; it is created exactly when every column accepts its value, every required one is named and the owner exists |
| PlotController.RevisePlotMeaning | backend/src/controllers/plot.controller.js:66 | an update overwrites exactly the named columns; it is refused exactly when a column rejects its value or the resulting owner is missing |
| PlotController.RevisePlotKeepsCaps | backend/src/controllers/plot.controller.js:66 | an accepted update keeps the row within its column caps |
| PlotController.EmptyUpdateKeepsPlot | backend/src/controllers/plot.controller.js:66 | an empty body changes nothing |
| PlotController.GetAllPlots | backend/src/controllers/plot.controller.js:5-23 | 200 with exactly the plots not soft-deleted, each with its owner's id, username and email |
| PlotController.GetPlotById | backend/src/controllers/plot.controller.js:26-45 | 404 "Plot not found" unless the plot exists and is not soft-deleted; 200 with it and its owner otherwise; 500 on an unreadable id |
| PlotController.CreatePlot | backend/src/controllers/plot.controller.js:48-57 | 201 and one new row at the next id, or 500 "Could not create plot" and no change; the invariants are kept |
| PlotController.UpdatePlot | backend/src/controllers/plot.controller.js:60-73 | 404 on a missing or soft-deleted plot; otherwise the revised row, or 500 and no change; no other table changes |
| PlotController.DeletePlot | backend/src/controllers/plot.controller.js:76-89 | a live plot gets `deleted = true` and nothing else changes, 200 "Plot deleted successfully"; the plot is no longer live |
| PlotController.SoftDeleteHidesOnlyIt | backend/src/controllers/plot.controller.js:78-82 | soft-deleting a plot hides exactly that plot and keeps every row |
| UserController.BriefsOf | backend/src/controllers/user.controller.js:8-13 | the list's profile include holds exactly the user's profiles |
| UserController.BuildUserMeaning | backend/src/controllers/user.controller.js:47-62 | a created user carries the four picked columns and the defaults elsewhere, ignoring other keys; it is refused exactly when a picked column rejects its value (a cap included), username, email or password is missing, or another user holds the username or email |
| UserController.MergeUserMeaning | backend/src/controllers/user.controller.js:65-84 | each of username, email, password and role is replaced exactly when the body's value is truthy; the password is stored unhashed; other columns are kept; it is refused exactly when a merged value is rejected (a cap included) or another user holds the merged username or email |
| UserController.FalsyBodyKeepsUser | backend/src/controllers/user.controller.js:71-76 | a body with no truthy value for the four columns leaves the user unchanged |
| UserController.UsersListing | backend/src/controllers/user.controller.js:6-15 | the listing holds exactly the users not soft-deleted |
| UserController.GetAllUsers | backend/src/controllers/user.controller.js:4-23 | 200 with exactly the live users, each row with its profiles (model with the import in place) |
| UserController.GetUserById | backend/src/controllers/user.controller.js:26-44 | with the import in place and the list's include columns: 200 with the live user and its profiles, and 200 with no user when it is missing or soft-deleted; 500 on an unreadable id |
| UserController.CreateUser | backend/src/controllers/user.controller.js:47-62 | 201 and one new user, or 500 "No se pudo crear el usuario" and no change; usernames and emails stay unique |
| UserController.UpdateUser | backend/src/controllers/user.controller.js:65-84 | 500 on a missing or soft-deleted user; otherwise the merged row, or 500 and no change |
| UserController.DeleteUser | backend/src/controllers/user.controller.js:87-103 | 500 on a missing or soft-deleted user; otherwise the user's profiles are destroyed and the user gets `deleted = true` (model with the import in place) |
| UserController.MissingImportFails | backend/src/controllers/user.controller.js:1-13 | as written, listing, fetching and deleting a live user all answer 500, where the corrected handlers succeed |
| UserController.IncludesAsWritten | backend/src/controllers/user.controller.js:8-13 | the list's include names only profile columns; the get's include names `birth_date`, which is not one |
| UserController.BirthDateFails | backend/src/controllers/user.controller.js:30-35 | with the import in place, fetching a live user by id still answers 500, because the include names `birth_date`; the list's columns would run |
| ProfileController.BuildProfileMeaning | backend/src/controllers/profile.controller.js:35-59 | a created profile carries the two names and `user_id` as given and the defaults elsewhere; it is refused exactly when a picked column rejects its value (a name over 50 included), a name is missing, or `user_id` names no user |
| ProfileController.MergeProfileMeaning | backend/src/controllers/profile.controller.js:62-81 | each name is replaced exactly when the body's value is truthy; `user_id` and `deleted` are kept; it is refused exactly when a merged name is rejected (over 50 characters included) |
| ProfileController.UndeclaredKeys | backend/src/models/profile.model.js:5-22 | `biography`, `avatar_url` and `birth_date` are not columns of the profile table |
| ProfileController.MergedDecodes | backend/src/controllers/profile.controller.js:65-73 | the update writes what the two merged names alone would write |
| ProfileController.GetAllProfiles | backend/src/controllers/profile.controller.js:5-17 | 200 with every profile, soft-deleted ones included, each with its whole user row |
| ProfileController.GetProfileById | backend/src/controllers/profile.controller.js:20-32 | 200 with the profile found by id alone, or with none; 500 on an unreadable id |
| ProfileController.CreateProfile | backend/src/controllers/profile.controller.js:35-59 | 201 and one new profile, or 500 and no change |
| ProfileController.UpdateProfile | backend/src/controllers/profile.controller.js:62-81 | 500 on a missing id; otherwise the merged row, or 500 and no change |
| ProfileController.DeleteProfile | backend/src/controllers/profile.controller.js:84-94 | 500 on a missing id; otherwise exactly that profile is removed, 200 |
| AuthMiddleware.Request.constructor | backend/src/middlewares/auth.middlewares.js:7-12 | a request starts with its cookie and headers and no `req.user` |
| AuthMiddleware.BearerPieces | backend/src/middlewares/auth.middlewares.js:15-16 | a `Bearer ` header splits into "Bearer" and the pieces of the rest |
| AuthMiddleware.CookieWins | backend/src/middlewares/auth.middlewares.js:12-13 | a cookie token wins and the headers are never consulted |
| AuthMiddleware.BearerToken | backend/src/middlewares/auth.middlewares.js:13-17 | without a cookie, `Bearer t` yields `t` up to its first space; `authorization` is read before `Authorization` |
| AuthMiddleware.NotBearer | backend/src/middlewares/auth.middlewares.js:15 | a header not starting with `Bearer ` yields no token |
| AuthMiddleware.BearerAlone | backend/src/middlewares/auth.middlewares.js:15-23 | `Bearer ` alone yields no token |
| AuthMiddleware.Authenticate | backend/src/middlewares/auth.middlewares.js:7-47 | 401 for no token, a falsy verification, or an unknown user; 500 when something throws; otherwise `next()` with `req.user` the row without password (soft-deleted users accepted); `req.user` is untouched on every other path |
| AuthController.DuplicateUsernameRefused | backend/src/controllers/auth.controller.js:21-28 | a taken username, even one held by a soft-deleted user, is refused with 400 before the email is checked |
| AuthController.DuplicateEmailRefused | backend/src/controllers/auth.controller.js:30-36 | a free username with a taken email is refused with 400 |
| AuthController.RegisteredUser | backend/src/controllers/auth.controller.js:38-46 | the inserted user has the hashed password, the given username and email, and role "user" when none is given |
| AuthController.RegisteredProfile | backend/src/controllers/auth.controller.js:48-52 | the inserted profile belongs to the new user and carries the given names |
| AuthController.RegisteredMeaning | backend/src/controllers/auth.controller.js:6-59 | a completed registration stores a user that fits the unique indexes, and its profile |
| AuthController.PlanWithinCaps | backend/src/controllers/auth.controller.js:38-52 | the user and profile `register` inserts fit their column caps |
| AuthController.Register | backend/src/controllers/auth.controller.js:6-59 | the store after each outcome: nothing on refusal; the user alone when the profile insert fails; both on 201 "Usuario creado existosamente" |
| AuthController.CookieOptionsByEnvironment | backend/src/controllers/auth.controller.js:83-90 | the cookie is HTTP-only for one hour; `none` and secure in production, `lax` and not secure elsewhere; logout uses the same SameSite and Secure |
| AuthController.ApplyCookie | backend/src/controllers/auth.controller.js:92 | setting a cookie stores it and clearing removes it; other cookies are untouched |
| AuthController.Login | backend/src/controllers/auth.controller.js:61-103 | an unknown user and a wrong password get the same 401 "Credenciales inválidas"; success sets the `token` cookie and returns the token with 200 "Login existoso"; a throw gives 500 "No se pudo ingresar" |
| AuthController.Logout | backend/src/controllers/auth.controller.js:105-113 | always clears `token` with the login's SameSite and Secure and answers "Logout exitoso" |
| AuthController.LogoutIdempotent | backend/src/controllers/auth.controller.js:92-111 | logging out twice equals logging out once; login then logout leaves no token |
| AuthController.Me | backend/src/controllers/auth.controller.js:116-127 | 401 without `req.user`; otherwise the user without `password` and every other attribute as it was |
| Rules.Texts | backend/src/middlewares/validations/plot.validations.js:18-21 | a standard validator reads `""` for `undefined`, one text for a scalar, one text per array element |
| Rules.Trimmed | backend/src/middlewares/validations/user.validations.js:20-24 | the `trim()` sanitizer trims every text the later checks read |
| Rules.Failures | backend/src/middlewares/validations/plot.validations.js:17-72 | a chain reports every failing check, in order, with its message |
| Rules.OptionalFailures | backend/src/middlewares/validations/plot.validations.js:84 | an `optional()` chain reports nothing for `undefined`, and the whole chain otherwise |
| Rules.FailureReported | backend/src/middlewares/validations/plot.validations.js:17-72 | the message of a failing check is among the errors |
| Rules.FailuresCons | backend/src/middlewares/validations/plot.validations.js:17-72 | a chain's errors are its first check's followed by the rest's |
| Rules.FailuresOfTwo | backend/src/middlewares/validations/plot.validations.js:18-21 | a two-check chain passes exactly when both checks pass |
| Rules.TextOfString | backend/src/middlewares/validations/plot.validations.js:18-21 | a string field reads as itself |
| PlotValidation.PlotExists | backend/src/middlewares/validations/plot.validations.js:9-14 | the id check passes exactly when the path id reads as a live plot's id, and reports the database's message when the lookup throws |
| PlotValidation.OwnerExists | backend/src/middlewares/validations/plot.validations.js:49-53 | the owner check passes exactly when `ownerId` finds a user that is not soft-deleted |
| PlotValidation.IdPassesExactly | backend/src/middlewares/validations/plot.validations.js:5-15 | get and delete pass exactly for the integer id of a live plot |
| PlotValidation.IdErrors | backend/src/middlewares/validations/plot.validations.js:5-15 | a missing plot gets exactly "Plot not found"; a non-integer id gets "Id must be an integer" and the database's error; an integer id outside the 32-bit range gets the database's error alone |
| PlotValidation.FloatRangeMeaning | backend/src/middlewares/validations/plot.validations.js:26-35 | a passing `isFloat({min, max})` means every text read lies in range |
| PlotValidation.RequiredPresent | backend/src/middlewares/validations/plot.validations.js:18-20 | a passing `notEmpty()` means the field is present |
| PlotValidation.OptionalTailMeaning | backend/src/middlewares/validations/plot.validations.js:67-71 | the optional tail passes exactly when each given field is an ISO 8601 date, a cost of at least 0, a text of at most 255 characters or a number |
| PlotValidation.CreatePassMeaning | backend/src/middlewares/validations/plot.validations.js:17-72 | a passing create body has the nine required fields, the length caps of name, location and crop type, latitude and longitude in range, an area of at least 0.01, a live owner, a valid status when given, ISO 8601 dates and a passing optional tail |
| PlotValidation.StatusMeaning | backend/src/middlewares/validations/plot.validations.js:55-58 | a status string that passes is one of the table's five |
| PlotValidation.EmptyUpdatePasses | backend/src/middlewares/validations/plot.validations.js:74-111 | an empty update body passes exactly when the id is valid |
| PlotValidation.UpdatePassMeaning | backend/src/middlewares/validations/plot.validations.js:74-111 | on update, each given field keeps its check: the length caps, latitude and longitude in range, an area of at least 0.01, a live owner, ISO 8601 dates, a valid status and the optional tail |
| PlotValidation.ValidatedCreateWithoutLocation | backend/src/models/plot.model.js:12-16 | a body that passes create validation with no `location` is still refused by the table |
| UserValidation.UserExists | backend/src/middlewares/validations/user.validations.js:10-15 | the id check passes exactly for a stored user, and also not soft-deleted where the chain checks it |
| UserValidation.IdPassesExactly | backend/src/middlewares/validations/user.validations.js:6-16 | the id chain passes exactly for an integer id of a user it accepts |
| UserValidation.GetAndDeleteIds | backend/src/middlewares/validations/user.validations.js:135-145 | get passes only for a live user; delete passes for soft-deleted users too |
| UserValidation.Free | backend/src/middlewares/validations/user.validations.js:26-32 | the uniqueness check passes exactly when `findOne` finds nothing |
| UserValidation.UpdateUniquenessExcludesSelf | backend/src/middlewares/validations/user.validations.js:88-94 | on update, the check passes exactly when no other user holds the value |
| UserValidation.CreateUniquenessCoversAll | backend/src/middlewares/validations/user.validations.js:26-32 | on create, the check passes exactly when no user, soft-deleted or not, holds the value |
| UserValidation.OwnUsernamePasses | backend/src/middlewares/validations/user.validations.js:88-94 | a user keeping its own username passes the update check |
| UserValidation.TailMeaning | backend/src/middlewares/validations/user.validations.js:54-67 | a given role is "user" or "admin", and the location is at most 255 characters |
| UserValidation.UsernameMeaning | backend/src/middlewares/validations/user.validations.js:20-33 | the trimmed username has 3 to 20 characters and no user outside the excluded id holds it |
| UserValidation.EmailMeaning | backend/src/middlewares/validations/user.validations.js:34-48 | the email is a string the email test accepts, at most 100 characters, held by no user outside the excluded id |
| UserValidation.CreatePassMeaning | backend/src/middlewares/validations/user.validations.js:19-68 | a passing create body has a fresh username of 3 to 20 characters after trimming, a fresh valid email, a password of at least 6 characters, and a valid role when given |
| UserValidation.PasswordMeaning | backend/src/middlewares/validations/user.validations.js:49-53 | a passing password is present, and a string one has at least 6 characters |
| UserValidation.UpdatePassMeaning | backend/src/middlewares/validations/user.validations.js:71-132 | a passing update names a stored user; a given username or email is held by no other user; a given password has at least 6 characters |
| ProfileValidation.ProfileExists | backend/src/middlewares/validations/profile.validations.js:10-15 | the id check passes exactly for a profile that is not soft-deleted |
| ProfileValidation.IdPassesExactly | backend/src/middlewares/validations/profile.validations.js:6-16 | get, update and delete pass the id exactly for a live profile |
| ProfileValidation.UserAvailable | backend/src/middlewares/validations/profile.validations.js:35-46 | the `user_id` check passes exactly for a live user with no live profile, with a message for each way to fail |
| ProfileValidation.NameMeaning | backend/src/middlewares/validations/profile.validations.js:20-29 | a passing name is given, with 2 to 50 characters when a string |
| ProfileValidation.CreatePassMeaning | backend/src/middlewares/validations/profile.validations.js:19-47 | a passing create body has both names of 2 to 50 characters and names a live user that has no live profile |
| ProfileValidation.CreateKeepsOneProfilePerUser | backend/src/middlewares/validations/profile.validations.js:35-46 | inserting a validated profile keeps at most one live profile per user |
| ProfileValidation.UpdatePassMeaning | backend/src/middlewares/validations/profile.validations.js:50-72 | on update, the names are optional but 2 to 50 characters when given, and the id must be a live profile |
| ProfileValidation.EmptyUpdatePasses | backend/src/middlewares/validations/profile.validations.js:50-72 | an empty update body passes exactly when the id names a live profile |
| Routing.AuthFirstGates | backend/src/routes/plot.routes.js:22 | a route starting with `authMiddleware` reaches its handler only for an authenticated caller |
| Routing.AdminGates | backend/src/routes/plot.routes.js:23 | a route with `adminMiddleware` reaches its handler only for an admin |
| Routing.ValidatorGates | backend/src/routes/plot.routes.js:32 | a `validator` after a chain lets the handler run only when that chain reports no error |
| PlotRoutes.AuthenticationFirst | backend/src/routes/plot.routes.js:22-36 | every plot route authenticates first |
| PlotRoutes.AdminOnlyOnListing | backend/src/routes/plot.routes.js:23-31 | the admin check guards exactly `GET /` and `GET /:id` |
| PlotRoutes.AnyUserUpdatesOrDeletes | backend/src/routes/plot.routes.js:35-36 | any authenticated caller with valid input reaches update and delete: no ownership or role check |
| PlotRoutes.CreateThroughPostAndPut | backend/src/routes/plot.routes.js:32-34 | `createPlot` is routed from `POST /` and `PUT /`, each behind the create validation |
| PlotRoutes.ValidationBeforeHandler | backend/src/routes/plot.routes.js:24-36 | on every validated route the handler runs only on input that validates |
| PlotRoutes.MyPlotsRoute | backend/src/routes/plot.routes.js:4-22 | `GET /me` needs authentication only, and its handler is not defined |
| UserRoutes.CreateIsOpen | backend/src/routes/user.routes.js:17 | `POST /` creates a user for an unauthenticated caller |
| UserRoutes.OthersNeedOnlyAuthentication | backend/src/routes/user.routes.js:15-19 | every other user route needs authentication and nothing else |
| UserRoutes.NoValidation | backend/src/routes/user.routes.js:10-19 | no user route has a validation chain |
| ProfileRoutes.NoGuards | backend/src/routes/profile.routes.js:14-18 | every profile handler runs for any caller, with no validation |
| AuthRoutes.LogoutNeedsAuthentication | backend/src/routes/auth.routes.js:13-15 | register and login need no token; logout does |
| AuthRoutes.UndefinedHandlers | backend/src/routes/auth.routes.js:6-18 | the two `GET` routes name handlers the controller does not define |
| FrontIndex.EscapeHtml | frontend/assets/js/index.js:68-77 | the escaped text holds no `<`, `>` or `"`, and is no shorter than the input |
| FrontIndex.EscapeConcat | frontend/assets/js/index.js:68-77 | escaping distributes over concatenation |
| FrontIndex.EscapeIdentity | frontend/assets/js/index.js:68-77 | a text free of the four characters is unchanged |
| FrontIndex.UnescapeEntity | frontend/assets/js/index.js:70-75 | each entity decodes back to its character |
| FrontIndex.UnescapeEscape | frontend/assets/js/index.js:68-77 | decoding an escaped text gives the text back |
| FrontIndex.EscapeInjective | frontend/assets/js/index.js:68-77 | distinct texts escape to distinct texts |
| FrontIndex.MapStatusToLabel | frontend/assets/js/index.js:297-308 | the label is always a `<span` element; each dialog choice gets its own opening tag and its own caption; any other status, or none, gets the grey "-" badge |
| FrontIndex.StatusValuesMatchBadges | frontend/assets/js/index.js:151-159 | the dialog's keys are exactly the keys with a badge |
| FrontIndex.BadgesShowCaptions | frontend/assets/js/index.js:151-159 | each choice's badge shows that choice's caption |
| FrontIndex.BadgeIsSpan | frontend/assets/js/index.js:297-308 | every badge of the table, and the unknown one, starts with `<span` |
| FrontIndex.ModelStatusesWithBadges | frontend/assets/js/index.js:297-308 | of the table's five statuses, only `black` lacks a badge |
| FrontIndex.RowHtml | frontend/assets/js/index.js:216-228 | a string starting with `<span` is inserted raw, anything else escaped |
| FrontIndex.StatusRowIsBadge | frontend/assets/js/index.js:191 | the status row shows its badge as markup |
| FrontIndex.RawNameInjected | frontend/assets/js/index.js:186 | a plot name starting with `<span` reaches the page as markup |
| FrontIndex.SafeRowHtml | frontend/assets/js/index.js:216-228 | only the status row is inserted raw; every other row is escaped |
| FrontIndex.SafeRowsKeepBadgeOnly | frontend/assets/js/index.js:185-228 | the corrected rule keeps the badge as markup and escapes every other row |
| FrontIndex.FindPlotById | frontend/assets/js/index.js:177-179 | the first plot with that id, or none |
| FrontIndex.PlotBoard.constructor | frontend/assets/js/index.js:7 | the list starts empty with no plot selected |
| FrontIndex.PlotBoard.Refresh | frontend/assets/js/index.js:25 | the list is replaced |
| FrontIndex.PlotBoard.OpenStatusModalForPlot | frontend/assets/js/index.js:258-261 | the plot is remembered for the status dialog |
| FrontIndex.PlotBoard.SelectStatus | frontend/assets/js/index.js:263-295 | on a saved change only the chosen plot's status changes, to the answer's truthy status or the chosen key; otherwise nothing changes |
| Dashboard.Fmt | frontend/assets/js/dashboard.js:10-15 | "-" for a falsy value; otherwise a string, or the input itself |
| Dashboard.SplitThree | frontend/assets/js/dashboard.js:12 | a date text splits into its year and month and the pieces of the rest |
| Dashboard.FmtRewrites | frontend/assets/js/dashboard.js:10-15 | "y-m-d" is shown as "d/m/y" |
| Dashboard.FmtIgnoresRest | frontend/assets/js/dashboard.js:12 | pieces after the third are ignored |
| Dashboard.FmtNoDash | frontend/assets/js/dashboard.js:13 | a text without a dash is returned unchanged |
| Dashboard.FmtEmptyMonth | frontend/assets/js/dashboard.js:13 | a text with an empty month is returned unchanged |
| Dashboard.FmtChangedIsDate | frontend/assets/js/dashboard.js:10-15 | any text `fmt` changes is y-m-d with non-empty dash-free pieces, possibly followed by more pieces, and is shown as d/m/y; every other text comes back unchanged |
| Dashboard.FirstTruthy | frontend/assets/js/dashboard.js:94-96 | the first truthy value, all before it falsy; the fallback when none is truthy |
| Dashboard.StatusFallbacks | frontend/assets/js/dashboard.js:95-96 | the status name is the caption, else the raw truthy status, else "—"; the colour falls back to "#fff" |
| Dashboard.OwnerFallbacks | frontend/assets/js/dashboard.js:94 | the owner shown is the owner's username, else the owner's email, else the user's username, else "—" |
| Dashboard.NamesMatchDialog | frontend/assets/js/dashboard.js:77-90 | the panel names and colours the same seven statuses as the status dialog, with the same captions |
| Dashboard.GridRows | frontend/assets/js/dashboard.js:55-56 | the fewest rows of 16 that hold every tile |
| MapView.StatusClass | frontend/assets/js/map.js:11-14 | no class exactly for a missing or empty status; otherwise "status-" followed by it |
| MapView.StatusStyle | frontend/assets/js/map.js:16-31 | each of the table's five statuses, in any case, gets its own colours; every other status, a missing one included, the default colours; weight 1 and the class of the status as given |
| MapView.StyleIgnoresCase | frontend/assets/js/map.js:17 | the colours do not depend on the status's case |
| MapView.ModelStatusesStyled | frontend/assets/js/map.js:18-27 | the five statuses' colours are pairwise different and none is the default |
| MapView.FrontOnlyStatusesUnstyled | frontend/assets/js/map.js:28-29 | white, violet, gray and a missing status get the default style |
| MapView.First | frontend/assets/js/map.js:233 | `find`: the first matching hit, all before it not matching; none when nothing matches |
| MapView.FocusTarget | frontend/assets/js/map.js:229-238 | nothing exactly for an empty query or no hits; otherwise a hit in range |
| MapView.FocusPreference | frontend/assets/js/map.js:232-236 | the first exact code match, else the first owner containing the query, else the first name containing it, else the first hit |
| MapView.BlankQueryFocusesFirst | frontend/assets/js/map.js:231-236 | a blank query focuses the first hit without a code, else the first hit |
| MapView.ErrorToastGate.constructor | frontend/assets/js/map.js:8 | no message remembered, at time 0 |
| MapView.ErrorToastGate.Report | frontend/assets/js/map.js:94-102 | a toast is shown unless the same text was shown at most 5 s ago; the memory changes only when shown |
| MapView.ToastSuppression | frontend/assets/js/map.js:96-99 | the first error is shown; the same error within 5 s is suppressed; a different or later one is shown |
| MapView.FindPolygonLayerById | frontend/assets/js/map.js:173-182 | the last layer whose properties' id is the same number, or none when no layer matches |
| MapView.FindMarkerById | frontend/assets/js/map.js:184-192 | the last marker with a truthy `plotId` that is the same number, or none when no marker matches |
| MapView.NaNFindsNothing | frontend/assets/js/map.js:177 | an id that is not a number finds no layer and no marker |

## Left out

- Column coercions. Each column accepts only a JSON value of its own kind. A text `"7"` written to an integer
  column is refused rather than cast, and a number written to a text column is refused rather than printed.
- Database unavailability. The store is always reachable. A 500 in the model comes only from the cases its
  contracts name: a refused write, an id or value the query cannot read, or a throwing parameter.
- `id`, `createdAt`, `updatedAt` and `deletedAt` in request bodies. They are not columns of the model, and a
  body that names them is treated as if it did not.
- The `deleted` flag. The column has a default but no `allowNull: false`; the model stores it as a boolean and
  never as `null`.
- CHAR padding. Postgres returns `CHAR(n)` values padded with blanks to n characters, ignores trailing
  blanks when it compares them, and silently cuts excess that is all blanks. The model stores and returns the
  values as given, compares them exactly, and refuses any text over the cap. The stored password hash reaches
  the compare parameter unpadded.
- DATEONLY columns. The date columns accept any string; what the database reads as a date is not modelled.
- Id counters. The next ids are unbounded integers. The 32-bit sequences behind them, their exhaustion and the
  numbers a failed insert consumes are not modelled.
- Blanks in a path id. The model reads a path id only as an integer text; how the database reads padded or
  otherwise odd texts is not modelled.
- Arrays in uniqueness queries. An array value in a `findOne` WHERE is treated as a query that throws.
- `trim()` of `undefined`. The sanitizer is taken to give the empty text.
- The `hasOne` profile include. The user handlers show every profile whose `user_id` is the user. `hasOne`
  would show one, and which one is unspecified.
- UTF-16 lengths. `isLength` counts characters of the model's strings, not UTF-16 code units.
- Lower-casing. `toLowerCase` is modelled on ASCII letters only.
- Route shadowing. All four routers are mounted at `/api/` in `app.js`, so the first router's `/:id` routes
  shadow the others'. Each router is modelled on its own.
- Result order. `findAll` results are modelled as maps keyed by id, not as ordered lists.
- Inherited keys in `mapStatusToLabel`. Keys such as `constructor` would be looked up on `Object.prototype`;
  the model reads only the seven own keys.
- Status keys that are not strings. `dashboard.js` and `index.js` index their tables with `p.status`; the model
  gives such a status no name, colour or badge.
- `adminMiddleware` and `validator`. These are abstracted to "the caller is an admin" and "the earlier chains
  report no error". admin.middlewares.js and validator.js are not part of this model.
- Hashing and JWTs. bcrypt and the JWT helpers are not part of this model; they are parameters. No property
  depends on them beyond what the handlers do with their results.
- Browser-side effects. The DOM, `fetch`, Leaflet, bootstrap dialogs, timers and `console` are not modelled.
  `map.js`'s `focusOnPlot` map moves are left out; only the choice of layer or marker is modelled.
- Demo data. The random demo plots of `dashboard.js` are not modelled.
- parcela.model.js. It is an older plot table that no handler uses, and it is not merged into the model.
- Response body shapes. `Wrappers.Payload` stands both for a bare string body (`res.json("...")`) and for a
  `{ message }` object, and the `error: error.message` field of the 500 bodies is dropped.
- Rules.Failures: gives one error per failing check; express-validator gives one per failing array element,
  so an array value can produce several.
- ProfileController.DeleteProfile: `destroy()` on the paranoid table is modelled as removing the row, since
  default queries no longer find it. The `deletedAt` timestamp is not kept.
- AuthController.Login: the profile include of the login query is left out, since the handler does not use
  it.
- Dashboard.Fmt: its contract states only that the result is "-", a string, or the input; what the result is
  for date texts, and that it changes no other text, is stated by the Fmt lemmas beside it.

## Findings

| source | as written | input that shows it | evidently intended | confidence | as-written member | corrected member |
|---|---|---|---|---|---|---|
| backend/src/controllers/user.controller.js:1-13 | `ProfileModel` is used in `getAllUsers`, `getUserById` and `deleteUser` but never imported, so each throws a ReferenceError and answers 500 | any request to `GET /` or `GET /:id` on the user router, or `DELETE /:id` for a live user | import `ProfileModel` and answer with the users and their profiles | high, not executed | UserController.MissingImportFails | UserController.GetAllUsers |
| frontend/assets/js/index.js:216-217 | every row value that is a string starting with `<span` is inserted into the page unescaped, the plot's name, location and crop included | a plot named `<span><img src=x onerror=alert(1)></span>` | insert only the status badge built by `mapStatusToLabel` as markup, and escape every other row | high, not executed | FrontIndex.RawNameInjected | FrontIndex.SafeRowsKeepBadgeOnly |
| backend/src/controllers/user.controller.js:30-35 | the profile include of `getUserById` names `birth_date`, which `profile.model.js` does not declare, so the query fails and the handler answers 500 even once `ProfileModel` is imported | `GET /:id` on the user router for a live user | select the same profile columns as `getAllUsers` | high, not executed | UserController.BirthDateFails | UserController.GetUserById |
