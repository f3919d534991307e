# Recipe server core, modelled in Dafny

This project models the request handlers of a recipe-sharing server. The server is built on Express and a document store with Mongoose. It has three collections:

- **recipes**: each carries an owner snapshot, a privacy flag and the ids of its categories;
- **categories**: each has a unique description and the ids of its recipes;
- **users**: emails are unique, and the default role is `registered user`.

What the model covers:

- **Reference bookkeeping.** Three handlers keep the two directions of the recipe ↔ category link in step:
  - `addRecipe` works by category name, in two phases;
  - `updateRecipes` works by category id, pulling then adding;
  - `deleteRecipe` pulls the recipe from every category that holds it.
- **The recipe listing.** Public recipes that match a search, plus the caller's own private ones, split into pages.
- **Lookups.** Recipes by id and by owner; categories, with their recipe references resolved.
- **The two guards.** `userAuth` demands a verified caller. `getAuth` lets anonymous requests through.
- **The user handlers.** `signUp`, `signIn` and `getAllUsers`.

How it is modelled:

- The store is the class `Models.Database`. Its fields are three sequences in natural (insertion) order.
- The mutating handlers are methods of the form `method …(db: Database, …) modifies db`. Each ensures that the store stays well formed (`Database.Valid`) and that a predicate holds of the store before, the request, the reply and the store after: `RecipeController.AddRecipeDone`, `UpdateRecipesDone` or `DeleteRecipeDone`. Those predicates tie the new state to a function of the old state: `Synchronizer.CreateSync`, `UpdateSync` or `DeleteSync`. The routes in `Routes` promise the same predicates for the caller the guard admits.
- Ids are compared in their cast form. The store keeps ids, the owner ids inside recipes included, as 24 lower-case hexadecimal characters (`Common.IsStoredId`). A request id that passes the id check is cast to lower case (`Common.Canon`) before any lookup, so an id spelled in upper case finds the stored one (`Common.CastFindsStored`).
- The properties of those functions are lemmas in `Synchronizer`. One of them is the bidirectional invariant `Models.Consistent`: the categories a recipe lists are exactly the categories that list it.
- The read-only handlers and the guards are functions.
- A reply is a status code with a body (`Success`) or an error status (`Failure`).

Modules, in dependency order:

| file | module | content |
|---|---|---|
| common.dfy | Common | options, replies, status codes, the 24-hex object-id syntax, `Filter`/`Find` over sequences |
| auth.dfy | AuthMiddleware | token extraction from the header, `userAuth`, `getAuth` |
| models.dfy | Models | documents, `$addToSet`, `$pull`, `updateMany`, store invariants, the `Database` class |
| synchronizer.dfy | Synchronizer | the category side of create / update / delete and their invariants |
| recipes.dfy | RecipeController | listing, pagination, lookups, body validation, the three mutating handlers |
| categories.dfy | CategoriesController | the three category reads and reference resolution |
| users.dfy | UserController | sign-up, sign-in, user listing |
| routes.dfy | Routes | which guard stands in front of which recipe handler |

Inputs from outside the program are parameters:

- token verification (`verify: string -> Option<Payload>`) and token signing (`sign`);
- password hashing and comparison (`hash`, `compare`);
- the e-mail syntax check (`isEmail`);
- the object ids the store hands out (`newId`, `freshIds`, each with a freshness precondition).

Two behaviours of the code are followed as written:

- **The search filters only public recipes.** The `search` regular expression applies only to the public branch of the listing query (`node-server/controllers/recipe.controller.js:39-44`). A caller's own private recipes are listed whatever their name.
- **Admin tokens are refused before the handlers.** The mutating handlers admit the roles `admin`, `user` and `registered user`. But `userAuth`, which stands in front of them, refuses `admin` with 403, so an admin token never reaches them (`Routes.GuardAdmitsOnlyEditors`, `AuthMiddleware.AdminTokenRefused`).

The recipe lookup has no guard and no visibility check, so it returns private recipes to anyone (`RecipeController.PrivateRecipeByCode`).

## Model

| member | source | states |
|---|---|---|
| AuthMiddleware.HeaderPresent | node-server/middlewares/userAuth.js:8 | a header counts as sent when it is a non-empty string |
| AuthMiddleware.TokenOf | node-server/middlewares/userAuth.js:10 | the `[, token] = split(' ')` field: none exactly when the header has no space; the token holds no space |
| AuthMiddleware.TokenOfBearer | node-server/middlewares/userAuth.js:10 | a header `scheme token`, followed by any further space-separated fields, yields `token`: the second field of the split |
| AuthMiddleware.Verified | node-server/middlewares/userAuth.js:10-12 | the claims `jwt.verify` gives for the header's token; a missing or empty token never verifies |
| AuthMiddleware.UserAuth | node-server/middlewares/userAuth.js:5-23 | never anonymous; 401 exactly when the header is missing or empty, or the token fails verification; 403 exactly when a verified role is outside {user, registered user}; otherwise the caller is the verified payload |
| AuthMiddleware.GetAuth | node-server/middlewares/userAuth.js:26-44 | anonymous exactly when the header is missing or the token fails verification; 403 exactly for a verified role outside the two; otherwise the caller is the verified payload |
| AuthMiddleware.GuardsAgree | node-server/middlewares/userAuth.js:5-44 | the guards differ only where `userAuth` says 401, and there `getAuth` proceeds anonymously |
| AuthMiddleware.AdminTokenRefused | node-server/middlewares/userAuth.js:15-17 | a verified admin token is refused with 403 by both guards |
| Common.IsHexId | node-server/controllers/recipe.controller.js:60 | the id check: exactly 24 hexadecimal characters, in either letter case |
| Common.Canon | node-server/controllers/recipe.controller.js:64 | the cast of an id string: every letter in lower case |
| Common.IsStoredId | node-server/models/recipe.model.js:13 | the form in which the store keeps ids: 24 lower-case hexadecimal characters |
| Common.CastFindsStored | node-server/controllers/recipe.controller.js:60-65 | a stored id passes the id check and is its own cast; a string passes the check and casts to a stored id exactly when it spells that id in some mix of letter cases |
| Common.CastIsStored | node-server/controllers/recipe.controller.js:60-64 | the cast of an id that passes the check is in the stored form |
| Common.Filter | node-server/controllers/recipe.controller.js:46 | a query in natural order: membership is "in the collection and matches", the result is a subsequence, and no duplicates are introduced |
| Common.FilterAgree | node-server/controllers/recipe.controller.js:121 | two tests that agree on every element filter alike |
| Common.CountInNoDup | node-server/models/categories.model.js:6 | in a duplicate-free id list an id occurs once or not at all |
| Models.AddToSet | node-server/controllers/recipe.controller.js:115 | `$addToSet`: the id is present afterwards, a present id changes nothing, and no duplicate is ever created |
| Models.AddToSetOnce | node-server/controllers/recipe.controller.js:185 | after `$addToSet` on a duplicate-free list the id occurs exactly once |
| Models.Pull | node-server/controllers/recipe.controller.js:177 | `$pull`: the id is gone; every other member stays, in order; pulling an absent id changes nothing |
| Models.PullIdempotent | node-server/controllers/recipe.controller.js:212 | pulling twice is pulling once |
| Models.AddToSetIdempotent | node-server/controllers/recipe.controller.js:185 | adding twice is adding once |
| Models.SelectIds | node-server/controllers/recipe.controller.js:132 | `find(filter).select('_id')`: exactly the ids of the selected categories, without duplicates when category ids are unique |
| Models.UpdateMany | node-server/controllers/recipe.controller.js:113-116 | `updateMany`: no category is added, removed, moved or renamed; a selected category gets the array update applied to its list; an unselected one is unchanged |
| Models.RecipeIndex | node-server/controllers/recipe.controller.js:159 | `findById` on an already cast id: a position carrying the id, or none exactly when no recipe carries it |
| Models.UserIndex | node-server/controllers/recipe.controller.js:97 | `User.findById` on an already cast id: a position carrying the id, or none when no user has it |
| Models.UserByEmail | node-server/controllers/user.controller.js:124 | `findOne({ email })`: the first user in natural order with that email, or none when no user has it |
| Models.Database.constructor | node-server/models/recipe.model.js:4-15 | the empty store is well formed |
| Synchronizer.MissingNames | node-server/controllers/recipe.controller.js:119-121 | exactly the requested names that no category carries, in request order |
| Synchronizer.CreateSync | node-server/controllers/recipe.controller.js:113-128 | the categories after `addRecipe`: `$addToSet` of the new id where a requested name is carried, then one new category per missing name (its properties are the `CreateSync…` lemmas) |
| Synchronizer.CreateSyncShape | node-server/controllers/recipe.controller.js:109-129 | existing categories keep place, id and description; unrequested ones are untouched; each missing name gets a fresh category holding only the new recipe |
| Synchronizer.CreateSyncNames | node-server/controllers/recipe.controller.js:113-129 | afterwards every requested name is the description of a category, and descriptions stay unique |
| Synchronizer.CreateSyncMembers | node-server/controllers/recipe.controller.js:113-129 | a category holds the new recipe exactly when its description was requested, and then exactly once; no other member of any list changes |
| Synchronizer.CreateSyncWellFormed | node-server/controllers/recipe.controller.js:106-129 | the categories stay well formed once the new recipe is stored |
| Synchronizer.CreateSyncConsistent | node-server/controllers/recipe.controller.js:106-133 | with the recipe's list set to the ids of the requested categories, the bidirectional invariant is kept |
| Synchronizer.CreateSyncNoNames | node-server/controllers/recipe.controller.js:109 | with no names requested, no category changes and the recipe's own list is empty |
| Synchronizer.Removed | node-server/controllers/recipe.controller.js:173 | exactly the old category ids that are not among the new ones, in their old order |
| Synchronizer.UpdateSync | node-server/controllers/recipe.controller.js:172-187 | the categories after `updateRecipes`: `$pull` from old minus new, then `$addToSet` into new (its properties are the `UpdateSync…` lemmas) |
| Synchronizer.UpdateSyncSpec | node-server/controllers/recipe.controller.js:169-187 | no category is created or renamed; one in the new list holds the recipe exactly once; one in old minus new does not hold it; one in neither list is untouched; other members never change |
| Synchronizer.UpdateSyncWellFormed | node-server/controllers/recipe.controller.js:166-187 | an update keeps the categories well formed |
| Synchronizer.UpdateSyncConsistent | node-server/controllers/recipe.controller.js:166-187 | when the recipe's new list holds ids of existing categories, the bidirectional invariant is kept |
| Synchronizer.UpdateManyAddIdempotent | node-server/controllers/recipe.controller.js:183-186 | repeating an `$addToSet` phase, under any filter, changes nothing |
| Synchronizer.PullKeepsWellFormed | node-server/controllers/recipe.controller.js:175-178 | a `$pull` phase alone keeps the categories well formed |
| Synchronizer.DeleteSync | node-server/controllers/recipe.controller.js:210-213 | the categories after `deleteRecipe`: `$pull` from every category holding the id (its properties are the `DeleteSync…` lemmas) |
| Synchronizer.DeleteSyncSpec | node-server/controllers/recipe.controller.js:210-213 | afterwards no category holds the recipe, whatever the recipe listed; each list is the old one with the id pulled |
| Synchronizer.RemoveAt | node-server/controllers/recipe.controller.js:215 | the recipes without the one at a position (its effect on ids is `RemoveAtIds`) |
| Synchronizer.RemoveAtIds | node-server/controllers/recipe.controller.js:215 | `findByIdAndDelete` removes exactly that id and keeps the others in order |
| Synchronizer.DeleteSyncWellFormed | node-server/controllers/recipe.controller.js:210-215 | deletion keeps the categories well formed |
| Synchronizer.DeleteSyncConsistent | node-server/controllers/recipe.controller.js:210-215 | deletion keeps the bidirectional invariant |
| RecipeController.NameMatches | node-server/controllers/recipe.controller.js:40 | the search text occurs in the name, ignoring ASCII letter case |
| RecipeController.Listed | node-server/controllers/recipe.controller.js:39-44 | the `$or` of the listing: a public recipe whose name matches, or a private one whose owner id is the cast of the caller id |
| RecipeController.EmptySearchMatchesAll | node-server/controllers/recipe.controller.js:37-40 | the default search matches every name |
| RecipeController.ContainedSearchMatches | node-server/controllers/recipe.controller.js:40 | a name containing the search text, in any letter case, matches |
| RecipeController.Visible | node-server/controllers/recipe.controller.js:39-46 | membership is exactly the `$or` of the two branches; matching public recipes and all the caller's private ones are in it; no other owner's private recipe is; natural order is kept |
| RecipeController.Page | node-server/controllers/recipe.controller.js:49-50 | at most `perPage` elements; empty past the end; element `k` is element `(page-1)*perPage+k` of the input |
| RecipeController.PagesCover | node-server/controllers/recipe.controller.js:49-50 | element `k` appears on page `k / perPage + 1` at position `k % perPage` |
| RecipeController.GetAllRecipes | node-server/controllers/recipe.controller.js:36-56 | exactly the page's window of the visible recipes: `perPage` of them, fewer on the last page, none past the end, in natural order; never another user's private recipe |
| RecipeController.DefaultListingIsFirstTen | node-server/controllers/recipe.controller.js:37 | without search, page or size, the listing is the first ten visible recipes |
| RecipeController.GetRecipeByCode | node-server/controllers/recipe.controller.js:58-70 | 400 exactly for a malformed id; 404 exactly when no recipe carries its cast; otherwise the recipe with the cast id |
| RecipeController.PrivateRecipeByCode | node-server/controllers/recipe.controller.js:60-66 | any stored recipe, private ones included, is returned to anyone asking by its id spelled in any letter case |
| RecipeController.GetRecipesByUser | node-server/controllers/recipe.controller.js:72-82 | exactly the recipes whose owner id is the cast of the given id, private ones included, in natural order; 500 when the id cannot be cast |
| RecipeController.RecipesByUserAnyCase | node-server/controllers/recipe.controller.js:72-78 | in a well-formed store every recipe of a user is found by that user's id spelled in any letter case |
| RecipeController.ParseDifficulty | node-server/controllers/recipe.controller.js:30 | exactly `easy`, `medium` and `hard` are accepted |
| RecipeController.ValidateRecipe | node-server/controllers/recipe.controller.js:27-33 | accepts exactly a non-empty name, a preparation time, a known difficulty, non-empty category strings, an optional flag and no other key; passes the values on |
| RecipeController.NewRecipe | node-server/controllers/recipe.controller.js:100-104 | the document `addRecipe` stores: the validated fields, the owner snapshot, the image and the category ids |
| RecipeController.NewNamesAreMissing | node-server/controllers/recipe.controller.js:119-121 | the names left after the `$addToSet` phase are exactly those no category carried before |
| RecipeController.CreateKeepsStore | node-server/controllers/recipe.controller.js:100-133 | storing the recipe with its category sync keeps the store well formed and the invariant; the recipe's category list has no duplicates |
| RecipeController.LinkCategories | node-server/controllers/recipe.controller.js:109-132 | the categories become `CreateSync` of the old ones; the returned ids are those of the requested categories |
| RecipeController.AddRecipeDone | node-server/controllers/recipe.controller.js:85-141 | 400, 403, 500 and 404 each with no write; every request that passes those checks succeeds, with 201, the owner snapshot of the user the caller id casts to, categories by `CreateSync`, the recipe appended and the invariant kept |
| RecipeController.AddRecipe | node-server/controllers/recipe.controller.js:85-141 | keeps the store well formed and ends in `AddRecipeDone` |
| RecipeController.Updated | node-server/controllers/recipe.controller.js:163-166 | the body replaces the given fields; an omitted `categories` or `isPrivate` keeps the stored value; a stored file replaces the image |
| RecipeController.UpdateKeepsStore | node-server/controllers/recipe.controller.js:166-187 | rewriting one recipe, then either phase of the category sync, keeps the store well formed |
| RecipeController.SyncUpdate | node-server/controllers/recipe.controller.js:169-187 | `UpdateSync` when every id casts; a stop after the pull phase, or before it, when one does not |
| RecipeController.UpdateRecipesDone | node-server/controllers/recipe.controller.js:144-194 | 400, 403 and 404 each with no write; a found recipe is rewritten and then either `UpdateSync` runs and the reply is the new document, or 500 comes partway with the writes before it kept; invariant kept when the body lists existing categories |
| RecipeController.UpdateRecipes | node-server/controllers/recipe.controller.js:144-194 | keeps the store well formed and ends in `UpdateRecipesDone` |
| RecipeController.OmittedCategoriesBreakConsistency | node-server/controllers/recipe.controller.js:163-179 | a body without `categories` pulls the recipe from its categories while the recipe keeps listing them |
| RecipeController.DeleteRecipeDone | node-server/controllers/recipe.controller.js:197-221 | 400, 403 and 404 each with no write; a found recipe is always deleted: 204, the recipe removed, no category holding its id, invariant kept |
| RecipeController.DeleteRecipe | node-server/controllers/recipe.controller.js:197-221 | keeps the store well formed and ends in `DeleteRecipeDone` |
| CategoriesController.ValidCategoryId | node-server/controllers/categories.controller.js:6-8 | `categoryIdSchema`: 24 hexadecimal characters |
| CategoriesController.Resolve | node-server/controllers/categories.controller.js:22 | `populate`: only stored recipes whose id is listed; every such recipe when ids are unique; one per id, in order, when all ids resolve |
| CategoriesController.CategoryView | node-server/controllers/categories.controller.js:36-38 | a category with its id, description and resolved recipes |
| CategoriesController.CategoryViewComplete | node-server/controllers/categories.controller.js:36-42 | in a well-formed store no reference is lost; under the invariant the resolved recipes are exactly those listing the category |
| CategoriesController.GetAllCategories | node-server/controllers/categories.controller.js:10-17 | every stored category in natural order, references unresolved (its property is `ListingsAgree`) |
| CategoriesController.ListingsAgree | node-server/controllers/categories.controller.js:10-28 | the plain and the populated listing show the same categories in the same order, the populated one with each reference list resolved |
| CategoriesController.GetAllCategoriesAndRecipe | node-server/controllers/categories.controller.js:19-28 | every category in natural order, each with resolved recipes drawn from its own references |
| CategoriesController.CategoryIndex | node-server/controllers/categories.controller.js:36 | `findById` on categories: none exactly when no category has the id |
| CategoriesController.GetCategoryByIdWithRec | node-server/controllers/categories.controller.js:6-46 | 400 exactly for an id that is not 24 hex characters; 404 exactly when no category carries its cast; otherwise that category, resolved |
| CategoriesController.ByIdAgreesWithListing | node-server/controllers/categories.controller.js:19-46 | a category fetched by its id, spelled in any letter case, equals its entry in the full listing |
| UserController.ValidateSignUp | node-server/controllers/user.controller.js:99-118 | accepts exactly a username of 3 or more characters, a valid email, a password of 6 or more characters, any address or none, and no other key |
| UserController.ValidLogIn | node-server/controllers/user.controller.js:106-109 | the login schema: a valid email, a non-empty password, no other key |
| UserController.ClaimsOf | node-server/models/user.model.js:14-20 | the claims `generateToken` signs: the user's id, role and username (its property is `SessionTokenAdmitted`) |
| UserController.SessionTokenAdmitted | node-server/models/user.model.js:14-20 | a session token sent as `Bearer <token>` passes both guards as exactly the claims of its user, when verification returns what signing put in and the role is admitted |
| UserController.RegisteredTokenAdmitted | node-server/controllers/user.controller.js:121-136 | the token a registration returns passes `userAuth` as the new id, the role `registered user` and the username |
| UserController.Registered | node-server/controllers/user.controller.js:121-133 | the stored user has the hashed password and the role `registered user` |
| UserController.SignUp | node-server/controllers/user.controller.js:114-143 | 400, or 409 for a known email, with no write; every accepted body with a new email succeeds: exactly one user is appended and 201 carries its id, username and token; emails stay unique |
| UserController.SignIn | node-server/controllers/user.controller.js:146-168 | 400 exactly for an invalid body; 401 for an unknown email or a failed comparison; a known email with a matching password always gets that user's id, username and token |
| UserController.SignUpThenSignIn | node-server/controllers/user.controller.js:132-164 | signing in with a new registration's credentials returns that registration's session |
| UserController.Public | node-server/controllers/user.controller.js:173 | every field except the password |
| UserController.GetAllUsers | node-server/controllers/user.controller.js:171-178 | every user, in natural order, without the password |
| UserController.ListingHidesPasswords | node-server/controllers/user.controller.js:173 | changing a password hash does not change the listing |
| Routes.ListingRoute | node-server/routes/recipe.route.js:17 | `getAuth` before the listing: 403 exactly when it rejects; otherwise exactly `getAllRecipes` as the anonymous or the verified caller; a listed private recipe belongs to the verified caller |
| Routes.BadTokenSeesPublicListing | node-server/routes/recipe.route.js:17 | with no header or a failed token, the listing is the anonymous one and holds no private recipe |
| Routes.GuardAdmitsOnlyEditors | node-server/routes/recipe.route.js:21-23 | every role `userAuth` admits passes the handlers' role check; `admin` is refused by the guard |
| Routes.AddRecipeRoute | node-server/routes/recipe.route.js:21 | a `userAuth` rejection is the reply and writes nothing; otherwise `AddRecipeDone` holds for the verified caller and the reply is never 403 |
| Routes.UpdateRecipesRoute | node-server/routes/recipe.route.js:22 | a `userAuth` rejection is the reply and writes nothing; otherwise `UpdateRecipesDone` holds for the verified caller and the reply is never 403 |
| Routes.DeleteRecipeRoute | node-server/routes/recipe.route.js:23 | a `userAuth` rejection is the reply and writes nothing; otherwise `DeleteRecipeDone` holds for the verified caller and the reply is never 403 |

## Left out

- File uploads are not modelled. The multer storage and image filter (`node-server/controllers/recipe.controller.js:10-24`) become the `Upload` value: no file, a stored file name, or an upload error.
- Token verification and signing (JSON Web Tokens, RFC 7519), bcrypt hashing and comparison, and Joi's e-mail syntax check are oracle parameters. `hash` is a function, so the random salt is not modelled.
- Object-id syntax is modelled as 24 hexadecimal characters, for both Joi's `hex().length(24)` and Mongoose's `ObjectId.isValid`. The 12-character form that `isValid` also accepts is not modelled. A string that cannot be cast inside a query gives status 500; the error middleware that sets that status is not part of this model.
- RecipeController.UpdateRecipes: category ids in the body and in the stored recipe's list are matched against category ids as written. The cast that a `$in` on `_id` applies to them is not modelled, so a category id spelled in upper case selects no category here.
- RecipeController.GetAllRecipes: a verified token whose claimed user id is not an object id would make the listing query fail with 500. Tokens are signed with stored ids, and that failure is not modelled.
- UserController.ValidateSignUp: the minimum lengths of the username (3) and the password (6) are counted in Unicode scalar values. Joi counts UTF-16 code units, so a character outside the Basic Multilingual Plane counts twice there and once here: `"a😀"` passes Joi's three-character minimum but not this one.
- RecipeController.NameMatches: the search is a case-insensitive substring test with ASCII case folding. Regular-expression metacharacters and Unicode case folding are not modelled.
- RecipeController.GetAllRecipes: requires `page >= 1` and `perPage >= 1`. It does not model string-to-number coercion of the query, nor `limit(0)` meaning "no limit".
- RecipeController.AddRecipe: requires that the names in `categories` that no category carries yet are distinct. A missing name given twice would make `insertMany` hit the unique index on `description` (`node-server/models/categories.model.js:5`), and that failure is not modelled. Names of existing categories may repeat, as the code allows.
- RecipeController.AddRecipe: `recipe.categories` is modelled as the ids of the categories found. The code assigns category documents to a field declared as an array of strings (`node-server/models/recipe.model.js:8`), and the string conversion is not modelled.
- RecipeController.SyncUpdate: the old-minus-new test is modelled as string equality. The code calls `.equals` on string ids (`node-server/controllers/recipe.controller.js:173`), which throws when both the old and the new list are non-empty. That TypeError is not modelled.
- RecipeController.UpdateRecipes: the handler's steps run in sequence with no transaction and no concurrent requests. The partial writes before a 500 are stated; interleaving with other requests is not.
- `populate('categories')` on recipes is not modelled: the field holds strings and declares no reference, so the recipes are returned as stored.
- The `-__v` projections are not modelled, because the version key is not part of the documents here.
- Error messages are not modelled; only status codes are.
- `preparationTime` is an integer here. Joi accepts any number.
- The commented-out first version of the user controller (`node-server/controllers/user.controller.js:1-91`) is not modelled. Neither is the duplicate `getAuth` in `node-server/models/recipe.model.js:21-39`, which uses an unimported `jwt`.
- Application wiring is not modelled (`node-server/app.js`, `node-server/server.js`, the router files beyond the guard placement). The preparation-time route names a handler that the controller does not define.
