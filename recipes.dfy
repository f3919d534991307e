/** The recipe handlers: three read-only queries (the visibility-filtered,
    paginated listing, lookup by id, lookup by owner) and three mutations
    (create, update, delete) that change the shared store and keep the
    categories' back references in step. */
module RecipeController {
  import opened Common
  import opened Models
  import opened Synchronizer
  import opened AuthMiddleware

  // ----- the listing -----

  /** `search` occurs in `name` starting at position `i`, ignoring case. */
  predicate MatchesAt(name: string, search: string, i: int) {
    0 <= i <= |name| - |search| && SameIgnoringCase(name[i..i + |search|], search)
  }

  /** `new RegExp(search, 'i')` applied to a name, with `search` read as plain
      text: `search` occurs somewhere in `name`, ignoring case. */
  predicate NameMatches(name: string, search: string) {
    exists i :: 0 <= i <= |name| && MatchesAt(name, search, i)
  }

  /** The default search, the empty string, matches every name. */
  lemma EmptySearchMatchesAll(name: string)
    ensures NameMatches(name, "")
  {
    assert MatchesAt(name, "", 0);
  }

  /** A name that contains the search text, in any case, matches it. */
  lemma ContainedSearchMatches(before: string, found: string, after: string, search: string)
    requires SameIgnoringCase(found, search)
    ensures NameMatches(before + found + after, search)
  {
    var name := before + found + after;
    assert name[|before|..|before| + |search|] == found;
    assert MatchesAt(name, search, |before|);
  }

  /** The `$or` of the listing query: a public recipe whose name matches the
      search, or, when there is a caller, a private recipe whose owner id is the
      cast of the caller's id (this branch ignores the search). */
  predicate Listed(r: Recipe, search: string, caller: Option<Payload>) {
    || (!r.isPrivate && NameMatches(r.name, search))
    || (caller.Some? && r.owner.id == Canon(caller.value.userId) && r.isPrivate)
  }

  /** Every recipe the listing query selects, in natural order. */
  function Visible(rs: seq<Recipe>, search: string, caller: Option<Payload>): (r: seq<Recipe>)
    ensures Subsequence(r, rs)
    ensures forall x :: x in r <==> x in rs && Listed(x, search, caller)
    ensures forall x :: x in rs && !x.isPrivate && NameMatches(x.name, search) ==> x in r
    ensures forall x :: x in rs && x.isPrivate && caller.Some? && x.owner.id == Canon(caller.value.userId) ==> x in r
    ensures forall x :: x in r && x.isPrivate ==> caller.Some? && x.owner.id == Canon(caller.value.userId)
    ensures forall x :: x in r && !x.isPrivate ==> NameMatches(x.name, search)
  {
    Filter(rs, (x: Recipe) => Listed(x, search, caller))
  }

  /** The number of documents `skip` passes over for a page. */
  function Skip(page: int, perPage: int): nat
    requires page >= 1 && perPage >= 1
  {
    (page - 1) * perPage
  }

  /** `skip((page - 1) * perPage).limit(perPage)`: the window of at most
      `perPage` elements starting after the skipped ones. */
  function Page<T>(s: seq<T>, page: int, perPage: int): (r: seq<T>)
    requires page >= 1 && perPage >= 1
    ensures |r| <= perPage
    ensures Skip(page, perPage) >= |s| ==> r == []
    ensures Skip(page, perPage) < |s| ==>
              |r| == if |s| - Skip(page, perPage) < perPage then |s| - Skip(page, perPage) else perPage
    ensures forall k :: 0 <= k < |r| ==> Skip(page, perPage) + k < |s| && r[k] == s[Skip(page, perPage) + k]
    ensures forall x :: x in r ==> x in s
  {
    var skip := Skip(page, perPage);
    if skip >= |s| then []
    else if skip + perPage <= |s| then s[skip..skip + perPage]
    else s[skip..]
  }

  /** Element `k` of a listing is element `k % perPage` of page `k / perPage + 1`:
      walking the pages in order visits every element once. */
  lemma PagesCover<T>(s: seq<T>, perPage: int, k: nat)
    requires perPage >= 1 && k < |s|
    ensures var p := k / perPage + 1;
            k % perPage < |Page(s, p, perPage)| && Page(s, p, perPage)[k % perPage] == s[k]
  {
    var p := k / perPage + 1;
    assert Skip(p, perPage) + k % perPage == k;
  }

  /** The query string of the listing; absent values take their defaults. */
  datatype ListQuery = ListQuery(search: Option<string>, page: Option<int>, perPage: Option<int>)

  function SearchOf(q: ListQuery): string { q.search.GetOr("") }
  function PageOf(q: ListQuery): int { q.page.GetOr(1) }
  function PerPageOf(q: ListQuery): int { q.perPage.GetOr(10) }

  predicate ValidQuery(q: ListQuery) {
    PageOf(q) >= 1 && PerPageOf(q) >= 1
  }

  /** `getAllRecipes`: the visible recipes, paginated. It never shows another
      user's private recipe, and it shows exactly the window of the visible
      recipes that the page selects: `perPage` of them, or fewer on the last
      page, none past the end, in natural order. */
  function GetAllRecipes(rs: seq<Recipe>, q: ListQuery, caller: Option<Payload>): (r: seq<Recipe>)
    requires ValidQuery(q)
    ensures |r| <= PerPageOf(q)
    ensures forall x :: x in r ==> x in rs && Listed(x, SearchOf(q), caller)
    ensures forall x :: x in r && x.isPrivate ==> caller.Some? && x.owner.id == Canon(caller.value.userId)
    ensures var v := Visible(rs, SearchOf(q), caller);
            var skip := Skip(PageOf(q), PerPageOf(q));
            && |r| == (if skip >= |v| then 0 else if |v| - skip < PerPageOf(q) then |v| - skip else PerPageOf(q))
            && (forall k :: 0 <= k < |r| ==> skip + k < |v| && r[k] == v[skip + k])
  {
    Page(Visible(rs, SearchOf(q), caller), PageOf(q), PerPageOf(q))
  }

  /** With no page or size given, the listing is the first ten visible recipes. */
  lemma DefaultListingIsFirstTen(rs: seq<Recipe>, caller: Option<Payload>)
    ensures var v := Visible(rs, "", caller);
            GetAllRecipes(rs, ListQuery(None, None, None), caller) == if |v| <= 10 then v else v[..10]
  {
    var v := Visible(rs, "", caller);
    var r := GetAllRecipes(rs, ListQuery(None, None, None), caller);
    if |v| <= 10 {
      assert r == v[0..] && v[0..] == v;
    }
  }

  // ----- lookups -----

  /** `getRecipeByCode`: a malformed id is refused with 400 before any lookup, an
      id whose cast no recipe carries gives 404, and any stored recipe is
      returned, private or not. */
  function GetRecipeByCode(rs: seq<Recipe>, id: string): (r: Reply<Recipe>)
    ensures r.Failure? ==> r.status == BadRequest || r.status == NotFound
    ensures r == Failure(BadRequest) <==> !IsHexId(id)
    ensures r == Failure(NotFound) <==> IsHexId(id) && Canon(id) !in RecipeIdSet(rs)
    ensures r.Success? ==> r.status == OK && r.value in rs && r.value.id == Canon(id)
  {
    if !IsHexId(id) then Failure(BadRequest)
    else match RecipeIndex(rs, Canon(id)) {
      case None => Failure(NotFound)
      case Some(i) => Success(OK, rs[i])
    }
  }

  /** A stored recipe, private ones included, is handed to anyone who asks for
      it by its id spelled in any letter case. */
  lemma PrivateRecipeByCode(rs: seq<Recipe>, i: nat, id: string)
    requires RecipesWellFormed(rs) && i < |rs|
    requires SameIgnoringCase(id, rs[i].id)
    ensures GetRecipeByCode(rs, id) == Success(OK, rs[i])
  {
    CastFindsStored(id, rs[i].id);
    assert rs[i].id in RecipeIdSet(rs);
  }

  /** `getRecipesByUser`: exactly the recipes whose owner snapshot carries the
      cast of `userId`, private ones included, in natural order. An id that
      cannot be cast to an object id makes the query fail. */
  function GetRecipesByUser(rs: seq<Recipe>, userId: string): (r: Reply<seq<Recipe>>)
    ensures r.Success? <==> IsHexId(userId)
    ensures r.Failure? ==> r.status == ServerError
    ensures r.Success? ==>
              && r.status == OK
              && Subsequence(r.value, rs)
              && forall x :: x in r.value <==> x in rs && x.owner.id == Canon(userId)
  {
    if !IsHexId(userId) then Failure(ServerError)
    else Success(OK, Filter(rs, (x: Recipe) => x.owner.id == Canon(userId)))
  }

  /** In a well-formed store every recipe of a user is found by that user's id
      spelled in any letter case. */
  lemma RecipesByUserAnyCase(rs: seq<Recipe>, i: nat, userId: string)
    requires RecipesWellFormed(rs) && i < |rs|
    requires SameIgnoringCase(userId, rs[i].owner.id)
    ensures GetRecipesByUser(rs, userId).Success? && rs[i] in GetRecipesByUser(rs, userId).value
  {
    CastFindsStored(userId, rs[i].owner.id);
  }

  // ----- request bodies -----

  /** The multipart upload: no file, a stored image, or a rejected file. */
  datatype Upload = NoFile | Stored(filename: string) | UploadError

  function ImageOf(u: Upload): Option<string> {
    if u.Stored? then Some(u.filename) else None
  }

  /** A recipe body as received; `unknownKeys` lists fields the schema does not name. */
  datatype RecipeBody = RecipeBody(
    name: Option<string>,
    preparationTime: Option<int>,
    difficulty: Option<string>,
    categories: Option<seq<string>>,
    isPrivate: Option<bool>,
    unknownKeys: seq<string>)

  /** A body the schema accepted. */
  datatype RecipeFields = RecipeFields(
    name: string,
    preparationTime: int,
    difficulty: Difficulty,
    categories: Option<seq<string>>,
    isPrivate: Option<bool>)

  function ParseDifficulty(s: string): (r: Option<Difficulty>)
    ensures r.Some? <==> s == "easy" || s == "medium" || s == "hard"
  {
    if s == "easy" then Some(Easy)
    else if s == "medium" then Some(Medium)
    else if s == "hard" then Some(Hard)
    else None
  }

  /** The recipe schema: a non-empty name, a preparation time, one of the three
      difficulties, optionally a list of non-empty category strings and a
      privacy flag, and no other field. What it accepts it passes on unchanged. */
  function ValidateRecipe(b: RecipeBody): (r: Option<RecipeFields>)
    ensures r.Some? <==>
              && b.name.Some? && |b.name.value| >= 1
              && b.preparationTime.Some?
              && b.difficulty.Some? && ParseDifficulty(b.difficulty.value).Some?
              && (b.categories.Some? ==> forall k :: 0 <= k < |b.categories.value| ==> b.categories.value[k] != "")
              && b.unknownKeys == []
    ensures r.Some? ==>
              && r.value.name == b.name.value
              && r.value.preparationTime == b.preparationTime.value
              && Some(r.value.difficulty) == ParseDifficulty(b.difficulty.value)
              && r.value.categories == b.categories
              && r.value.isPrivate == b.isPrivate
  {
    if && b.name.Some? && |b.name.value| >= 1
       && b.preparationTime.Some?
       && b.difficulty.Some? && ParseDifficulty(b.difficulty.value).Some?
       && (b.categories.Some? ==> forall k :: 0 <= k < |b.categories.value| ==> b.categories.value[k] != "")
       && b.unknownKeys == []
    then Some(RecipeFields(b.name.value, b.preparationTime.value, ParseDifficulty(b.difficulty.value).value,
                           b.categories, b.isPrivate))
    else None
  }

  /** The roles the mutation handlers themselves admit. */
  const EditorRoles: set<string> := {"admin", "user", "registered user"}

  /** The upload and the body are both acceptable. */
  predicate Accepted(upload: Upload, body: RecipeBody) {
    !upload.UploadError? && ValidateRecipe(body).Some?
  }

  // ----- create -----

  /** The new recipe document: the validated fields, the owner snapshot, the
      image, and the ids of the categories it belongs to. */
  function NewRecipe(id: Id, v: RecipeFields, upload: Upload, user: User, categoryIds: seq<Id>): Recipe {
    Recipe(id, v.name, v.preparationTime, v.difficulty, categoryIds, v.isPrivate.GetOr(false),
           ImageOf(upload), Owner(user.username, user.id))
  }

  function Descriptions(cs: seq<Category>): seq<string> {
    seq(|cs|, k requires 0 <= k < |cs| => cs[k].description)
  }

  /** After the `$addToSet` phase, the requested names that no category found by
      description carries are exactly the names no category carried before: the
      first phase renames nothing. */
  lemma NewNamesAreMissing(cs: seq<Category>, names: seq<string>, rid: Id)
    ensures var after := UpdateMany(cs, DescriptionIn(names), AddToSetOp(rid));
            var existingNames := Descriptions(Filter(after, (c: Category) => c.description in names));
            Filter(names, (n: string) => n !in existingNames) == MissingNames(cs, names)
  {
    var after := UpdateMany(cs, DescriptionIn(names), AddToSetOp(rid));
    var existing := Filter(after, (c: Category) => c.description in names);
    var existingNames := Descriptions(existing);
    forall k | 0 <= k < |names| ensures (names[k] !in existingNames) == !HasDescription(cs, names[k]) {
      var n := names[k];
      if HasDescription(cs, n) {
        var j :| 0 <= j < |cs| && cs[j].description == n;
        assert after[j] in existing;
        var e :| 0 <= e < |existing| && existing[e] == after[j];
        assert existingNames[e] == n;
      }
      if n in existingNames {
        var e :| 0 <= e < |existing| && existingNames[e] == n;
        assert existing[e] in after;
        var j :| 0 <= j < |after| && after[j] == existing[e];
        assert cs[j].description == n;
      }
    }
    FilterAgree(names, (n: string) => n !in existingNames, (n: string) => !HasDescription(cs, n));
  }

  /** Storing a new recipe together with `CreateSync` keeps the store well
      formed, gives the recipe a duplicate-free category list, and keeps the
      reference invariant. */
  lemma CreateKeepsStore(rs: seq<Recipe>, cs: seq<Category>, us: seq<User>, names: seq<string>, rec: Recipe, ids: seq<Id>)
    requires WellFormed(rs, cs, us)
    requires IsStoredId(rec.id) && rec.id !in RecipeIdSet(rs)
    requires NoDup(MissingNames(cs, names)) && FreshIds(cs, ids, |names|)
    requires IsStoredId(rec.owner.id)
    requires rec.categories == SelectIds(CreateSync(cs, names, rec.id, ids), DescriptionIn(names))
    ensures WellFormed(rs + [rec], CreateSync(cs, names, rec.id, ids), us)
    ensures NoDup(rec.categories)
    ensures Consistent(rs, cs) ==> Consistent(rs + [rec], CreateSync(cs, names, rec.id, ids))
  {
    var r := CreateSync(cs, names, rec.id, ids);
    CreateSyncNames(cs, names, rec.id, ids);
    CreateSyncWellFormed(cs, rs, names, rec, ids);
    assert UniqueRecipeIds(rs + [rec]) by {
      forall i | 0 <= i < |rs| ensures rs[i].id != rec.id {
        assert rs[i].id in RecipeIdSet(rs);
      }
    }
    assert UniqueCategoryIds(r);
    if Consistent(rs, cs) {
      CreateSyncConsistent(cs, rs, names, rec, ids);
    }
  }

  /** The category part of `addRecipe` for a non-empty list of names: add the recipe
      to the categories carrying those names, insert the missing ones seeded with
      it, and read back the ids of all the categories carrying the names. */
  method LinkCategories(db: Database, names: seq<string>, rid: Id, freshIds: seq<Id>) returns (ids: seq<Id>)
    requires |freshIds| >= |names|
    modifies db
    ensures db.recipes == old(db.recipes) && db.users == old(db.users)
    ensures |freshIds| >= |MissingNames(old(db.categories), names)|
    ensures db.categories == CreateSync(old(db.categories), names, rid, freshIds)
    ensures ids == SelectIds(db.categories, DescriptionIn(names))
  {
    ghost var cs0 := db.categories;
    db.categories := UpdateMany(db.categories, DescriptionIn(names), AddToSetOp(rid));
    var existing := Filter(db.categories, (c: Category) => c.description in names);
    var existingNames := Descriptions(existing);
    var newNames := Filter(names, (n: string) => n !in existingNames);
    NewNamesAreMissing(cs0, names, rid);
    if |newNames| > 0 {
      db.categories := db.categories + NewCategories(newNames, freshIds, rid);
    } else {
      assert NewCategories(newNames, freshIds, rid) == [];
    }
    ids := SelectIds(db.categories, DescriptionIn(names));
  }

  /** What `addRecipe` promises, from the store `s` before the request to the
      store `t` after it. A bad upload or body gives 400, a role outside the
      editor roles 403, a caller id that is not an object id 500 and a caller id
      whose cast no user carries 404, all without writing. Otherwise the request
      succeeds: it stores the recipe with the owner snapshot of that user and,
      through `CreateSync`, adds its id to the existing categories it names and
      creates the missing ones; the recipe's category list is then the ids of all
      the categories it names, and the reference invariant is kept. */
  predicate AddRecipeDone(s: Store, caller: Payload, upload: Upload, body: RecipeBody, newId: Id,
                          freshIds: seq<Id>, reply: Reply<Recipe>, t: Store)
  {
    && t.users == s.users
    && (upload.UploadError? ==> reply == Failure(BadRequest))
    && (!upload.UploadError? && ValidateRecipe(body).None? ==> reply == Failure(BadRequest))
    && (Accepted(upload, body) && caller.role !in EditorRoles ==> reply == Failure(Forbidden))
    && (Accepted(upload, body) && caller.role in EditorRoles && !IsHexId(caller.userId) ==>
          reply == Failure(ServerError))
    && (Accepted(upload, body) && caller.role in EditorRoles && IsHexId(caller.userId) ==>
          if UserIndex(s.users, Canon(caller.userId)).None? then reply == Failure(NotFound) else reply.Success?)
    && (reply.Failure? ==> t.recipes == s.recipes && t.categories == s.categories)
    && (reply.Success? ==>
          && Accepted(upload, body) && caller.role in EditorRoles && IsHexId(caller.userId)
          && UserIndex(s.users, Canon(caller.userId)).Some?
          && var user := s.users[UserIndex(s.users, Canon(caller.userId)).value];
             var names := ValidateRecipe(body).value.categories.GetOr([]);
             && |MissingNames(s.categories, names)| <= |freshIds|
             && reply.status == Created
             && t.categories == CreateSync(s.categories, names, newId, freshIds)
             && reply.value == NewRecipe(newId, ValidateRecipe(body).value, upload, user,
                                         SelectIds(t.categories, DescriptionIn(names)))
             && t.recipes == s.recipes + [reply.value]
             && NoDup(reply.value.categories)
             && (Consistent(s.recipes, s.categories) ==> Consistent(t.recipes, t.categories)))
  }

  /** `addRecipe`, on the shared store. */
  method AddRecipe(db: Database, caller: Payload, upload: Upload, body: RecipeBody, newId: Id, freshIds: seq<Id>)
    returns (reply: Reply<Recipe>)
    requires db.Valid()
    requires IsStoredId(newId) && newId !in RecipeIdSet(db.recipes)
    requires body.categories.Some? ==> NoDup(MissingNames(db.categories, body.categories.value))
    requires FreshIds(db.categories, freshIds, |body.categories.GetOr([])|)
    modifies db
    ensures db.Valid()
    ensures AddRecipeDone(old(db.State()), caller, upload, body, newId, freshIds, reply, db.State())
  {
    if upload.UploadError? {
      return Failure(BadRequest);
    }
    var validated := ValidateRecipe(body);
    if validated.None? {
      return Failure(BadRequest);
    }
    var v := validated.value;
    if caller.role !in EditorRoles {
      return Failure(Forbidden);
    }
    if !IsHexId(caller.userId) {
      return Failure(ServerError);
    }
    var found := UserIndex(db.users, Canon(caller.userId));
    if found.None? {
      return Failure(NotFound);
    }
    var user := db.users[found.value];
    var rs0 := db.recipes;
    ghost var cs0 := db.categories;
    var names := v.categories.GetOr([]);

    var recipe := NewRecipe(newId, v, upload, user, names);
    db.recipes := db.recipes + [recipe];
    if |names| > 0 {
      var ids := LinkCategories(db, names, newId, freshIds);
      recipe := recipe.(categories := ids);
      db.recipes := rs0 + [recipe];
    } else {
      CreateSyncNoNames(cs0, newId, freshIds);
    }
    CreateKeepsStore(rs0, cs0, db.users, names, recipe, freshIds);
    reply := Success(Created, recipe);
  }

  // ----- update -----

  /** The document `findByIdAndUpdate` leaves: the validated fields replace the
      stored ones, an absent optional field keeps its stored value, and an
      uploaded image replaces the stored one. */
  function Updated(prev: Recipe, v: RecipeFields, upload: Upload): (r: Recipe)
    ensures r.id == prev.id && r.owner == prev.owner
    ensures r.name == v.name && r.preparationTime == v.preparationTime && r.difficulty == v.difficulty
    ensures r.categories == v.categories.GetOr(prev.categories)
    ensures r.isPrivate == v.isPrivate.GetOr(prev.isPrivate)
    ensures r.imageUrl == if upload.Stored? then Some(upload.filename) else prev.imageUrl
  {
    prev.(name := v.name, preparationTime := v.preparationTime, difficulty := v.difficulty,
          categories := v.categories.GetOr(prev.categories),
          isPrivate := v.isPrivate.GetOr(prev.isPrivate),
          imageUrl := if upload.Stored? then Some(upload.filename) else prev.imageUrl)
  }

  /** The ids of a list that can be cast to object ids, so `$in` accepts them. */
  predicate AllHexIds(ids: seq<Id>) {
    forall k :: 0 <= k < |ids| ==> IsHexId(ids[k])
  }

  /** Replacing one recipe by a document with the same id, then applying either
      phase of `UpdateSync` or both, keeps the store well formed; when the new
      document lists exactly the new category ids and they all exist, the
      reference invariant is kept as well. */
  lemma UpdateKeepsStore(rs: seq<Recipe>, cs: seq<Category>, us: seq<User>, i: nat, updated: Recipe, newIds: seq<Id>)
    requires WellFormed(rs, cs, us) && i < |rs| && updated.id == rs[i].id && updated.owner == rs[i].owner
    ensures var pulled := UpdateMany(cs, IdIn(Removed(rs[i].categories, newIds)), PullOp(rs[i].id));
            && WellFormed(rs[i := updated], cs, us)
            && WellFormed(rs[i := updated], pulled, us)
            && WellFormed(rs[i := updated], UpdateSync(cs, rs[i].categories, newIds, rs[i].id), us)
    ensures Consistent(rs, cs) && updated.categories == newIds && SetOf(newIds) <= CategoryIdSet(cs) ==>
              Consistent(rs[i := updated], UpdateSync(cs, rs[i].categories, newIds, rs[i].id))
  {
    var rs' := rs[i := updated];
    assert RecipeIdSet(rs') == RecipeIdSet(rs) by {
      forall x | x in RecipeIdSet(rs) ensures x in RecipeIdSet(rs') {
        var k :| 0 <= k < |rs| && rs[k].id == x;
        assert rs'[k].id == x;
      }
    }
    assert RecipesWellFormed(rs');
    assert rs[i].id in RecipeIdSet(rs);
    PullKeepsWellFormed(cs, rs, rs', IdIn(Removed(rs[i].categories, newIds)), rs[i].id);
    UpdateSyncWellFormed(cs, rs, rs', rs[i].categories, newIds, rs[i].id);
    if Consistent(rs, cs) && updated.categories == newIds && SetOf(newIds) <= CategoryIdSet(cs) {
      UpdateSyncConsistent(cs, rs, i, updated);
    }
  }

  /** The category part of `updateRecipes`: pull `rid` from the categories in old
      minus new, then add it to the categories in new. Either `updateMany` fails
      when its id list holds a string that is not an object id; what the first
      one wrote stays written. */
  method SyncUpdate(db: Database, oldIds: seq<Id>, newIds: seq<Id>, rid: Id) returns (ok: bool)
    modifies db
    ensures db.recipes == old(db.recipes) && db.users == old(db.users)
    ensures ok <==> AllHexIds(Removed(oldIds, newIds)) && AllHexIds(newIds)
    ensures !AllHexIds(Removed(oldIds, newIds)) ==> db.categories == old(db.categories)
    ensures AllHexIds(Removed(oldIds, newIds)) && !AllHexIds(newIds) ==>
              db.categories == UpdateMany(old(db.categories), IdIn(Removed(oldIds, newIds)), PullOp(rid))
    ensures ok ==> db.categories == UpdateSync(old(db.categories), oldIds, newIds, rid)
  {
    var toRemove := Filter(oldIds, (c: Id) => c !in newIds);
    if |toRemove| > 0 {
      if !AllHexIds(toRemove) {
        return false;
      }
      db.categories := UpdateMany(db.categories, IdIn(toRemove), PullOp(rid));
    } else {
      assert UpdateMany(db.categories, IdIn(toRemove), PullOp(rid)) == db.categories;
    }
    if |newIds| > 0 {
      if !AllHexIds(newIds) {
        return false;
      }
      db.categories := UpdateMany(db.categories, IdIn(newIds), AddToSetOp(rid));
    } else {
      assert UpdateMany(db.categories, IdIn(newIds), AddToSetOp(rid)) == db.categories;
    }
    ok := true;
  }

  /** What `updateRecipes` promises, from the store `s` before the request to the
      store `t` after it. A bad upload, a bad body or a malformed id gives 400, a
      role outside the editor roles 403 and an id whose cast no recipe carries
      404, all without writing. Otherwise the recipe document is rewritten, then
      the recipe is pulled from the categories it listed before and no longer
      lists, then added to the categories it now lists, and the reply is the new
      document. A category id that cannot be cast to an object id stops the
      request with 500 at the step that uses it, after the steps before it have
      written. When the body lists existing categories the reference invariant is
      kept. */
  predicate UpdateRecipesDone(s: Store, caller: Payload, upload: Upload, id: string, body: RecipeBody,
                              reply: Reply<Recipe>, t: Store)
  {
    && t.users == s.users
    && (!Accepted(upload, body) ==> reply == Failure(BadRequest))
    && (Accepted(upload, body) && !IsHexId(id) ==> reply == Failure(BadRequest))
    && (Accepted(upload, body) && IsHexId(id) && caller.role !in EditorRoles ==> reply == Failure(Forbidden))
    && (Accepted(upload, body) && IsHexId(id) && caller.role in EditorRoles ==>
          if Canon(id) !in RecipeIdSet(s.recipes) then reply == Failure(NotFound)
          else reply.Success? || reply == Failure(ServerError))
    && (reply.Failure? && reply.status != ServerError ==> t.recipes == s.recipes && t.categories == s.categories)
    && (reply.Success? || reply.status == ServerError ==>
          && Accepted(upload, body) && IsHexId(id) && caller.role in EditorRoles
          && RecipeIndex(s.recipes, Canon(id)).Some?
          && var i := RecipeIndex(s.recipes, Canon(id)).value;
             var prev := s.recipes[i];
             var v := ValidateRecipe(body).value;
             var newIds := v.categories.GetOr([]);
             var removed := Removed(prev.categories, newIds);
             && t.recipes == s.recipes[i := Updated(prev, v, upload)]
             && (!AllHexIds(removed) ==>
                   reply == Failure(ServerError) && t.categories == s.categories)
             && (AllHexIds(removed) && !AllHexIds(newIds) ==>
                   reply == Failure(ServerError) &&
                   t.categories == UpdateMany(s.categories, IdIn(removed), PullOp(Canon(id))))
             && (AllHexIds(removed) && AllHexIds(newIds) ==>
                   reply == Success(OK, Updated(prev, v, upload)) &&
                   t.categories == UpdateSync(s.categories, prev.categories, newIds, Canon(id)))
             && (reply.Success? && Consistent(s.recipes, s.categories) &&
                 v.categories.Some? && SetOf(v.categories.value) <= CategoryIdSet(s.categories) ==>
                   Consistent(t.recipes, t.categories)))
  }

  /** `updateRecipes`, on the shared store. */
  method UpdateRecipes(db: Database, caller: Payload, upload: Upload, id: string, body: RecipeBody)
    returns (reply: Reply<Recipe>)
    requires db.Valid()
    modifies db
    ensures db.Valid()
    ensures UpdateRecipesDone(old(db.State()), caller, upload, id, body, reply, db.State())
  {
    if upload.UploadError? {
      return Failure(BadRequest);
    }
    var validated := ValidateRecipe(body);
    if validated.None? {
      return Failure(BadRequest);
    }
    var v := validated.value;
    if !IsHexId(id) {
      return Failure(BadRequest);
    }
    if caller.role !in EditorRoles {
      return Failure(Forbidden);
    }
    var rid := Canon(id);
    var found := RecipeIndex(db.recipes, rid);
    if found.None? {
      return Failure(NotFound);
    }
    var i := found.value;
    var prev := db.recipes[i];
    var updated := Updated(prev, v, upload);
    var newIds := v.categories.GetOr([]);
    UpdateKeepsStore(db.recipes, db.categories, db.users, i, updated, newIds);
    db.recipes := db.recipes[i := updated];
    var ok := SyncUpdate(db, prev.categories, newIds, rid);
    if !ok {
      return Failure(ServerError);
    }
    reply := Success(OK, updated);
  }

  /** An update whose body leaves out `categories` pulls the recipe from every
      category it listed, while the stored recipe keeps listing them: the
      reference invariant is lost. One stored recipe in one category shows it. */
  lemma OmittedCategoriesBreakConsistency()
    ensures var rid := "0123456789abcdef01234567";
            var cid := "89abcdef0123456789abcdef";
            var prev := Recipe(rid, "soup", 30, Easy, [cid], false, None, Owner("dana", "00000000000000000000000a"));
            var cat := Category(cid, "soups", [rid]);
            var v := RecipeFields("soup", 45, Medium, None, None);
            && Consistent([prev], [cat])
            && Updated(prev, v, NoFile).categories == [cid]
            && UpdateSync([cat], prev.categories, [], rid) == [Category(cid, "soups", [])]
            && !Consistent([Updated(prev, v, NoFile)], UpdateSync([cat], prev.categories, [], rid))
  {
    var rid := "0123456789abcdef01234567";
    var cid := "89abcdef0123456789abcdef";
    var prev := Recipe(rid, "soup", 30, Easy, [cid], false, None, Owner("dana", "00000000000000000000000a"));
    var cat := Category(cid, "soups", [rid]);
    var v := RecipeFields("soup", 45, Medium, None, None);
    assert Selects(Holding(rid), [cat][0]) && [cat][0].id == cid;
    assert Holders([cat], rid) == {cid};
    assert SetOf([cid]) == {cid};
    assert Removed([cid], []) == [cid];
    var after := UpdateSync([cat], prev.categories, [], rid);
    assert after[0].recipes == Pull([rid], rid) == [];
    assert after == [Category(cid, "soups", [])];
    assert Holders(after, rid) == {};
    assert Consistent([prev], [cat]);
    var rs' := [Updated(prev, v, NoFile)];
    assert SetOf(rs'[0].categories) != Holders(after, rs'[0].id) by {
      assert cid in SetOf(rs'[0].categories);
    }
  }

  // ----- delete -----

  /** What `deleteRecipe` promises, from the store `s` before the request to the
      store `t` after it. A malformed id gives 400, a role outside the editor
      roles 403 and an id whose cast no recipe carries 404, all without writing.
      Otherwise the request succeeds with 204: the id is pulled from every
      category that holds it, whatever the recipe itself lists, the recipe is
      removed, and the reference invariant is kept. */
  predicate DeleteRecipeDone(s: Store, caller: Payload, id: string, reply: Reply<()>, t: Store) {
    && t.users == s.users
    && (!IsHexId(id) ==> reply == Failure(BadRequest))
    && (IsHexId(id) && caller.role !in EditorRoles ==> reply == Failure(Forbidden))
    && (IsHexId(id) && caller.role in EditorRoles ==>
          if Canon(id) !in RecipeIdSet(s.recipes) then reply == Failure(NotFound) else reply.Success?)
    && (reply.Failure? ==> t.recipes == s.recipes && t.categories == s.categories)
    && (reply.Success? ==>
          && reply.status == NoContent
          && IsHexId(id) && caller.role in EditorRoles
          && RecipeIndex(s.recipes, Canon(id)).Some?
          && t.recipes == RemoveAt(s.recipes, RecipeIndex(s.recipes, Canon(id)).value)
          && t.categories == DeleteSync(s.categories, Canon(id))
          && Canon(id) !in RecipeIdSet(t.recipes)
          && Holders(t.categories, Canon(id)) == {}
          && (Consistent(s.recipes, s.categories) ==> Consistent(t.recipes, t.categories)))
  }

  /** `deleteRecipe`, on the shared store. */
  method DeleteRecipe(db: Database, caller: Payload, id: string) returns (reply: Reply<()>)
    requires db.Valid()
    modifies db
    ensures db.Valid()
    ensures DeleteRecipeDone(old(db.State()), caller, id, reply, db.State())
  {
    if !IsHexId(id) {
      return Failure(BadRequest);
    }
    if caller.role !in EditorRoles {
      return Failure(Forbidden);
    }
    var rid := Canon(id);
    var found := RecipeIndex(db.recipes, rid);
    if found.None? {
      return Failure(NotFound);
    }
    var i := found.value;
    ghost var rs0, cs0 := db.recipes, db.categories;
    db.categories := UpdateMany(db.categories, Holding(rid), PullOp(rid));
    db.recipes := RemoveAt(db.recipes, i);
    RemoveAtIds(rs0, i);
    DeleteSyncSpec(cs0, rid);
    DeleteSyncWellFormed(cs0, rs0, i);
    assert RecipesWellFormed(db.recipes);
    if Consistent(rs0, cs0) {
      DeleteSyncConsistent(cs0, rs0, i);
    }
    reply := Success(NoContent, ());
  }
}
