/** The three collections of the document store (recipes, categories, users),
    the array operators the handlers apply to a category's `recipes` list, and the
    invariants the store keeps. Each collection is a sequence of documents in
    natural (insertion) order. */
module Models {
  import opened Common

  /** The owner snapshot embedded in a recipe. */
  datatype Owner = Owner(name: string, id: Id)

  datatype Difficulty = Easy | Medium | Hard

  datatype Recipe = Recipe(
    id: Id,
    name: string,
    preparationTime: int,
    difficulty: Difficulty,
    categories: seq<Id>,
    isPrivate: bool,
    imageUrl: Option<string>,
    owner: Owner)

  datatype Category = Category(id: Id, description: string, recipes: seq<Id>)

  datatype User = User(
    id: Id,
    username: string,
    email: string,
    password: string,
    role: string,
    address: Option<string>)

  /** The role a user document gets when none is given. */
  const DefaultRole := "registered user"

  // ----- the array operators of updateMany -----

  /** `$addToSet`: append `x` unless it is already there. */
  function AddToSet(s: seq<Id>, x: Id): (r: seq<Id>)
    ensures forall y :: y in r <==> y == x || y in s
    ensures x in s ==> r == s
    ensures NoDup(s) ==> NoDup(r)
  {
    if x in s then s else s + [x]
  }

  /** After `$addToSet` on a duplicate-free list the id is there exactly once. */
  lemma AddToSetOnce(s: seq<Id>, x: Id)
    requires NoDup(s)
    ensures Count(AddToSet(s, x), x) == 1
  {
    CountInNoDup(AddToSet(s, x), x);
  }

  /** `$pull`: remove every occurrence of `x`, keeping the rest in order. */
  function Pull(s: seq<Id>, x: Id): (r: seq<Id>)
    ensures x !in r
    ensures forall y :: y != x ==> (y in r <==> y in s)
    ensures Subsequence(r, s)
    ensures x !in s ==> r == s
    ensures NoDup(s) ==> NoDup(r)
  {
    if s == [] then []
    else
      var rest := Pull(s[1..], x);
      assert forall y :: y in s <==> y == s[0] || y in s[1..];
      assert NoDup(s) ==> NoDup(s[1..]) && s[0] !in s[1..] by {
        if NoDup(s) {
          forall i, j | 0 <= i < j < |s[1..]| ensures s[1..][i] != s[1..][j] {
            assert s[1..][i] == s[i + 1] && s[1..][j] == s[j + 1];
          }
          forall k | 0 <= k < |s[1..]| ensures s[1..][k] != s[0] {
            assert s[1..][k] == s[k + 1];
          }
        }
      }
      if s[0] == x then rest
      else
        var r := [s[0]] + rest;
        assert r[1..] == rest;
        assert x !in s ==> r == s by {
          if x !in s {
            assert x !in s[1..];
            assert s == [s[0]] + s[1..];
          }
        }
        assert NoDup(s) ==> NoDup(r) by {
          if NoDup(s) {
            forall i, j | 0 <= i < j < |r| ensures r[i] != r[j] {
              if i == 0 {
                assert r[j] == rest[j - 1];
                assert r[j] in rest;
              } else {
                assert r[i] == rest[i - 1] && r[j] == rest[j - 1];
              }
            }
          }
        }
        r
  }

  /** Pulling twice is pulling once. */
  lemma PullIdempotent(s: seq<Id>, x: Id)
    ensures Pull(Pull(s, x), x) == Pull(s, x)
  {
  }

  /** Adding twice is adding once. */
  lemma AddToSetIdempotent(s: seq<Id>, x: Id)
    ensures AddToSet(AddToSet(s, x), x) == AddToSet(s, x)
  {
  }

  // ----- updateMany on the categories collection -----

  /** The query filters the handlers use on categories. */
  datatype Selector =
    | DescriptionIn(names: seq<string>)   // { description: { $in: names } }
    | IdIn(ids: seq<Id>)                  // { _id: { $in: ids } }
    | Holding(rid: Id)                    // { recipes: rid }

  predicate Selects(f: Selector, c: Category) {
    match f
    case DescriptionIn(names) => c.description in names
    case IdIn(ids) => c.id in ids
    case Holding(rid) => rid in c.recipes
  }

  datatype ArrayUpdate = AddToSetOp(x: Id) | PullOp(x: Id)

  function Apply(u: ArrayUpdate, s: seq<Id>): seq<Id> {
    match u
    case AddToSetOp(x) => AddToSet(s, x)
    case PullOp(x) => Pull(s, x)
  }

  function UpdateOne(c: Category, f: Selector, u: ArrayUpdate): Category {
    if Selects(f, c) then c.(recipes := Apply(u, c.recipes)) else c
  }

  /** `updateMany(filter, update)`: the update applied to every selected document.
      No document is added, removed, moved or renamed, and a document the filter
      does not select is left as it was. */
  function UpdateMany(cs: seq<Category>, f: Selector, u: ArrayUpdate): (r: seq<Category>)
    ensures |r| == |cs|
    ensures forall j :: 0 <= j < |cs| ==> r[j].id == cs[j].id && r[j].description == cs[j].description
    ensures forall j :: 0 <= j < |cs| && Selects(f, cs[j]) ==> r[j].recipes == Apply(u, cs[j].recipes)
    ensures forall j :: 0 <= j < |cs| && !Selects(f, cs[j]) ==> r[j] == cs[j]
  {
    seq(|cs|, j requires 0 <= j < |cs| => UpdateOne(cs[j], f, u))
  }

  /** The ids of the categories a filter selects. */
  function Selected(cs: seq<Category>, f: Selector): set<Id> {
    set j | 0 <= j < |cs| && Selects(f, cs[j]) :: cs[j].id
  }

  /** The categories whose `recipes` list names `rid`. */
  function Holders(cs: seq<Category>, rid: Id): set<Id> {
    Selected(cs, Holding(rid))
  }

  /** `find(filter).select('_id')`: the selected ids in natural order. */
  function SelectIds(cs: seq<Category>, f: Selector): (r: seq<Id>)
    ensures SetOf(r) == Selected(cs, f)
    ensures UniqueCategoryIds(cs) ==> NoDup(r)
  {
    if cs == [] then []
    else
      var rest := SelectIds(cs[1..], f);
      SelectedCons(cs, f);
      assert UniqueCategoryIds(cs) ==> UniqueCategoryIds(cs[1..]) && cs[0].id !in Selected(cs[1..], f);
      if Selects(f, cs[0]) then
        var r := [cs[0].id] + rest;
        assert SetOf(r) == {cs[0].id} + SetOf(rest);
        assert r[1..] == rest;
        assert UniqueCategoryIds(cs) ==> NoDup(r) by {
          if UniqueCategoryIds(cs) {
            forall i, j | 0 <= i < j < |r| ensures r[i] != r[j] {
              if i == 0 {
                assert r[j] in SetOf(rest);
              } else {
                assert r[i] == rest[i - 1] && r[j] == rest[j - 1];
              }
            }
          }
        }
        r
      else
        rest
  }

  lemma SelectedCons(cs: seq<Category>, f: Selector)
    requires cs != []
    ensures Selected(cs, f) == (if Selects(f, cs[0]) then {cs[0].id} else {}) + Selected(cs[1..], f)
  {
    var tail := cs[1..];
    forall x | x in Selected(cs, f)
      ensures x in (if Selects(f, cs[0]) then {cs[0].id} else {}) + Selected(tail, f)
    {
      var j :| 0 <= j < |cs| && Selects(f, cs[j]) && cs[j].id == x;
      if j > 0 {
        assert tail[j - 1] == cs[j];
      }
    }
    forall x | x in Selected(tail, f) ensures x in Selected(cs, f) {
      var j :| 0 <= j < |tail| && Selects(f, tail[j]) && tail[j].id == x;
      assert cs[j + 1] == tail[j];
    }
  }

  /** Two filters that agree on every document select the same ids. */
  lemma SelectedAgree(cs: seq<Category>, f: Selector, g: Selector)
    requires forall j :: 0 <= j < |cs| ==> (Selects(f, cs[j]) <==> Selects(g, cs[j]))
    ensures Selected(cs, f) == Selected(cs, g)
  {
  }

  // ----- invariants of the store -----

  function RecipeIdSet(rs: seq<Recipe>): set<Id> {
    set i | 0 <= i < |rs| :: rs[i].id
  }

  function CategoryIdSet(cs: seq<Category>): set<Id> {
    set j | 0 <= j < |cs| :: cs[j].id
  }

  predicate UniqueRecipeIds(rs: seq<Recipe>) {
    forall i, k :: 0 <= i < k < |rs| ==> rs[i].id != rs[k].id
  }

  predicate UniqueCategoryIds(cs: seq<Category>) {
    forall i, k :: 0 <= i < k < |cs| ==> cs[i].id != cs[k].id
  }

  /** The unique index on `description`. */
  predicate UniqueDescriptions(cs: seq<Category>) {
    forall i, k :: 0 <= i < k < |cs| ==> cs[i].description != cs[k].description
  }

  predicate UniqueUserIds(us: seq<User>) {
    forall i, k :: 0 <= i < k < |us| ==> us[i].id != us[k].id
  }

  /** The unique index on `email`. */
  predicate UniqueEmails(us: seq<User>) {
    forall i, k :: 0 <= i < k < |us| ==> us[i].email != us[k].email
  }

  /** Recipe ids are unique and in the stored form, and so is every owner id:
      an owner snapshot copies the id of a stored user. */
  predicate RecipesWellFormed(rs: seq<Recipe>) {
    UniqueRecipeIds(rs) && forall i :: 0 <= i < |rs| ==> IsStoredId(rs[i].id) && IsStoredId(rs[i].owner.id)
  }

  /** Category ids are unique and in the stored form, descriptions are unique,
      every `recipes` list is free of duplicates and names only stored recipes. */
  predicate CategoriesWellFormed(cs: seq<Category>, rs: seq<Recipe>) {
    && UniqueCategoryIds(cs)
    && UniqueDescriptions(cs)
    && forall j :: 0 <= j < |cs| ==>
         IsStoredId(cs[j].id) && NoDup(cs[j].recipes) && SetOf(cs[j].recipes) <= RecipeIdSet(rs)
  }

  predicate UsersWellFormed(us: seq<User>) {
    UniqueUserIds(us) && UniqueEmails(us) && forall i :: 0 <= i < |us| ==> IsStoredId(us[i].id)
  }

  predicate WellFormed(rs: seq<Recipe>, cs: seq<Category>, us: seq<User>) {
    RecipesWellFormed(rs) && CategoriesWellFormed(cs, rs) && UsersWellFormed(us)
  }

  /** The bidirectional reference invariant: the categories a recipe lists are
      exactly the categories that list the recipe. */
  predicate Consistent(rs: seq<Recipe>, cs: seq<Category>) {
    forall i :: 0 <= i < |rs| ==> SetOf(rs[i].categories) == Holders(cs, rs[i].id)
  }

  // ----- lookups -----

  /** `findById` on recipes: the position of the recipe with that id. */
  function RecipeIndex(rs: seq<Recipe>, id: Id): (r: Option<nat>)
    ensures r.Some? ==> r.value < |rs| && rs[r.value].id == id
    ensures r.None? <==> id !in RecipeIdSet(rs)
  {
    var r := Find(rs, (x: Recipe) => x.id == id);
    assert r.None? ==> id !in RecipeIdSet(rs);
    r
  }

  /** `findById` on users. */
  function UserIndex(us: seq<User>, id: Id): (r: Option<nat>)
    ensures r.Some? ==> r.value < |us| && us[r.value].id == id
    ensures r.None? ==> forall i :: 0 <= i < |us| ==> us[i].id != id
  {
    Find(us, (u: User) => u.id == id)
  }

  /** `findOne({ email })` on users: the first user in natural order that has
      the email. */
  function UserByEmail(us: seq<User>, email: string): (r: Option<nat>)
    ensures r.Some? ==> r.value < |us| && us[r.value].email == email
    ensures r.Some? ==> forall j :: 0 <= j < r.value ==> us[j].email != email
    ensures r.None? ==> forall i :: 0 <= i < |us| ==> us[i].email != email
  {
    Find(us, (u: User) => u.email == email)
  }

  /** The three collections at one moment. */
  datatype Store = Store(recipes: seq<Recipe>, categories: seq<Category>, users: seq<User>)

  /** The store the handlers share. */
  class Database {
    var recipes: seq<Recipe>
    var categories: seq<Category>
    var users: seq<User>

    constructor ()
      ensures recipes == [] && categories == [] && users == []
      ensures Valid()
    {
      recipes, categories, users := [], [], [];
    }

    predicate Valid()
      reads this
    {
      WellFormed(recipes, categories, users)
    }

    /** The collections as they stand. */
    function State(): Store
      reads this
    {
      Store(recipes, categories, users)
    }
  }
}
