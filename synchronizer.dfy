/** How the three recipe mutations change the categories collection, stated as
    functions of the collection before the change, and what each change keeps:
    the store's well-formedness and the bidirectional reference invariant. */
module Synchronizer {
  import opened Common
  import opened Models

  // ----- creating a recipe: name-keyed, two phases -----

  predicate HasDescription(cs: seq<Category>, n: string) {
    exists j :: 0 <= j < |cs| && cs[j].description == n
  }

  /** The requested names no category carries yet, in request order. */
  function MissingNames(cs: seq<Category>, names: seq<string>): (m: seq<string>)
    ensures forall n :: n in m <==> n in names && !HasDescription(cs, n)
    ensures Subsequence(m, names) && |m| <= |names|
  {
    Filter(names, (n: string) => !HasDescription(cs, n))
  }

  /** The documents `insertMany` adds: one per missing name, seeded with the new recipe. */
  function NewCategories(names: seq<string>, ids: seq<Id>, rid: Id): seq<Category>
    requires |ids| >= |names|
  {
    seq(|names|, k requires 0 <= k < |names| => Category(ids[k], names[k], [rid]))
  }

  /** Ids the store may hand out for `n` new categories: well-formed, distinct and unused. */
  predicate FreshIds(cs: seq<Category>, ids: seq<Id>, n: nat) {
    && n <= |ids|
    && NoDup(ids)
    && forall k :: 0 <= k < |ids| ==> IsStoredId(ids[k]) && ids[k] !in CategoryIdSet(cs)
  }

  /** The categories after `addRecipe`: `$addToSet` of the new id on the existing
      categories with a requested name, then one new category per missing name. */
  function CreateSync(cs: seq<Category>, names: seq<string>, rid: Id, ids: seq<Id>): seq<Category>
    requires |ids| >= |MissingNames(cs, names)|
  {
    UpdateMany(cs, DescriptionIn(names), AddToSetOp(rid)) + NewCategories(MissingNames(cs, names), ids, rid)
  }

  /** What the two phases leave: the old categories in place with their ids and
      descriptions, the unrequested ones untouched, and a fresh category with
      `recipes == [rid]` for each missing name. */
  lemma CreateSyncShape(cs: seq<Category>, names: seq<string>, rid: Id, ids: seq<Id>)
    requires |ids| >= |MissingNames(cs, names)|
    ensures var r := CreateSync(cs, names, rid, ids);
            var m := MissingNames(cs, names);
            && |r| == |cs| + |m|
            && (forall n :: n in m <==> n in names && !HasDescription(cs, n))
            && (forall j :: 0 <= j < |cs| ==> r[j].id == cs[j].id && r[j].description == cs[j].description)
            && (forall j :: 0 <= j < |cs| && cs[j].description !in names ==> r[j] == cs[j])
            && (forall k :: 0 <= k < |m| ==> r[|cs| + k] == Category(ids[k], m[k], [rid]))
  {
  }

  /** After creation every requested name is the description of exactly one
      category. */
  lemma CreateSyncNames(cs: seq<Category>, names: seq<string>, rid: Id, ids: seq<Id>)
    requires UniqueDescriptions(cs) && NoDup(MissingNames(cs, names))
    requires |ids| >= |MissingNames(cs, names)|
    ensures var r := CreateSync(cs, names, rid, ids);
            && UniqueDescriptions(r)
            && forall n :: n in names ==> exists j :: 0 <= j < |r| && r[j].description == n
  {
    var r := CreateSync(cs, names, rid, ids);
    var m := MissingNames(cs, names);
    CreateSyncShape(cs, names, rid, ids);
    forall i, k | 0 <= i < k < |r| ensures r[i].description != r[k].description {
      if k < |cs| {
      } else if i < |cs| {
        assert r[k].description == m[k - |cs|];
        assert m[k - |cs|] in m;
        assert !HasDescription(cs, m[k - |cs|]);
      } else {
        assert r[i].description == m[i - |cs|] && r[k].description == m[k - |cs|];
      }
    }
    forall n | n in names ensures exists j :: 0 <= j < |r| && r[j].description == n {
      if HasDescription(cs, n) {
        var j :| 0 <= j < |cs| && cs[j].description == n;
        assert r[j].description == n;
      } else {
        assert n in m;
        var k :| 0 <= k < |m| && m[k] == n;
        assert r[|cs| + k].description == n;
      }
    }
  }

  /** After creation a category holds the new recipe exactly when its
      description was requested, and then exactly once; every other member of
      every old list is as before. */
  lemma CreateSyncMembers(cs: seq<Category>, rs: seq<Recipe>, names: seq<string>, rid: Id, ids: seq<Id>)
    requires CategoriesWellFormed(cs, rs) && rid !in RecipeIdSet(rs)
    requires |ids| >= |MissingNames(cs, names)|
    ensures var r := CreateSync(cs, names, rid, ids);
            && (forall j :: 0 <= j < |r| ==> (rid in r[j].recipes <==> r[j].description in names))
            && (forall j :: 0 <= j < |r| && r[j].description in names ==> Count(r[j].recipes, rid) == 1)
            && (forall j, y :: 0 <= j < |cs| && y != rid ==> (y in r[j].recipes <==> y in cs[j].recipes))
  {
    var r := CreateSync(cs, names, rid, ids);
    var m := MissingNames(cs, names);
    CreateSyncShape(cs, names, rid, ids);
    forall j | 0 <= j < |r|
      ensures rid in r[j].recipes <==> r[j].description in names
      ensures r[j].description in names ==> Count(r[j].recipes, rid) == 1
    {
      if j < |cs| {
        assert rid !in SetOf(cs[j].recipes);
        if cs[j].description in names {
          AddToSetOnce(cs[j].recipes, rid);
        }
      } else {
        assert r[j] == Category(ids[j - |cs|], m[j - |cs|], [rid]);
        assert m[j - |cs|] in m;
      }
    }
  }

  /** Creation keeps the categories well-formed once the new recipe is stored. */
  lemma CreateSyncWellFormed(cs: seq<Category>, rs: seq<Recipe>, names: seq<string>, rec: Recipe, ids: seq<Id>)
    requires CategoriesWellFormed(cs, rs) && rec.id !in RecipeIdSet(rs)
    requires NoDup(MissingNames(cs, names))
    requires FreshIds(cs, ids, |MissingNames(cs, names)|)
    ensures CategoriesWellFormed(CreateSync(cs, names, rec.id, ids), rs + [rec])
  {
    var r := CreateSync(cs, names, rec.id, ids);
    var m := MissingNames(cs, names);
    var rs' := rs + [rec];
    CreateSyncShape(cs, names, rec.id, ids);
    CreateSyncNames(cs, names, rec.id, ids);
    CreateSyncMembers(cs, rs, names, rec.id, ids);
    assert RecipeIdSet(rs') == RecipeIdSet(rs) + {rec.id} by {
      forall x | x in RecipeIdSet(rs) ensures x in RecipeIdSet(rs') {
        var i :| 0 <= i < |rs| && rs[i].id == x;
        assert rs'[i] == rs[i];
      }
      assert rs'[|rs|] == rec;
    }
    forall i, k | 0 <= i < k < |r| ensures r[i].id != r[k].id {
      if k >= |cs| && i < |cs| {
        assert r[k].id == ids[k - |cs|];
        assert r[i].id in CategoryIdSet(cs);
      } else if k >= |cs| {
        assert r[i].id == ids[i - |cs|] && r[k].id == ids[k - |cs|];
      }
    }
    forall j | 0 <= j < |r|
      ensures IsStoredId(r[j].id) && NoDup(r[j].recipes) && SetOf(r[j].recipes) <= RecipeIdSet(rs')
    {
      if j >= |cs| {
        assert r[j] == Category(ids[j - |cs|], m[j - |cs|], [rec.id]);
      } else {
        forall y | y in SetOf(r[j].recipes) ensures y in RecipeIdSet(rs') {
          if y != rec.id {
            assert y in SetOf(cs[j].recipes);
          }
        }
      }
    }
  }

  /** Creation keeps the bidirectional invariant: the new recipe lists exactly
      the categories with a requested name, and those are exactly the ones that
      now list it. */
  lemma CreateSyncConsistent(cs: seq<Category>, rs: seq<Recipe>, names: seq<string>, rec: Recipe, ids: seq<Id>)
    requires CategoriesWellFormed(cs, rs) && rec.id !in RecipeIdSet(rs)
    requires Consistent(rs, cs)
    requires |ids| >= |MissingNames(cs, names)|
    requires forall k :: 0 <= k < |ids| ==> ids[k] != ""
    requires SetOf(rec.categories) == Selected(CreateSync(cs, names, rec.id, ids), DescriptionIn(names))
    ensures Consistent(rs + [rec], CreateSync(cs, names, rec.id, ids))
  {
    var r := CreateSync(cs, names, rec.id, ids);
    var rs' := rs + [rec];
    CreateSyncShape(cs, names, rec.id, ids);
    CreateSyncMembers(cs, rs, names, rec.id, ids);
    SelectedAgree(r, Holding(rec.id), DescriptionIn(names));
    assert forall j :: |cs| <= j < |r| ==> r[j].recipes == [rec.id];
    forall i | 0 <= i < |rs'| ensures SetOf(rs'[i].categories) == Holders(r, rs'[i].id) {
      if i < |rs| {
        var y := rs[i].id;
        assert rs'[i] == rs[i];
        assert y != rec.id by {
          assert y in RecipeIdSet(rs);
        }
        forall x | x in Holders(r, y) ensures x in Holders(cs, y) {
          var j :| 0 <= j < |r| && y in r[j].recipes && r[j].id == x;
        }
        forall x | x in Holders(cs, y) ensures x in Holders(r, y) {
          var j :| 0 <= j < |cs| && y in cs[j].recipes && cs[j].id == x;
          assert y in r[j].recipes && r[j].id == x;
        }
      } else {
        assert rs'[i] == rec;
      }
    }
  }

  // ----- updating a recipe: id-keyed -----

  /** The old category ids that are not among the new ones. */
  function Removed(oldIds: seq<Id>, newIds: seq<Id>): (r: seq<Id>)
    ensures forall c :: c in r <==> c in oldIds && c !in newIds
    ensures Subsequence(r, oldIds)
  {
    Filter(oldIds, (c: Id) => c !in newIds)
  }

  /** The categories after `updateRecipes`: `$pull` from the categories in
      old minus new, then `$addToSet` into the categories in new. */
  function UpdateSync(cs: seq<Category>, oldIds: seq<Id>, newIds: seq<Id>, rid: Id): seq<Category> {
    UpdateMany(UpdateMany(cs, IdIn(Removed(oldIds, newIds)), PullOp(rid)), IdIn(newIds), AddToSetOp(rid))
  }

  /** An update creates no category and renames none; a category in the new list
      holds the recipe once, one in old minus new no longer holds it, one in
      neither list is untouched, one in both that already held it is untouched,
      and no other member of any list changes. */
  lemma UpdateSyncSpec(cs: seq<Category>, oldIds: seq<Id>, newIds: seq<Id>, rid: Id)
    ensures var r := UpdateSync(cs, oldIds, newIds, rid);
            && |r| == |cs|
            && (forall j :: 0 <= j < |cs| ==> r[j].id == cs[j].id && r[j].description == cs[j].description)
            && (forall j :: 0 <= j < |cs| && cs[j].id in newIds ==>
                  rid in r[j].recipes && (NoDup(cs[j].recipes) ==> Count(r[j].recipes, rid) == 1))
            && (forall j :: 0 <= j < |cs| && cs[j].id in oldIds && cs[j].id !in newIds ==> rid !in r[j].recipes)
            && (forall j :: 0 <= j < |cs| && cs[j].id !in oldIds && cs[j].id !in newIds ==> r[j] == cs[j])
            && (forall j :: 0 <= j < |cs| && cs[j].id in newIds && rid in cs[j].recipes ==> r[j] == cs[j])
            && (forall j, y :: 0 <= j < |cs| && y != rid ==> (y in r[j].recipes <==> y in cs[j].recipes))
  {
    var r := UpdateSync(cs, oldIds, newIds, rid);
    var rem := Removed(oldIds, newIds);
    var mid := UpdateMany(cs, IdIn(rem), PullOp(rid));
    forall j | 0 <= j < |cs| && cs[j].id in newIds
      ensures rid in r[j].recipes && (NoDup(cs[j].recipes) ==> Count(r[j].recipes, rid) == 1)
    {
      assert cs[j].id !in rem;
      assert mid[j] == cs[j];
      if NoDup(cs[j].recipes) {
        AddToSetOnce(cs[j].recipes, rid);
      }
    }
    forall j | 0 <= j < |cs| && cs[j].id in oldIds && cs[j].id !in newIds
      ensures rid !in r[j].recipes
    {
      assert cs[j].id in rem;
    }
  }

  /** With a well-formed store, an update that keeps the recipe's id keeps the
      categories well-formed. */
  lemma UpdateSyncWellFormed(cs: seq<Category>, rs: seq<Recipe>, rs': seq<Recipe>, oldIds: seq<Id>, newIds: seq<Id>, rid: Id)
    requires CategoriesWellFormed(cs, rs)
    requires RecipeIdSet(rs') == RecipeIdSet(rs) && rid in RecipeIdSet(rs)
    ensures CategoriesWellFormed(UpdateSync(cs, oldIds, newIds, rid), rs')
  {
    var r := UpdateSync(cs, oldIds, newIds, rid);
    UpdateSyncSpec(cs, oldIds, newIds, rid);
    forall j | 0 <= j < |r| ensures NoDup(r[j].recipes) && SetOf(r[j].recipes) <= RecipeIdSet(rs') {
      forall y | y in SetOf(r[j].recipes) ensures y in RecipeIdSet(rs') {
        if y != rid {
          assert y in SetOf(cs[j].recipes);
        }
      }
    }
  }

  /** With a consistent store, an update that sets the recipe's category list to
      `newIds` keeps the invariant, provided every id in `newIds` names a stored
      category. */
  lemma UpdateSyncConsistent(cs: seq<Category>, rs: seq<Recipe>, i: nat, newRecipe: Recipe)
    requires i < |rs| && UniqueRecipeIds(rs) && Consistent(rs, cs)
    requires newRecipe.id == rs[i].id
    requires SetOf(newRecipe.categories) <= CategoryIdSet(cs)
    ensures Consistent(rs[i := newRecipe], UpdateSync(cs, rs[i].categories, newRecipe.categories, rs[i].id))
  {
    var rid := rs[i].id;
    var oldIds, newIds := rs[i].categories, newRecipe.categories;
    var r := UpdateSync(cs, oldIds, newIds, rid);
    var rs' := rs[i := newRecipe];
    UpdateSyncSpec(cs, oldIds, newIds, rid);
    assert Holders(cs, rid) == SetOf(oldIds);
    assert forall j :: 0 <= j < |cs| && rid in cs[j].recipes ==> cs[j].id in oldIds by {
      forall j | 0 <= j < |cs| && rid in cs[j].recipes ensures cs[j].id in oldIds {
        assert cs[j].id in Holders(cs, rid);
      }
    }
    forall k | 0 <= k < |rs'| ensures SetOf(rs'[k].categories) == Holders(r, rs'[k].id) {
      if k == i {
        forall x | x in Holders(r, rid) ensures x in SetOf(newIds) {
          var j :| 0 <= j < |r| && rid in r[j].recipes && r[j].id == x;
        }
        forall x | x in SetOf(newIds) ensures x in Holders(r, rid) {
          var j :| 0 <= j < |cs| && cs[j].id == x;
          assert rid in r[j].recipes;
        }
      } else {
        var y := rs[k].id;
        assert rs'[k] == rs[k];
        assert y != rid;
        forall x | x in Holders(r, y) ensures x in Holders(cs, y) {
          var j :| 0 <= j < |r| && y in r[j].recipes && r[j].id == x;
          assert y in cs[j].recipes;
        }
        forall x | x in Holders(cs, y) ensures x in Holders(r, y) {
          var j :| 0 <= j < |cs| && y in cs[j].recipes && cs[j].id == x;
          assert y in r[j].recipes && r[j].id == x;
        }
      }
    }
  }

  /** Repeating an `$addToSet` phase changes nothing. */
  lemma UpdateManyAddIdempotent(cs: seq<Category>, f: Selector, x: Id)
    ensures UpdateMany(UpdateMany(cs, f, AddToSetOp(x)), f, AddToSetOp(x)) == UpdateMany(cs, f, AddToSetOp(x))
  {
    var once := UpdateMany(cs, f, AddToSetOp(x));
    var twice := UpdateMany(once, f, AddToSetOp(x));
    forall j | 0 <= j < |cs| ensures twice[j] == once[j] {
      assert Selects(f, once[j]) == Selects(f, cs[j]);
    }
  }

  // ----- deleting a recipe -----

  /** The categories after `deleteRecipe`: `$pull` from every category that holds it. */
  function DeleteSync(cs: seq<Category>, rid: Id): seq<Category> {
    UpdateMany(cs, Holding(rid), PullOp(rid))
  }

  /** After deletion no category holds the recipe, whatever the recipe itself
      listed; every list keeps its other members in their order. */
  lemma DeleteSyncSpec(cs: seq<Category>, rid: Id)
    ensures var r := DeleteSync(cs, rid);
            && |r| == |cs|
            && (forall j :: 0 <= j < |cs| ==>
                  r[j].id == cs[j].id && r[j].description == cs[j].description &&
                  r[j].recipes == Pull(cs[j].recipes, rid))
            && Holders(r, rid) == {}
  {
  }

  /** The recipe list without the document at position `i`: `findByIdAndDelete`. */
  function RemoveAt(rs: seq<Recipe>, i: nat): seq<Recipe>
    requires i < |rs|
  {
    rs[..i] + rs[i + 1..]
  }

  lemma RemoveAtIds(rs: seq<Recipe>, i: nat)
    requires i < |rs| && UniqueRecipeIds(rs)
    ensures RecipeIdSet(RemoveAt(rs, i)) == RecipeIdSet(rs) - {rs[i].id}
    ensures UniqueRecipeIds(RemoveAt(rs, i))
    ensures forall k :: 0 <= k < |RemoveAt(rs, i)| ==> RemoveAt(rs, i)[k] == rs[if k < i then k else k + 1]
  {
    var r := RemoveAt(rs, i);
    assert forall k :: 0 <= k < |r| ==> r[k] == rs[if k < i then k else k + 1];
    forall x | x in RecipeIdSet(rs) - {rs[i].id} ensures x in RecipeIdSet(r) {
      var k :| 0 <= k < |rs| && rs[k].id == x;
      if k < i {
        assert r[k] == rs[k];
      } else {
        assert r[k - 1] == rs[k];
      }
    }
  }

  /** Deletion keeps the categories well-formed: no list names the removed recipe. */
  lemma DeleteSyncWellFormed(cs: seq<Category>, rs: seq<Recipe>, i: nat)
    requires i < |rs| && UniqueRecipeIds(rs) && CategoriesWellFormed(cs, rs)
    ensures CategoriesWellFormed(DeleteSync(cs, rs[i].id), RemoveAt(rs, i))
  {
    var r := DeleteSync(cs, rs[i].id);
    RemoveAtIds(rs, i);
    forall j | 0 <= j < |r| ensures NoDup(r[j].recipes) && SetOf(r[j].recipes) <= RecipeIdSet(RemoveAt(rs, i)) {
      forall y | y in SetOf(r[j].recipes) ensures y in RecipeIdSet(RemoveAt(rs, i)) {
        assert y in SetOf(cs[j].recipes);
      }
    }
  }

  /** Deletion keeps the bidirectional invariant for every remaining recipe. */
  lemma DeleteSyncConsistent(cs: seq<Category>, rs: seq<Recipe>, i: nat)
    requires i < |rs| && UniqueRecipeIds(rs) && Consistent(rs, cs)
    ensures Consistent(RemoveAt(rs, i), DeleteSync(cs, rs[i].id))
  {
    var rid := rs[i].id;
    var r := DeleteSync(cs, rid);
    var rs' := RemoveAt(rs, i);
    RemoveAtIds(rs, i);
    forall k | 0 <= k < |rs'| ensures SetOf(rs'[k].categories) == Holders(r, rs'[k].id) {
      var k0 := if k < i then k else k + 1;
      var y := rs[k0].id;
      assert rs'[k] == rs[k0];
      assert y != rid;
      forall x | x in Holders(r, y) ensures x in Holders(cs, y) {
        var j :| 0 <= j < |r| && y in r[j].recipes && r[j].id == x;
        assert y in cs[j].recipes;
      }
      forall x | x in Holders(cs, y) ensures x in Holders(r, y) {
        var j :| 0 <= j < |cs| && y in cs[j].recipes && cs[j].id == x;
        assert y in r[j].recipes && r[j].id == x;
      }
    }
  }

  /** A `$pull` through any filter keeps the categories well-formed. */
  lemma PullKeepsWellFormed(cs: seq<Category>, rs: seq<Recipe>, rs': seq<Recipe>, f: Selector, x: Id)
    requires CategoriesWellFormed(cs, rs) && RecipeIdSet(rs) <= RecipeIdSet(rs')
    ensures CategoriesWellFormed(UpdateMany(cs, f, PullOp(x)), rs')
  {
    var r := UpdateMany(cs, f, PullOp(x));
    forall j | 0 <= j < |r| ensures SetOf(r[j].recipes) <= RecipeIdSet(rs') {
      forall y | y in SetOf(r[j].recipes) ensures y in RecipeIdSet(rs') {
        assert y in SetOf(cs[j].recipes);
      }
    }
  }

  /** A create request without category names leaves the categories alone. */
  lemma CreateSyncNoNames(cs: seq<Category>, rid: Id, ids: seq<Id>)
    ensures |MissingNames(cs, [])| == 0
    ensures CreateSync(cs, [], rid, ids) == cs
    ensures SelectIds(cs, DescriptionIn([])) == []
  {
    var r := SelectIds(cs, DescriptionIn([]));
    assert SetOf(r) == {};
    assert forall k :: 0 <= k < |r| ==> r[k] in SetOf(r);
  }
}
