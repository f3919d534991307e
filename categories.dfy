/** The read-only category handlers: the whole collection, the whole collection
    with each category's recipe references resolved, and one category by id with
    its references resolved. Being functions of the stored sequences, none of
    them can change the store. */
module CategoriesController {
  import opened Common
  import opened Models

  /** `categoryIdSchema`: the id parameter is exactly 24 hexadecimal characters. */
  predicate ValidCategoryId(id: string) {
    IsHexId(id)
  }

  /** A category as sent with `populate('recipes')`. */
  datatype PopulatedCategory = PopulatedCategory(id: Id, description: string, recipes: seq<Recipe>)

  /** `populate` on a list of recipe ids: each id replaced by the recipe document
      carrying it, in list order; an id no recipe carries is dropped. */
  function Resolve(ids: seq<Id>, rs: seq<Recipe>): (r: seq<Recipe>)
    ensures |r| <= |ids|
    ensures forall x :: x in r ==> x in rs && x.id in ids
    ensures UniqueRecipeIds(rs) ==> forall x :: x in rs && x.id in ids ==> x in r
    ensures SetOf(ids) <= RecipeIdSet(rs) ==> |r| == |ids| && forall k :: 0 <= k < |r| ==> r[k].id == ids[k]
  {
    if ids == [] then []
    else
      var rest := Resolve(ids[1..], rs);
      assert forall y :: y in ids <==> y == ids[0] || y in ids[1..];
      assert SetOf(ids) <= RecipeIdSet(rs) ==> SetOf(ids[1..]) <= RecipeIdSet(rs) by {
        assert SetOf(ids[1..]) <= SetOf(ids);
      }
      match RecipeIndex(rs, ids[0])
      case None =>
        assert SetOf(ids) <= RecipeIdSet(rs) ==> false by {
          assert ids[0] in SetOf(ids);
        }
        assert UniqueRecipeIds(rs) ==> forall x :: x in rs ==> x.id != ids[0];
        rest
      case Some(i) =>
        var r := [rs[i]] + rest;
        assert r[1..] == rest;
        assert UniqueRecipeIds(rs) ==> forall x :: x in rs && x.id == ids[0] ==> x == rs[i];
        r
  }

  /** One category with its recipe references resolved. */
  function CategoryView(c: Category, rs: seq<Recipe>): (v: PopulatedCategory)
    ensures v.id == c.id && v.description == c.description
    ensures forall x :: x in v.recipes ==> x in rs && x.id in c.recipes
  {
    PopulatedCategory(c.id, c.description, Resolve(c.recipes, rs))
  }

  /** In a well-formed store a resolved category loses no reference, and when
      the references are consistent its resolved recipes are exactly the stored
      recipes that list it. */
  lemma CategoryViewComplete(rs: seq<Recipe>, cs: seq<Category>, j: nat)
    requires RecipesWellFormed(rs) && CategoriesWellFormed(cs, rs) && j < |cs|
    ensures |CategoryView(cs[j], rs).recipes| == |cs[j].recipes|
    ensures Consistent(rs, cs) ==>
              forall x :: x in rs ==> (x in CategoryView(cs[j], rs).recipes <==> cs[j].id in x.categories)
  {
    var v := CategoryView(cs[j], rs);
    if Consistent(rs, cs) {
      forall x | x in rs ensures x in v.recipes <==> cs[j].id in x.categories {
        var i :| 0 <= i < |rs| && rs[i] == x;
        assert SetOf(x.categories) == Holders(cs, x.id);
        assert cs[j].id in Holders(cs, x.id) <==> x.id in cs[j].recipes by {
          if cs[j].id in Holders(cs, x.id) {
            var k :| 0 <= k < |cs| && Selects(Holding(x.id), cs[k]) && cs[k].id == cs[j].id;
            assert k == j;
          }
        }
      }
    }
  }

  /** `getAllCategories`: every stored category, in natural order, references unresolved. */
  function GetAllCategories(cs: seq<Category>): seq<Category> {
    cs
  }

  /** `getAllCategoriesAndRecipe`: every stored category in natural order, each
      with the recipes its references name. */
  function GetAllCategoriesAndRecipe(cs: seq<Category>, rs: seq<Recipe>): (r: seq<PopulatedCategory>)
    ensures |r| == |cs|
    ensures forall j :: 0 <= j < |cs| ==> r[j].id == cs[j].id && r[j].description == cs[j].description
    ensures forall j, x :: 0 <= j < |cs| && x in r[j].recipes ==> x in rs && x.id in cs[j].recipes
  {
    seq(|cs|, j requires 0 <= j < |cs| => CategoryView(cs[j], rs))
  }

  /** The two listings show the same categories in the same order; the populated
      one replaces each category's references by the recipes they name. */
  lemma ListingsAgree(cs: seq<Category>, rs: seq<Recipe>)
    ensures var plain := GetAllCategories(cs);
            var full := GetAllCategoriesAndRecipe(cs, rs);
            && |plain| == |full|
            && forall j :: 0 <= j < |plain| ==>
                 && full[j].id == plain[j].id && full[j].description == plain[j].description
                 && full[j].recipes == Resolve(plain[j].recipes, rs)
  {
  }

  /** `findById` on categories. */
  function CategoryIndex(cs: seq<Category>, id: Id): (r: Option<nat>)
    ensures r.Some? ==> r.value < |cs| && cs[r.value].id == id
    ensures r.None? <==> id !in CategoryIdSet(cs)
  {
    var r := Find(cs, (c: Category) => c.id == id);
    assert r.None? ==> id !in CategoryIdSet(cs);
    r
  }

  /** `getCategoryByIdWithRec`: 400 for an id that is not 24 hexadecimal
      characters, 404 for an id whose cast no category carries, otherwise that
      category with its references resolved. */
  function GetCategoryByIdWithRec(cs: seq<Category>, rs: seq<Recipe>, id: string): (r: Reply<PopulatedCategory>)
    ensures r.Failure? ==> r.status == BadRequest || r.status == NotFound
    ensures r == Failure(BadRequest) <==> !ValidCategoryId(id)
    ensures r == Failure(NotFound) <==> ValidCategoryId(id) && Canon(id) !in CategoryIdSet(cs)
    ensures r.Success? ==>
              && r.status == OK && r.value.id == Canon(id)
              && exists j :: 0 <= j < |cs| && cs[j].id == Canon(id) && r.value == CategoryView(cs[j], rs)
  {
    if !ValidCategoryId(id) then Failure(BadRequest)
    else match CategoryIndex(cs, Canon(id)) {
      case None => Failure(NotFound)
      case Some(j) => Success(OK, CategoryView(cs[j], rs))
    }
  }

  /** A category reached by its id, spelled in any letter case, is its entry in
      the full listing. */
  lemma ByIdAgreesWithListing(cs: seq<Category>, rs: seq<Recipe>, j: nat, id: string)
    requires CategoriesWellFormed(cs, rs) && j < |cs|
    requires SameIgnoringCase(id, cs[j].id)
    ensures GetCategoryByIdWithRec(cs, rs, id) == Success(OK, GetAllCategoriesAndRecipe(cs, rs)[j])
  {
    CastFindsStored(id, cs[j].id);
    var k := CategoryIndex(cs, cs[j].id).value;
    assert k == j;
  }
}
