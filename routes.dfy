/** The guard placement of the recipe router: `getAuth` in front of the listing,
    `userAuth` in front of the three mutations, no guard on the lookups. A guard's
    rejection is the reply; otherwise the handler runs with the guard's caller. */
module Routes {
  import opened Common
  import opened Models
  import opened AuthMiddleware
  import opened Synchronizer
  import opened RecipeController

  /** GET /getallrecipes. */
  function ListingRoute(header: Option<string>, verify: string -> Option<Payload>,
                        rs: seq<Recipe>, q: ListQuery): (r: Reply<seq<Recipe>>)
    requires ValidQuery(q)
    ensures r.Failure? <==> GetAuth(header, verify).Rejected?
    ensures r.Failure? ==> r.status == Forbidden
    ensures GetAuth(header, verify).Anonymous? ==> r == Success(OK, GetAllRecipes(rs, q, None))
    ensures GetAuth(header, verify).Caller? ==>
              r == Success(OK, GetAllRecipes(rs, q, Some(GetAuth(header, verify).payload)))
    ensures r.Success? ==> r.status == OK && forall x :: x in r.value && x.isPrivate ==>
              HeaderPresent(header) && Verified(header.value, verify).Some? &&
              x.owner.id == Canon(Verified(header.value, verify).value.userId)
  {
    match GetAuth(header, verify)
    case Rejected(status) => Failure(status)
    case Anonymous => Success(OK, GetAllRecipes(rs, q, None))
    case Caller(p) => Success(OK, GetAllRecipes(rs, q, Some(p)))
  }

  /** A missing header or a token that does not verify sees exactly the listing
      of an anonymous request, which holds no private recipe. */
  lemma BadTokenSeesPublicListing(header: Option<string>, verify: string -> Option<Payload>,
                                  rs: seq<Recipe>, q: ListQuery)
    requires ValidQuery(q)
    requires !HeaderPresent(header) || Verified(header.value, verify).None?
    ensures ListingRoute(header, verify, rs, q) == Success(OK, GetAllRecipes(rs, q, None))
    ensures forall x :: x in ListingRoute(header, verify, rs, q).value ==> !x.isPrivate
  {
  }

  /** Every role `userAuth` admits is an editor role, so the handlers' own role
      check never fires behind it; `admin` is an editor role `userAuth` refuses. */
  lemma GuardAdmitsOnlyEditors()
    ensures GuardRoles <= EditorRoles
    ensures "admin" in EditorRoles && "admin" !in GuardRoles
  {
  }

  /** POST /addRecipe: a `userAuth` rejection is the reply and writes nothing;
      otherwise `addRecipe` runs as the verified caller, with every promise it
      makes, and its role check passes. */
  method AddRecipeRoute(db: Database, header: Option<string>, verify: string -> Option<Payload>,
                        upload: Upload, body: RecipeBody, newId: Id, freshIds: seq<Id>)
    returns (reply: Reply<Recipe>)
    requires db.Valid()
    requires IsStoredId(newId) && newId !in RecipeIdSet(db.recipes)
    requires body.categories.Some? ==> NoDup(MissingNames(db.categories, body.categories.value))
    requires FreshIds(db.categories, freshIds, |body.categories.GetOr([])|)
    modifies db
    ensures db.Valid()
    ensures UserAuth(header, verify).Rejected? ==>
              reply == Failure(UserAuth(header, verify).status) && unchanged(db)
    ensures UserAuth(header, verify).Caller? ==>
              && reply != Failure(Forbidden)
              && AddRecipeDone(old(db.State()), UserAuth(header, verify).payload, upload, body, newId, freshIds,
                               reply, db.State())
    ensures reply.Success? ==>
              UserAuth(header, verify).Caller? && reply.value.owner.id == Canon(UserAuth(header, verify).payload.userId)
  {
    var auth := UserAuth(header, verify);
    match auth
    case Caller(p) =>
      reply := AddRecipe(db, p, upload, body, newId, freshIds);
    case Rejected(status) =>
      reply := Failure(status);
  }

  /** PUT /updateRecipes/:id: a `userAuth` rejection is the reply and writes
      nothing; otherwise `updateRecipes` runs as the verified caller, with every
      promise it makes, and its role check passes. */
  method UpdateRecipesRoute(db: Database, header: Option<string>, verify: string -> Option<Payload>,
                            upload: Upload, id: string, body: RecipeBody)
    returns (reply: Reply<Recipe>)
    requires db.Valid()
    modifies db
    ensures db.Valid()
    ensures UserAuth(header, verify).Rejected? ==>
              reply == Failure(UserAuth(header, verify).status) && unchanged(db)
    ensures UserAuth(header, verify).Caller? ==>
              && reply != Failure(Forbidden)
              && UpdateRecipesDone(old(db.State()), UserAuth(header, verify).payload, upload, id, body,
                                   reply, db.State())
  {
    var auth := UserAuth(header, verify);
    match auth
    case Caller(p) =>
      reply := UpdateRecipes(db, p, upload, id, body);
    case Rejected(status) =>
      reply := Failure(status);
  }

  /** DELETE /deleteRecipe/:id: a `userAuth` rejection is the reply and writes
      nothing; otherwise `deleteRecipe` runs as the verified caller, with every
      promise it makes, and its role check passes. */
  method DeleteRecipeRoute(db: Database, header: Option<string>, verify: string -> Option<Payload>, id: string)
    returns (reply: Reply<()>)
    requires db.Valid()
    modifies db
    ensures db.Valid()
    ensures UserAuth(header, verify).Rejected? ==>
              reply == Failure(UserAuth(header, verify).status) && unchanged(db)
    ensures UserAuth(header, verify).Caller? ==>
              && reply != Failure(Forbidden)
              && DeleteRecipeDone(old(db.State()), UserAuth(header, verify).payload, id, reply, db.State())
  {
    var auth := UserAuth(header, verify);
    match auth
    case Caller(p) =>
      reply := DeleteRecipe(db, p, id);
    case Rejected(status) =>
      reply := Failure(status);
  }
}
