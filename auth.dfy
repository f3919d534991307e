/** The two request guards of the authentication middleware: `userAuth`, which
    demands a verified caller, and `getAuth`, which lets anonymous requests through.
    Token verification is an oracle passed in as `verify`: it maps a token to the
    claims it carries, or to None when the signature or expiry check fails. */
module AuthMiddleware {
  import opened Common

  /** The claims of a signed token: what `generateToken` puts in it. */
  datatype Payload = Payload(userId: Id, role: string, username: string)

  /** The result of a guard: proceed without a caller, proceed with the verified
      claims as the caller, or stop with an error status. */
  datatype AuthOutcome = Anonymous | Caller(payload: Payload) | Rejected(status: int)

  /** The roles both guards admit. `admin` is not one of them. */
  const GuardRoles: set<string> := {"user", "registered user"}

  /** A header counts as sent only when it is a non-empty string. */
  predicate HeaderPresent(header: Option<string>) {
    header.Some? && header.value != ""
  }

  /** The position of the first space in `s`, or `|s|` when there is none. */
  function SpaceAt(s: string): (k: nat)
    ensures k <= |s|
    ensures forall i :: 0 <= i < k ==> s[i] != ' '
    ensures k < |s| ==> s[k] == ' '
  {
    if s == [] then 0
    else if s[0] == ' ' then 0
    else 1 + SpaceAt(s[1..])
  }

  /** The second field of the header split at single spaces (the `[, token]`
      destructuring), or None when the header holds no space. */
  function TokenOf(header: string): (t: Option<string>)
    ensures t.None? <==> ' ' !in header
    ensures t.Some? ==> ' ' !in t.value && |t.value| < |header|
  {
    var i := SpaceAt(header);
    if i == |header| then
      None
    else
      var rest := header[i + 1..];
      var field := rest[..SpaceAt(rest)];
      assert forall c :: c in field ==> c != ' ';
      Some(field)
  }

  /** `Bearer <token>` yields the token back, for any scheme word and token
      without spaces, whatever further space-separated fields follow. */
  lemma {:induction false} TokenOfBearer(scheme: string, token: string, rest: string)
    requires ' ' !in scheme && ' ' !in token
    requires rest == "" || rest[0] == ' '
    ensures TokenOf(scheme + " " + token + rest) == Some(token)
  {
    var h := scheme + " " + token + rest;
    assert h == scheme + (" " + token + rest);
    SpaceAtPrefix(scheme, " " + token + rest);
    assert h[|scheme| + 1..] == token + rest;
    if rest == "" {
      assert token + rest == token;
      SpaceAtNone(token);
    } else {
      SpaceAtPrefix(token, rest);
    }
    assert (token + rest)[..|token|] == token;
  }

  lemma {:induction false} SpaceAtPrefix(a: string, b: string)
    requires ' ' !in a && b != [] && b[0] == ' '
    ensures SpaceAt(a + b) == |a|
  {
    if a != [] {
      assert (a + b)[1..] == a[1..] + b;
      SpaceAtPrefix(a[1..], b);
    }
  }

  lemma {:induction false} SpaceAtNone(a: string)
    requires ' ' !in a
    ensures SpaceAt(a) == |a|
  {
    if a != [] {
      SpaceAtNone(a[1..]);
    }
  }

  /** The claims `jwt.verify` returns for the header's token. A missing or empty
      token never verifies ("jwt must be provided"); any other token is judged by
      the oracle. */
  function Verified(header: string, verify: string -> Option<Payload>): Option<Payload> {
    match TokenOf(header)
    case None => None
    case Some(t) => if t == "" then None else verify(t)
  }

  /** `userAuth`: requests without a valid token stop with 401, verified callers
      whose role is not admitted stop with 403, the rest proceed as that caller. */
  function UserAuth(header: Option<string>, verify: string -> Option<Payload>): (r: AuthOutcome)
    ensures !r.Anonymous?
    ensures r.Rejected? ==> r.status == Unauthorized || r.status == Forbidden
    ensures r == Rejected(Unauthorized) <==>
              !HeaderPresent(header) || Verified(header.value, verify).None?
    ensures r == Rejected(Forbidden) <==>
              HeaderPresent(header) && Verified(header.value, verify).Some? &&
              Verified(header.value, verify).value.role !in GuardRoles
    ensures r.Caller? ==>
              HeaderPresent(header) && Verified(header.value, verify) == Some(r.payload) &&
              r.payload.role in GuardRoles
  {
    if !HeaderPresent(header) then
      Rejected(Unauthorized)
    else
      match Verified(header.value, verify)
      case None => Rejected(Unauthorized)
      case Some(p) => if p.role in GuardRoles then Caller(p) else Rejected(Forbidden)
  }

  /** `getAuth`: a missing header or a token that does not verify proceeds
      anonymously; a verified caller whose role is not admitted still stops with
      403; otherwise the request proceeds as that caller. */
  function GetAuth(header: Option<string>, verify: string -> Option<Payload>): (r: AuthOutcome)
    ensures r.Rejected? ==> r.status == Forbidden
    ensures r.Anonymous? <==> !HeaderPresent(header) || Verified(header.value, verify).None?
    ensures r.Rejected? <==>
              HeaderPresent(header) && Verified(header.value, verify).Some? &&
              Verified(header.value, verify).value.role !in GuardRoles
    ensures r.Caller? ==>
              HeaderPresent(header) && Verified(header.value, verify) == Some(r.payload) &&
              r.payload.role in GuardRoles
  {
    if !HeaderPresent(header) then
      Anonymous
    else
      match Verified(header.value, verify)
      case None => Anonymous
      case Some(p) => if p.role in GuardRoles then Caller(p) else Rejected(Forbidden)
  }

  /** The two guards differ only where `userAuth` says 401: there `getAuth`
      proceeds anonymously. */
  lemma GuardsAgree(header: Option<string>, verify: string -> Option<Payload>)
    ensures UserAuth(header, verify) == Rejected(Unauthorized) <==> GetAuth(header, verify) == Anonymous
    ensures UserAuth(header, verify) != Rejected(Unauthorized) ==> UserAuth(header, verify) == GetAuth(header, verify)
  {
  }

  /** A verified admin token is refused by both guards. */
  lemma AdminTokenRefused(header: Option<string>, verify: string -> Option<Payload>)
    requires HeaderPresent(header)
    requires Verified(header.value, verify).Some? && Verified(header.value, verify).value.role == "admin"
    ensures UserAuth(header, verify) == Rejected(Forbidden)
    ensures GetAuth(header, verify) == Rejected(Forbidden)
  {
  }
}
