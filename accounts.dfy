/**
 * The account side of the account server: stored users, the bearer-token
 * extraction done with `String.prototype.replace`, and the token lookup
 * that authenticates every todo request.
 */
module Accounts {
  import opened Wrappers
  import opened Arrays

  /**
   * A stored user. `password` holds the hex digest of the password, never the
   * plaintext; `token` is null until the first successful login.
   */
  datatype User = User(id: string, name: string, email: string, password: string, token: Option<string>)

  function HasEmail(email: string): User -> bool
  {
    (u: User) => u.email == email
  }

  function HasToken(token: string): User -> bool
  {
    (u: User) => u.token == Some(token)
  }

  /** At most one user per email. */
  ghost predicate UniqueEmails(users: seq<User>)
  {
    forall i, j :: 0 <= i < j < |users| ==> users[i].email != users[j].email
  }

  ghost predicate UniqueIds(users: seq<User>)
  {
    forall i, j :: 0 <= i < j < |users| ==> users[i].id != users[j].id
  }

  /** No two users hold the same (non-null) token. */
  ghost predicate UniqueTokens(users: seq<User>)
  {
    forall i, j :: 0 <= i < j < |users| && users[i].token.Some? ==> users[i].token != users[j].token
  }

  /** What every reachable users collection satisfies. */
  ghost predicate WellFormed(users: seq<User>)
  {
    UniqueEmails(users) && UniqueIds(users) && UniqueTokens(users)
  }

  /** A freshly generated UUID: no stored user has it. */
  predicate IdFresh(users: seq<User>, id: string)
  {
    forall u :: u in users ==> u.id != id
  }

  /** A freshly generated random token: no stored user holds it. */
  predicate TokenFresh(users: seq<User>, token: string)
  {
    forall u :: u in users ==> u.token != Some(token)
  }

  const Bearer: string := "Bearer "

  predicate OccursAt(s: string, pat: string, k: nat)
  {
    k + |pat| <= |s| && s[k..k + |pat|] == pat
  }

  lemma OccursAtTail(s: string, pat: string, k: nat)
    requires |s| > 0
    ensures OccursAt(s[1..], pat, k) <==> OccursAt(s, pat, k + 1)
  {
  }

  /** `String.prototype.indexOf`: the first position where `pat` occurs in `s`. */
  function IndexOf(s: string, pat: string): (r: Option<nat>)
    ensures r.Some? ==> OccursAt(s, pat, r.value) && forall j: nat :: j < r.value ==> !OccursAt(s, pat, j)
    ensures r.None? ==> forall j: nat :: !OccursAt(s, pat, j)
    decreases |s|
  {
    if |s| < |pat| then None
    else if s[..|pat|] == pat then Some(0)
    else
      assert !OccursAt(s, pat, 0);
      match IndexOf(s[1..], pat)
      case None =>
        assert forall j: nat :: !OccursAt(s, pat, j) by {
          forall j: nat | j > 0 ensures !OccursAt(s, pat, j) { OccursAtTail(s, pat, j - 1); }
        }
        None
      case Some(i) =>
        OccursAtTail(s, pat, i);
        assert forall j: nat :: j < i + 1 ==> !OccursAt(s, pat, j) by {
          forall j: nat | 0 < j < i + 1 ensures !OccursAt(s, pat, j) { OccursAtTail(s, pat, j - 1); }
        }
        Some(i + 1)
  }

  /**
   * `authHeader.replace('Bearer ', '')`: the first occurrence of `Bearer ` is
   * cut out wherever it stands; a header without it is taken as the token itself.
   */
  function BearerToken(header: string): (token: string)
    ensures IndexOf(header, Bearer).None? ==> token == header
    ensures IndexOf(header, Bearer).Some? ==>
              var k := IndexOf(header, Bearer).value;
              k <= |token| && header == token[..k] + Bearer + token[k..]
  {
    match IndexOf(header, Bearer)
    case None => header
    case Some(k) =>
      assert header == header[..k] + Bearer + header[k + |Bearer|..];
      header[..k] + header[k + |Bearer|..]
  }

  /** The header `Authorization: Bearer <token>` yields exactly `<token>`. */
  lemma BearerRoundTrip(token: string)
    ensures BearerToken(Bearer + token) == token
  {
  }

  /**
   * `authenticate`: a missing or empty header resolves to nobody; otherwise the
   * result is the first user whose token equals the header with `Bearer ` cut out.
   */
  function Authenticate(users: seq<User>, header: Option<string>): (r: Option<User>)
    ensures header.None? || header == Some("") ==> r.None?
    ensures r.Some? ==> r.value.token.Some?
    ensures r.Some? ==> exists k :: IsFirst(users, HasToken(BearerToken(header.value)), k) && users[k] == r.value
    ensures header.Some? && header.value != "" && r.None? ==> TokenFresh(users, BearerToken(header.value))
  {
    match header
    case None => None
    case Some(h) =>
      if h == "" then None
      else
        var found := Find(users, HasToken(BearerToken(h)));
        assert found.None? ==> forall j :: 0 <= j < |users| ==> !HasToken(BearerToken(h))(users[j]);
        found
  }

  /** The user left behind by a successful login: only the token changes. */
  function LoggedIn(users: seq<User>, i: nat, token: string): (r: seq<User>)
    requires i < |users|
    ensures |r| == |users| && r[i].token == Some(token)
    ensures r[i] == users[i].(token := Some(token))
    ensures forall j :: 0 <= j < |users| && j != i ==> r[j] == users[j]
  {
    users[i := users[i].(token := Some(token))]
  }

  /** A login with a fresh token makes that token authenticate the logged-in user. */
  lemma LoginThenAuthenticate(users: seq<User>, i: nat, token: string)
    requires i < |users|
    requires TokenFresh(users, token)
    ensures Authenticate(LoggedIn(users, i, token), Some(Bearer + token)) == Some(users[i].(token := Some(token)))
  {
  }

  /**
   * A login overwrites the previous token: once no other user shares it, no user
   * holds it any more and it authenticates nobody.
   */
  lemma LoginRevokesPreviousToken(users: seq<User>, i: nat, token: string)
    requires i < |users| && users[i].token.Some?
    requires UniqueTokens(users) && TokenFresh(users, token)
    ensures TokenFresh(LoggedIn(users, i, token), users[i].token.value)
    ensures Authenticate(LoggedIn(users, i, token), Some(Bearer + users[i].token.value)).None?
  {
  }

  /** Registering a fresh id under an email nobody has keeps the collection well formed. */
  lemma RegisterKeepsWellFormed(users: seq<User>, u: User)
    requires WellFormed(users)
    requires FindIndex(users, HasEmail(u.email)).None?
    requires IdFresh(users, u.id) && u.token.None?
    ensures WellFormed(users + [u])
  {
  }

  /** Logging in with a fresh token keeps the collection well formed. */
  lemma LoginKeepsWellFormed(users: seq<User>, i: nat, token: string)
    requires WellFormed(users) && i < |users|
    requires TokenFresh(users, token)
    ensures WellFormed(LoggedIn(users, i, token))
  {
  }
}
