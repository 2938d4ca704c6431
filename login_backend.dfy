/** The authentication backend that lets a user log in with either a username
    or an email address. The user table is a sequence of records; password
    hashing and the "may this user log in" test are passed in as predicates. */
module LoginBackend {
  import opened Wrappers

  /** A row of the user table, reduced to what the backend reads. */
  datatype User = User(id: nat, username: string, email: string)

  /** The exception the backend raises, or lets escape from the lookup. */
  datatype AuthError =
    | MissingCredentials      // ValueError: neither identifier, or no password
    | BothIdentifiers         // ValueError: username and email both given
    | MultipleObjectsReturned // the lookup matched more than one row

  /** What `authenticate` does: raise, or return a user or `None`. */
  datatype AuthResult = Raised(error: AuthError) | Returned(user: Option<User>)

  /** The two lookups the backend issues: `email=` and `username__iexact=`. */
  datatype Query = ByEmail(email: string) | ByUsernameIExact(username: string)

  /** The three outcomes of `QuerySet.get`. */
  datatype Lookup = Found(user: User) | DoesNotExist | MultipleReturned

  /** ASCII case folding of one character. */
  function FoldChar(c: char): char {
    if 'A' <= c <= 'Z' then (c as int - 'A' as int + 'a' as int) as char else c
  }

  /** Case-insensitive equality of two strings, character by character. */
  predicate IExact(a: string, b: string)
    ensures a == b ==> IExact(a, b)
    ensures IExact(a, b) ==> |a| == |b|
  {
    |a| == |b| && forall i :: 0 <= i < |a| ==> FoldChar(a[i]) == FoldChar(b[i])
  }

  /** The row satisfies the query's filter. */
  predicate Matches(u: User, q: Query)
    ensures q.ByEmail? ==> (Matches(u, q) <==> u.email == q.email)
    ensures q.ByUsernameIExact? && u.username == q.username ==> Matches(u, q)
    ensures q.ByUsernameIExact? && Matches(u, q) ==> |u.username| == |q.username|
  {
    match q
    case ByEmail(e) => u.email == e
    case ByUsernameIExact(n) => IExact(u.username, n)
  }

  /** Row `i` is the only row of `dir` that satisfies `q`. */
  ghost predicate OnlyMatchAt(dir: seq<User>, q: Query, i: int) {
    0 <= i < |dir| && Matches(dir[i], q)
    && forall j :: 0 <= j < |dir| && j != i ==> !Matches(dir[j], q)
  }

  /** No row of `dir` satisfies `q`. */
  ghost predicate NoMatch(dir: seq<User>, q: Query) {
    forall i :: 0 <= i < |dir| ==> !Matches(dir[i], q)
  }

  /** Two different rows of `dir` satisfy `q`. */
  ghost predicate SeveralMatch(dir: seq<User>, q: Query) {
    exists i, j :: 0 <= i < j < |dir| && Matches(dir[i], q) && Matches(dir[j], q)
  }

  /** `User.objects.get(...)`: the single matching row, `DoesNotExist` when
      none matches, `MultipleObjectsReturned` when more than one does. */
  function Get(dir: seq<User>, q: Query): (r: Lookup)
    ensures r.DoesNotExist? <==> NoMatch(dir, q)
    ensures r.Found? ==> exists i :: OnlyMatchAt(dir, q, i) && dir[i] == r.user
    ensures r.MultipleReturned? <==> SeveralMatch(dir, q)
  {
    if |dir| == 0 then DoesNotExist
    else
      var rest := Get(dir[1..], q);
      assert forall j :: 1 <= j < |dir| ==> dir[j] == dir[1..][j - 1];
      if Matches(dir[0], q) then
        if rest.DoesNotExist? then
          assert OnlyMatchAt(dir, q, 0);
          Found(dir[0])
        else
          assert exists j :: 0 <= j < |dir[1..]| && Matches(dir[1..][j], q);
          MultipleReturned
      else
        assert forall i :: OnlyMatchAt(dir[1..], q, i) ==> OnlyMatchAt(dir, q, i + 1);
        assert SeveralMatch(dir[1..], q) ==> SeveralMatch(dir, q) by {
          if SeveralMatch(dir[1..], q) {
            var i, j :| 0 <= i < j < |dir[1..]| && Matches(dir[1..][i], q) && Matches(dir[1..][j], q);
            assert Matches(dir[i + 1], q) && Matches(dir[j + 1], q);
          }
        }
        rest
  }

  /** Email addresses are unique in the user table (`unique=True`). */
  ghost predicate EmailsUnique(dir: seq<User>) {
    forall i, j :: 0 <= i < |dir| && 0 <= j < |dir| && dir[i].email == dir[j].email ==> i == j
  }

  /** The arguments pass both guards: an identifier and a password are given,
      and not both identifiers. */
  predicate ArgumentsOk(username: Option<string>, password: Option<string>, email: Option<string>) {
    (username.Some? || email.Some?) && password.Some? && !(username.Some? && email.Some?)
  }

  /** The lookup the backend chooses: exact email when an email is given,
      case-insensitive username otherwise. */
  function QueryFor(username: Option<string>, email: Option<string>): (q: Query)
    requires username.Some? || email.Some?
    ensures email.Some? ==> q == ByEmail(email.value)
    ensures email.None? ==> q == ByUsernameIExact(username.value)
  {
    if email.Some? then ByEmail(email.value) else ByUsernameIExact(username.value)
  }

  /** `EmailOrUsernameModelBackend.authenticate`. */
  function Authenticate(dir: seq<User>, username: Option<string>, password: Option<string>,
                        email: Option<string>, checkPassword: (User, string) -> bool,
                        canAuthenticate: User -> bool): (r: AuthResult)
    ensures r == Raised(MissingCredentials) <==> (username.None? && email.None?) || password.None?
    ensures r == Raised(BothIdentifiers) <==> password.Some? && username.Some? && email.Some?
    ensures r == Raised(MultipleObjectsReturned)
      <==> ArgumentsOk(username, password, email) && SeveralMatch(dir, QueryFor(username, email))
    ensures ArgumentsOk(username, password, email) && !SeveralMatch(dir, QueryFor(username, email)) ==> r.Returned?
    ensures r.Returned? ==> ArgumentsOk(username, password, email)
    ensures r.Returned? && r.user.Some? ==>
      r.user.value in dir && Matches(r.user.value, QueryFor(username, email))
      && checkPassword(r.user.value, password.value) && canAuthenticate(r.user.value)
  {
    if (username.None? && email.None?) || password.None? then Raised(MissingCredentials)
    else if username.Some? && email.Some? then Raised(BothIdentifiers)
    else
      match Get(dir, QueryFor(username, email))
      case DoesNotExist => Returned(None)
      case MultipleReturned => Raised(MultipleObjectsReturned)
      case Found(u) =>
        if checkPassword(u, password.value) && canAuthenticate(u) then Returned(Some(u))
        else Returned(None)
  }

  /** A user is returned exactly when the arguments are well formed, that user
      is the one row the lookup finds, its password checks and it may log in. */
  lemma AuthenticateSucceedsIff(dir: seq<User>, username: Option<string>, password: Option<string>,
                                email: Option<string>, checkPassword: (User, string) -> bool,
                                canAuthenticate: User -> bool, u: User)
    ensures Authenticate(dir, username, password, email, checkPassword, canAuthenticate) == Returned(Some(u))
      <==> ArgumentsOk(username, password, email)
           && (exists i :: OnlyMatchAt(dir, QueryFor(username, email), i) && dir[i] == u)
           && checkPassword(u, password.value) && canAuthenticate(u)
  {
    if ArgumentsOk(username, password, email) {
      var q := QueryFor(username, email);
      if exists i :: OnlyMatchAt(dir, q, i) && dir[i] == u {
        var i :| OnlyMatchAt(dir, q, i) && dir[i] == u;
        var r := Get(dir, q);
        assert !NoMatch(dir, q);
        assert !SeveralMatch(dir, q);
        assert r.Found?;
        var k :| OnlyMatchAt(dir, q, k) && dir[k] == r.user;
        assert k == i;
      }
    }
  }

  /** When the lookup finds its one row but the password check or
      `user_can_authenticate` fails, the result is `None` (the implicit return). */
  lemma FailedCheckReturnsNone(dir: seq<User>, username: Option<string>, password: Option<string>,
                               email: Option<string>, checkPassword: (User, string) -> bool,
                               canAuthenticate: User -> bool, i: int)
    requires ArgumentsOk(username, password, email)
    requires OnlyMatchAt(dir, QueryFor(username, email), i)
    requires !(checkPassword(dir[i], password.value) && canAuthenticate(dir[i]))
    ensures Authenticate(dir, username, password, email, checkPassword, canAuthenticate) == Returned(None)
  {
    var q := QueryFor(username, email);
    assert !NoMatch(dir, q);
    assert !SeveralMatch(dir, q);
    var r := Get(dir, q);
    assert r.Found?;
    var k :| OnlyMatchAt(dir, q, k) && dir[k] == r.user;
    assert k == i;
  }

  /** When no row matches the identifier the result is `None`, whatever the
      password predicates say: the password is never checked. */
  lemma UnknownIdentifierSkipsPasswordCheck(dir: seq<User>, username: Option<string>, password: Option<string>,
                                            email: Option<string>,
                                            check1: (User, string) -> bool, can1: User -> bool,
                                            check2: (User, string) -> bool, can2: User -> bool)
    requires ArgumentsOk(username, password, email)
    requires NoMatch(dir, QueryFor(username, email))
    ensures Authenticate(dir, username, password, email, check1, can1) == Returned(None)
    ensures Authenticate(dir, username, password, email, check2, can2) == Returned(None)
  {
  }

  /** Because emails are unique, logging in by email never meets
      `MultipleObjectsReturned`. */
  lemma EmailLoginNeverAmbiguous(dir: seq<User>, password: Option<string>, email: Option<string>,
                                 checkPassword: (User, string) -> bool, canAuthenticate: User -> bool)
    requires EmailsUnique(dir)
    ensures Authenticate(dir, None, password, email, checkPassword, canAuthenticate) != Raised(MultipleObjectsReturned)
  {
    if email.Some? && password.Some? {
      var q := ByEmail(email.value);
      assert !SeveralMatch(dir, q);
    }
  }

  /** Two usernames that differ only in case are both matched by
      `username__iexact`, so logging in with either raises
      `MultipleObjectsReturned` instead of returning a user. */
  lemma UsernameCaseCollisionRaises(checkPassword: (User, string) -> bool, canAuthenticate: User -> bool)
    ensures var dir := [User(1, "Alice", "a@example.com"), User(2, "alice", "b@example.com")];
            Authenticate(dir, Some("alice"), Some("pw"), None, checkPassword, canAuthenticate)
              == Raised(MultipleObjectsReturned)
  {
    var dir := [User(1, "Alice", "a@example.com"), User(2, "alice", "b@example.com")];
    var q := ByUsernameIExact("alice");
    assert IExact(dir[0].username, "alice") && IExact(dir[1].username, "alice");
    assert SeveralMatch(dir, q);
  }
}
