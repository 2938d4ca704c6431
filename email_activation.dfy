/** The email-activation endpoint: a link carrying an encoded user id and a
    token turns an unverified account into an active, verified one. Decoding
    the id and checking the token are outside the model: the decoded id
    arrives as an `Option` (`None` when decoding fails) and the token check is
    a predicate over the account and the token. */
module EmailActivation {
  import opened Wrappers

  /** The two flags of an account that activation reads and writes. */
  datatype AccountState = AccountState(isActive: bool, isEmailVerified: bool)

  /** The responses of the endpoint. `ServerError` is the unhandled
      `AttributeError` raised when the handler reads a flag of `None`. */
  datatype Response = Activated | AlreadyVerified | InvalidLink | ServerError {

    function Status(): int {
      match this
      case Activated => 200
      case AlreadyVerified => 400
      case InvalidLink => 400
      case ServerError => 500
    }

    function Message(): string {
      match this
      case Activated => "Thank you for your email confirmation. Now you can log in."
      case AlreadyVerified => "Email is already verified."
      case InvalidLink => "Activation link is invalid!"
      case ServerError => ""
    }
  }

  /** The handler as written: `user.is_email_verified` is read before the test
      `user is not None`, so a missing user never reaches "invalid link". */
  function Respond(user: Option<AccountState>, tokenValid: bool): (r: Response)
    ensures user.None? ==> r == ServerError
    ensures user.Some? && user.value.isEmailVerified ==> r == AlreadyVerified
    ensures user.Some? && !user.value.isEmailVerified ==> (r == Activated <==> tokenValid)
    ensures r != InvalidLink <==> user.None? || user.value.isEmailVerified || tokenValid
  {
    match user
    case None => ServerError
    case Some(s) =>
      if s.isEmailVerified then AlreadyVerified
      else if tokenValid then Activated
      else InvalidLink
  }

  /** The handler with the `None` test first, as its `elif` evidently intends:
      a link that names no user is answered "invalid link". */
  function RespondChecked(user: Option<AccountState>, tokenValid: bool): (r: Response)
    ensures r != ServerError
    ensures user.None? ==> r == InvalidLink
    ensures user.Some? ==> r == Respond(user, tokenValid)
  {
    match user
    case None => InvalidLink
    case Some(_) => Respond(user, tokenValid)
  }

  /** The flags after the handler answered `r`: only a successful activation
      changes them, and it sets both. */
  function After(s: AccountState, r: Response): (t: AccountState)
    ensures r == Activated ==> t.isActive && t.isEmailVerified
    ensures r != Activated ==> t == s
  {
    if r == Activated then AccountState(true, true) else s
  }

  /** A stored user account whose flags are updated in place and saved. */
  class Account {
    const pk: nat
    var isActive: bool
    var isEmailVerified: bool

    constructor (pk: nat, isActive: bool, isEmailVerified: bool)
      ensures this.pk == pk && State() == AccountState(isActive, isEmailVerified)
    {
      this.pk := pk;
      this.isActive := isActive;
      this.isEmailVerified := isEmailVerified;
    }

    function State(): AccountState
      reads this
    {
      AccountState(isActive, isEmailVerified)
    }

    /** Lines 35-43 once a user was found: answer, and on success set both
        flags and save. */
    method Confirm(tokenValid: bool) returns (r: Response)
      modifies this
      ensures r == Respond(Some(old(State())), tokenValid)
      ensures State() == After(old(State()), r)
    {
      if isEmailVerified {
        r := AlreadyVerified;
      } else if tokenValid {
        isActive := true;
        isEmailVerified := true;
        r := Activated;
      } else {
        r := InvalidLink;
      }
    }
  }

  /** `User.objects.get(pk=uid)` over the stored accounts: an account with that key, or `None`. */
  function FindByPk(users: seq<Account>, pk: nat): (r: Option<Account>)
    ensures r.Some? ==> r.value in users && r.value.pk == pk
    ensures r.None? ==> forall a :: a in users ==> a.pk != pk
  {
    if |users| == 0 then None
    else if users[0].pk == pk then Some(users[0])
    else FindByPk(users[1..], pk)
  }

  /** The user the link names: `None` when the id did not decode or no account has it. */
  function LinkedUser(users: seq<Account>, uid: Option<nat>): (r: Option<Account>)
    ensures r.Some? ==> uid.Some? && r.value in users && r.value.pk == uid.value
    ensures r.None? ==> uid.None? || forall a :: a in users ==> a.pk != uid.value
  {
    if uid.Some? then FindByPk(users, uid.value) else None
  }

  /** `ActivateUserView.get` as written. A link naming no user ends in a
      server error; otherwise the named account goes through `Confirm` and no
      other account changes. */
  method Activate(users: seq<Account>, uid: Option<nat>, token: string,
                  checkToken: (nat, AccountState, string) -> bool) returns (r: Response)
    modifies set a | a in users
    ensures LinkedUser(users, uid).None? ==> r == ServerError
    ensures LinkedUser(users, uid).Some? ==>
      var a := LinkedUser(users, uid).value;
      r == Respond(Some(old(a.State())), checkToken(a.pk, old(a.State()), token))
      && a.State() == After(old(a.State()), r)
    ensures forall b :: b in users && Some(b) != LinkedUser(users, uid) ==> b.State() == old(b.State())
  {
    var user := LinkedUser(users, uid);
    if user.None? {
      r := ServerError;
    } else {
      var a := user.value;
      r := a.Confirm(checkToken(a.pk, a.State(), token));
    }
  }

  /** The corrected handler: identical once a user is found, "invalid link"
      and no change when the link names no user. */
  method ActivateChecked(users: seq<Account>, uid: Option<nat>, token: string,
                         checkToken: (nat, AccountState, string) -> bool) returns (r: Response)
    modifies set a | a in users
    ensures r != ServerError
    ensures LinkedUser(users, uid).None? ==> r == InvalidLink
    ensures LinkedUser(users, uid).Some? ==>
      var a := LinkedUser(users, uid).value;
      r == RespondChecked(Some(old(a.State())), checkToken(a.pk, old(a.State()), token))
      && a.State() == After(old(a.State()), r)
    ensures forall b :: b in users && Some(b) != LinkedUser(users, uid) ==> b.State() == old(b.State())
  {
    var user := LinkedUser(users, uid);
    if user.None? {
      r := InvalidLink;
    } else {
      var a := user.value;
      r := a.Confirm(checkToken(a.pk, a.State(), token));
    }
  }

  /** An already verified account is refused with 400 whatever the token, and
      keeps its flags. */
  lemma VerifiedUserRefused(s: AccountState, tokenValid: bool)
    requires s.isEmailVerified
    ensures Respond(Some(s), tokenValid) == AlreadyVerified
    ensures Respond(Some(s), tokenValid).Status() == 400
    ensures After(s, Respond(Some(s), tokenValid)) == s
  {
  }

  /** An unverified account with a valid token ends active and verified, with 200. */
  lemma ValidTokenActivates(s: AccountState)
    requires !s.isEmailVerified
    ensures Respond(Some(s), true).Status() == 200
    ensures After(s, Respond(Some(s), true)) == AccountState(true, true)
  {
  }

  /** An unverified account with an invalid token gets "invalid link" and
      keeps its flags. */
  lemma InvalidTokenChangesNothing(s: AccountState)
    requires !s.isEmailVerified
    ensures Respond(Some(s), false) == InvalidLink
    ensures After(s, Respond(Some(s), false)) == s
  {
  }

  /** Following the link a second time, with any token, after it succeeded
      once, is answered "already verified". */
  lemma SecondActivationRefused(s: AccountState, first: bool, second: bool)
    requires Respond(Some(s), first) == Activated
    ensures Respond(Some(After(s, Activated)), second) == AlreadyVerified
  {
  }

  /** The handler as written never answers "invalid link" for a link that
      names no user: it fails with a server error whatever the token. */
  lemma MissingUserIsServerError(tokenValid: bool)
    ensures Respond(None, tokenValid) == ServerError
    ensures Respond(None, tokenValid).Status() == 500
    ensures RespondChecked(None, tokenValid) == InvalidLink
  {
  }

  /** Two activations in a row through the stored-account handler: the first
      succeeds with a valid token, the second is refused. */
  method ActivateTwice(token: string, checkToken: (nat, AccountState, string) -> bool)
    returns (first: Response, second: Response)
    requires checkToken(7, AccountState(false, false), token)
    ensures first == Activated && second == AlreadyVerified
  {
    var a := new Account(7, false, false);
    first := Activate([a], Some(7), token, checkToken);
    second := Activate([a], Some(7), token, checkToken);
  }
}
