/** The account routes, POST /CreateUser and POST /LoginUser: validation, the duplicate
    check, the hashed insert and the credential check over the user collection. Password
    hashing, salts, hash comparison, token signing and the email syntax test belong to
    libraries outside this model; they are the fields of a `Library` value. */
module Accounts {
  import opened Http

  /** What `jwt.sign` signs: `{ user: { id } }`. */
  datatype TokenClaim = TokenClaim(userId: nat)

  /** The foreign functions the routes call: `isEmail` of the validator library,
      `bcrypt.hash(password, salt)`, `bcrypt.compare(password, hash)` and
      `jwt.sign(claim, secret)` with the server's secret fixed. */
  datatype Library = Library(
    isEmail: string -> bool,
    hash: (string, string) -> string,
    compare: (string, string) -> bool,
    sign: TokenClaim -> string)

  /** A stored user: its id, the registration's fields, and the password hash. */
  datatype Account = Account(id: nat, name: string, email: string, contactNumber: string, password: string)

  /** The user collection, by email. */
  type Accounts = map<string, Account>

  /** Every account is stored under its own email, ids are below the next one and no two
      accounts share an id. */
  ghost predicate WellFormed(accounts: Accounts, nextId: nat) {
    && (forall e :: e in accounts ==> accounts[e].email == e && accounts[e].id < nextId)
    && (forall e1, e2 :: e1 in accounts && e2 in accounts && accounts[e1].id == accounts[e2].id ==> e1 == e2)
  }

  /** The length `isLength` measures: code points, not counting the variation selectors
      U+FE0E and U+FE0F. */
  function ValidatorLength(s: string): (n: nat)
    ensures n == |s| - multiset(s)['\U{FE0E}'] - multiset(s)['\U{FE0F}']
    ensures (forall i :: 0 <= i < |s| ==> s[i] != '\U{FE0E}' && s[i] != '\U{FE0F}') ==> n == |s|
    decreases |s|
  {
    if s == [] then 0
    else
      assert s == [s[0]] + s[1..];
      assert multiset(s) == multiset([s[0]]) + multiset(s[1..]);
      (if s[0] == '\U{FE0E}' || s[0] == '\U{FE0F}' then 0 else 1) + ValidatorLength(s[1..])
  }

  /** The bodies the account routes send. */
  datatype AccountBody =
    | Errors(errors: seq<FieldError>)   // { errors: [...] }
    | Message(message: string)          // { message }
    | Success(success: bool)            // { success }
    | LoginError(error: string)         // { error }
    | Token(authToken: string)          // { success: true, authToken }

  datatype Reply = Reply(status: nat, body: AccountBody)

  // ---------------------------------------------------------------------------------
  // POST /CreateUser

  datatype Registration = Registration(name: string, email: string, contactNumber: string, password: string)

  /** The route's three validators, in their order. */
  function RegisterErrors(lib: Library, req: Registration): (errs: seq<FieldError>)
    ensures errs == [] <==>
      lib.isEmail(req.email) && ValidatorLength(req.name) >= 5 && ValidatorLength(req.password) >= 5
    ensures |errs| <= 3
  {
    (if !lib.isEmail(req.email) then [FieldError("email", DefaultMessage)] else [])
    + (if ValidatorLength(req.name) < 5 then [FieldError("name", DefaultMessage)] else [])
    + (if ValidatorLength(req.password) < 5 then [FieldError("password", "didnt match minimum length")] else [])
  }

  const Duplicate := Reply(409, Message("User with given email already exists!"))

  /** The register route for a collection whose next account id is `nextId`, with the salt
      `salt` that `genSalt` produced; `fault` says whether hashing or the insert threw. */
  function RegisterStep(accounts: Accounts, nextId: nat, lib: Library, req: Registration,
                        salt: string, fault: bool): (r: (Reply, Accounts))
    ensures r.0.status in {200, 400, 409}
    ensures r.0 != Reply(200, Success(true)) ==> r.1 == accounts
    ensures r.0 == Reply(200, Success(true)) ==>
      req.email !in accounts && r.1.Keys == accounts.Keys + {req.email}
      && r.1[req.email].password == lib.hash(req.password, salt)
  {
    var errs := RegisterErrors(lib, req);
    if errs != [] then (Reply(400, Errors(errs)), accounts)
    else if req.email in accounts then (Duplicate, accounts)
    else if fault then (Reply(200, Success(false)), accounts)
    else
      var account := Account(nextId, req.name, req.email, req.contactNumber, lib.hash(req.password, salt));
      (Reply(200, Success(true)), accounts[req.email := account])
  }

  /** A request failing a validator gets 400 with the validators' errors, whatever the
      collection holds, and creates nothing: validation comes before the lookup. */
  lemma RegisterRejectsInvalid(accounts: Accounts, other: Accounts, nextId: nat, lib: Library,
                               req: Registration, salt: string, fault: bool)
    requires !lib.isEmail(req.email) || ValidatorLength(req.name) < 5 || ValidatorLength(req.password) < 5
    ensures var (reply, after) := RegisterStep(accounts, nextId, lib, req, salt, fault);
      && reply == Reply(400, Errors(RegisterErrors(lib, req))) && after == accounts
      && reply == RegisterStep(other, nextId, lib, req, salt, fault).0
  {
  }

  /** A valid request for an email already registered gets 409 and changes nothing. */
  lemma RegisterRejectsDuplicate(accounts: Accounts, nextId: nat, lib: Library, req: Registration,
                                 salt: string, fault: bool)
    requires RegisterErrors(lib, req) == [] && req.email in accounts
    ensures RegisterStep(accounts, nextId, lib, req, salt, fault) == (Duplicate, accounts)
  {
  }

  /** Register replies 200 `{ success: true }` exactly when the request is valid, its email
      is new and nothing throws; it then adds exactly one account, under the request's
      email, holding the request's fields, the next id and the hash of the password with the
      salt. A throw in hashing or insert replies 200 `{ success: false }` and adds nothing. */
  lemma RegisterAddsOneAccount(accounts: Accounts, nextId: nat, lib: Library, req: Registration,
                               salt: string, fault: bool)
    requires WellFormed(accounts, nextId)
    ensures var (reply, after) := RegisterStep(accounts, nextId, lib, req, salt, fault);
      && (reply == Reply(200, Success(true)) <==>
            RegisterErrors(lib, req) == [] && req.email !in accounts && !fault)
      && (reply.body == Success(false) <==>
            RegisterErrors(lib, req) == [] && req.email !in accounts && fault)
      && (reply.body == Success(false) ==> reply.status == 200 && after == accounts)
      && (reply.body != Success(true) ==> after == accounts)
      && (reply.body == Success(true) ==>
            && after == accounts[req.email := Account(nextId, req.name, req.email, req.contactNumber,
                                                      lib.hash(req.password, salt))]
            && |after| == |accounts| + 1
            && (forall e :: e in accounts ==> e in after && after[e] == accounts[e])
            && WellFormed(after, nextId + 1))
  {
  }

  // ---------------------------------------------------------------------------------
  // POST /LoginUser

  datatype Credentials = Credentials(email: string, password: string)

  /** The route's two validators, in their order. */
  function LoginErrors(lib: Library, req: Credentials): (errs: seq<FieldError>)
    ensures errs == [] <==> lib.isEmail(req.email) && ValidatorLength(req.password) >= 5
    ensures |errs| <= 2
  {
    (if !lib.isEmail(req.email) then [FieldError("email", DefaultMessage)] else [])
    + (if ValidatorLength(req.password) < 5
       then [FieldError("password", "Password should be at least 5 characters long")] else [])
  }

  const UnknownEmail := Reply(400, LoginError("Invalid email. Please try again."))
  const WrongPassword := Reply(400, LoginError("Password mismatch. Please try again."))

  /** The login route's reply; `fault` says whether the lookup threw. */
  function LoginReply(accounts: Accounts, lib: Library, req: Credentials, fault: bool): (r: Reply)
    ensures r.status in {200, 400}
    ensures r.body.Token? ==> req.email in accounts && lib.compare(req.password, accounts[req.email].password)
  {
    var errs := LoginErrors(lib, req);
    if errs != [] then Reply(400, Errors(errs))
    else if fault then Reply(200, Success(false))
    else if req.email !in accounts then UnknownEmail
    else if !lib.compare(req.password, accounts[req.email].password) then WrongPassword
    else Reply(200, Token(lib.sign(TokenClaim(accounts[req.email].id))))
  }

  /** A malformed email or a short password gets 400 with the validators' errors whatever
      the collection holds: validation comes before the lookup. */
  lemma LoginRejectsInvalid(accounts: Accounts, other: Accounts, lib: Library, req: Credentials, fault: bool)
    requires !lib.isEmail(req.email) || ValidatorLength(req.password) < 5
    ensures LoginReply(accounts, lib, req, fault) == Reply(400, Errors(LoginErrors(lib, req)))
    ensures LoginReply(accounts, lib, req, fault) == LoginReply(other, lib, req, fault)
  {
  }

  /** Login replies with a token exactly when the credentials are valid, the lookup does not
      throw, the email is registered and the password compares equal to its stored hash; the
      token signs that account's id. An unknown email and a wrong password both get 400, with
      different messages. */
  lemma LoginSucceedsIff(accounts: Accounts, lib: Library, req: Credentials, fault: bool)
    ensures var reply := LoginReply(accounts, lib, req, fault);
      var passes := LoginErrors(lib, req) == [] && !fault;
      && (reply.body.Token? <==>
            passes && req.email in accounts && lib.compare(req.password, accounts[req.email].password))
      && (reply.body.Token? ==>
            reply.status == 200 && reply.body.authToken == lib.sign(TokenClaim(accounts[req.email].id)))
      && (passes && req.email !in accounts ==> reply == UnknownEmail)
      && (passes && req.email in accounts && !lib.compare(req.password, accounts[req.email].password) ==>
            reply == WrongPassword)
      && UnknownEmail.status == WrongPassword.status && UnknownEmail.body != WrongPassword.body
  {
  }

  /** Two different registered emails that log in get tokens signed over different claims. */
  lemma LoginClaimsDiffer(accounts: Accounts, nextId: nat, lib: Library, a: Credentials, b: Credentials)
    requires WellFormed(accounts, nextId)
    requires a.email in accounts && b.email in accounts && a.email != b.email
    ensures TokenClaim(accounts[a.email].id) != TokenClaim(accounts[b.email].id)
  {
  }

  /** `bcrypt.compare` accepts a password against any hash of it. */
  ghost predicate HashesVerify(lib: Library) {
    forall p: string, s: string :: lib.compare(p, lib.hash(p, s))
  }

  /** With a sound hash pair, registering and then logging in with the same email and
      password yields a token for the new account. */
  lemma RegisterThenLogin(accounts: Accounts, nextId: nat, lib: Library, req: Registration, salt: string)
    requires HashesVerify(lib)
    requires RegisterErrors(lib, req) == [] && req.email !in accounts
    ensures var (_, after) := RegisterStep(accounts, nextId, lib, req, salt, false);
      LoginReply(after, lib, Credentials(req.email, req.password), false)
        == Reply(200, Token(lib.sign(TokenClaim(nextId))))
  {
    assert lib.compare(req.password, lib.hash(req.password, salt));
  }

  // ---------------------------------------------------------------------------------
  // The user collection

  class AccountRegistry {
    const lib: Library
    var accounts: Accounts
    var nextId: nat

    ghost predicate Valid()
      reads this
    {
      WellFormed(accounts, nextId)
    }

    constructor (lib: Library)
      ensures Valid() && this.lib == lib && accounts == map[] && nextId == 0
    {
      this.lib := lib;
      accounts := map[];
      nextId := 0;
    }

    /** POST /CreateUser: validators, then `findOne({ email })`, then `genSalt` and `hash`
        (here `salt`), then `create`. */
    method Register(req: Registration, salt: string, fault: bool) returns (reply: Reply)
      requires Valid()
      modifies this
      ensures Valid()
      ensures (reply, accounts) == RegisterStep(old(accounts), old(nextId), lib, req, salt, fault)
      ensures nextId == if reply.body == Success(true) then old(nextId) + 1 else old(nextId)
    {
      var errs := RegisterErrors(lib, req);
      if errs != [] {
        return Reply(400, Errors(errs));
      }
      if req.email in accounts {
        return Duplicate;
      }
      if fault {
        return Reply(200, Success(false));
      }
      var secured := lib.hash(req.password, salt);
      accounts := accounts[req.email := Account(nextId, req.name, req.email, req.contactNumber, secured)];
      nextId := nextId + 1;
      reply := Reply(200, Success(true));
    }

    /** POST /LoginUser: validators, then `findOne({ email })`, `compare` and `sign`. It has
        no `modifies` clause: login never changes the collection. */
    method Login(req: Credentials, fault: bool) returns (reply: Reply)
      ensures reply == LoginReply(accounts, lib, req, fault)
    {
      var errs := LoginErrors(lib, req);
      if errs != [] {
        return Reply(400, Errors(errs));
      }
      if fault {
        return Reply(200, Success(false));
      }
      if req.email !in accounts {
        return UnknownEmail;
      }
      var found := accounts[req.email];
      if !lib.compare(req.password, found.password) {
        return WrongPassword;
      }
      reply := Reply(200, Token(lib.sign(TokenClaim(found.id))));
    }
  }
}
