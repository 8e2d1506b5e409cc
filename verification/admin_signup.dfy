/**
 * The admin sign-up handler: refuse an e-mail already registered,
 * otherwise store the user with a hashed password and user type "A".
 * The handler does not run the sign-up form's schema. The salt and the
 * hash function are parameters.
 */
module AdminSignup {
  import opened Wrappers
  import opened Text
  import opened StoredModels
  import opened SignupSchema

  datatype SignupBody = SignupBody(email: string, password: string)

  datatype SignupReply = SignupReply(status: int, success: bool, msg: string)

  datatype SignupOutcome = SignupOutcome(reply: SignupReply, users: seq<User>)

  /** `findOne({ email })`: the store trims the e-mail of the query as it trims the stored ones. */
  predicate Registered(users: seq<User>, email: string) {
    exists u | u in users :: u.email == Trim(email)
  }

  /** `POST`. */
  function Register(users: seq<User>, body: SignupBody, salt: string, hash: (string, string) -> string): (o: SignupOutcome)
    ensures o.reply.status in {200, 400, 500}
    ensures o.reply.status != 200 ==> o.users == users && !o.reply.success
    ensures o.reply.status == 400 <==> Registered(users, body.email)
    ensures o.reply.status == 500 <==> !Registered(users, body.email)
                                       && (Trim(hash(body.password, salt)) == "" || !UserEmailShape(Trim(body.email)))
    ensures o.reply.status == 200 <==> !Registered(users, body.email)
                                       && Trim(hash(body.password, salt)) != "" && UserEmailShape(Trim(body.email))
    ensures o.reply.status == 200 ==>
              && o.users == users + [NewUser(body.email, hash(body.password, salt), "A")]
              && o.users[|users|].userType == "A"
              && UserDocumentValid(o.users[|users|])
  {
    if Registered(users, body.email) then
      SignupOutcome(SignupReply(400, false, "User with this email already exist"), users)
    else
      var user := NewUser(body.email, hash(body.password, salt), "A");
      if !UserDocumentValid(user) then SignupOutcome(SignupReply(500, false, "Error regestering Admin"), users)
      else SignupOutcome(SignupReply(200, true, "Admin registered successfully"), users + [user])
  }

  /** Registering keeps the collection's e-mails unique. */
  lemma RegisterKeepsEmailsUnique(users: seq<User>, body: SignupBody, salt: string, hash: (string, string) -> string)
    requires UniqueEmails(users)
    ensures UniqueEmails(Register(users, body, salt, hash).users)
  {
    var o := Register(users, body, salt, hash);
    if o.reply.status == 200 {
      forall a, b | 0 <= a < b < |o.users| ensures o.users[a].email != o.users[b].email {
        if b == |users| {
          assert o.users[a] in users;
        }
      }
    }
  }

  /** The same e-mail, with or without surrounding blanks, cannot register twice. */
  lemma SecondRegistrationRefused(users: seq<User>, body: SignupBody, email2: string, password2: string, salt: string, hash: (string, string) -> string)
    requires Register(users, body, salt, hash).reply.status == 200
    requires Trim(email2) == Trim(body.email)
    ensures Register(Register(users, body, salt, hash).users, SignupBody(email2, password2), salt, hash).reply.status == 400
  {
    var o := Register(users, body, salt, hash);
    assert o.users[|users|] in o.users;
    TrimIdempotent(body.email);
  }

  /**
   * The handler stores whatever password it is sent: one the form's
   * pattern refuses is still registered, given a usable hash.
   */
  lemma WeakPasswordStillRegistered(users: seq<User>, email: string, salt: string, hash: (string, string) -> string)
    requires !Registered(users, email)
    requires UserEmailShape(Trim(email))
    requires Trim(hash("a", salt)) != ""
    ensures !PasswordPattern("a")
    ensures Register(users, SignupBody(email, "a"), salt, hash).reply.status == 200
  {
    TrimKeepsTrimmed("A");
    var u := NewUser(email, hash("a", salt), "A");
    assert u.userType == "A";
    assert UserEmailShape(u.email);
    assert u.email != "";
    assert UserDocumentValid(u);
    assert !Lookahead("a", IsUpper);
  }
}
