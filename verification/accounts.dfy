/** The account helpers of the user views: the e-mail address derived from a mobile
    number (login and registration), and `RegisterUserView.post` with
    `get_create_new_user`. */
module Accounts {
  import opened Options
  import opened Decimal
  import opened PyValues
  import opened Customers
  import opened Password

  const EmailDomain: string := "@z2h.com"

  /** `str(mobile_number) + "@z2h.com"`, the one derivation both `UserLoginView.post`
      and `get_create_new_user` apply to the request's `mobile_number` value. */
  function AccountEmail(req: Request): (email: string)
    ensures |email| >= |EmailDomain| && email[|email| - |EmailDomain|..] == EmailDomain
  {
    var local := PyStr(Get(req, "mobile_number"));
    assert (local + EmailDomain)[|local|..] == EmailDomain;
    local + EmailDomain
  }

  /** The part of an account e-mail before the domain. */
  function LocalPart(email: string): string
    requires |email| >= |EmailDomain|
  {
    email[..|email| - |EmailDomain|]
  }

  /** An integer mobile number can be read back from its account e-mail. */
  lemma MobileRoundTrip(req: Request, n: int)
    requires Get(req, "mobile_number") == Int(n)
    ensures ParseInt(LocalPart(AccountEmail(req))) == Some(n)
  {
    var local := IntToDecimal(n);
    assert LocalPart(local + EmailDomain) == local;
    IntRoundTrip(n);
  }

  /** Different integer mobile numbers never share an account e-mail. */
  lemma AccountEmailInjective(req1: Request, req2: Request, m: int, n: int)
    requires Get(req1, "mobile_number") == Int(m) && Get(req2, "mobile_number") == Int(n)
    requires AccountEmail(req1) == AccountEmail(req2)
    ensures m == n
  {
    MobileRoundTrip(req1, m);
    MobileRoundTrip(req2, n);
  }

  /** The number sent as a JSON integer or as its decimal string names the same account. */
  lemma StringOrIntSameEmail(req1: Request, req2: Request, n: int)
    requires Get(req1, "mobile_number") == Int(n) && Get(req2, "mobile_number") == Str(IntToDecimal(n))
    ensures AccountEmail(req1) == AccountEmail(req2)
  {
  }

  /** A request without a mobile number still yields an address, the same for all
      such requests. */
  lemma MissingMobileEmail(req: Request)
    requires "mobile_number" !in req
    ensures AccountEmail(req) == "None@z2h.com"
  {
  }

  // ---------------------------------------------------------------------------
  // Registration

  /** A user account: its generated uid, its name and its password. */
  datatype User = User(uid: string, name: Value, password: string)

  /** A registration record: the referrer found, and the request's mobile number and name. */
  datatype Registration = Registration(referredBy: Id, mobile: Value, name: Value)

  /** The user accounts by e-mail, the registrations in creation order, and the
      customer table the referrer is looked up in. */
  datatype Accounts = Accounts(users: map<string, User>, registrations: seq<Registration>, customers: Table)

  /** What `get_create_new_user` returns: `"user_exists"`, `None`, or the new user's
      data together with the generated password. */
  datatype NewUser =
    | UserExists
    | NoUser
    | NewUser(email: string, password: string)

  datatype Creation = Creation(outcome: NewUser, accounts: Accounts)

  /** The answers of `RegisterUserView.post`; a success carries the new user's uid. */
  datatype RegisterResponse =
    | NoReferrer
    | InvalidRegistration
    | SomethingWentWrong
    | UserAlreadyExists
    | Created(uid: string)

  /** The credentials e-mail sent after a registration: its addressee, the name
      and the password its body names. */
  datatype Mail = Mail(to: Value, name: Value, password: string)

  datatype Registered = Registered(response: RegisterResponse, accounts: Accounts, mail: Option<Mail>)

  /** The customers whose uid is the given request value. */
  function CustomersWithUid(t: Table, v: Value): set<Id> {
    set i | i in t && v.Str? && t[i].uid == v.s
  }

  /** The referrer a registration names: the lowest-id customer whose uid is the
      request's `referred_by` value, if any. */
  function FindReferrer(t: Table, v: Value): (r: Option<Id>)
    ensures r.None? <==> forall i :: i in t ==> !(v.Str? && t[i].uid == v.s)
    ensures r.Some? ==> r.value in t && v.Str? && t[r.value].uid == v.s
    ensures r.Some? ==> forall i :: i in t && v.Str? && t[i].uid == v.s ==> r.value <= i
  {
    var found := CustomersWithUid(t, v);
    assert forall i :: i in t && v.Str? && t[i].uid == v.s ==> i in found;
    if found == {} then None else Some(MinId(found))
  }

  /** A customer is the referrer found exactly when it has the requested uid and no
      customer with a lower id has it. */
  lemma FindReferrerIsLeast(t: Table, v: Value, c: Id)
    ensures FindReferrer(t, v) == Some(c) <==>
      c in t && v.Str? && t[c].uid == v.s && forall i :: i in t && v.Str? && t[i].uid == v.s ==> c <= i
  {
    if c in t && v.Str? && t[c].uid == v.s && forall i :: i in t && v.Str? && t[i].uid == v.s ==> c <= i {
      var r := FindReferrer(t, v);
      assert r.Some?;
      assert r.value <= c && c <= r.value;
    }
  }

  /** What the serializers decide, the uid the database gives a new user, and the
      random draws of `generate_password`. */
  datatype Judgement = Judgement(registrationValid: bool, userValid: bool, newUid: string, draws: Draws)

  /** `get_create_new_user` */
  function CreateNewUser(a: Accounts, req: Request, j: Judgement): (r: Creation)
    requires DrawsFit(8, j.draws)
    ensures AccountEmail(req) in a.users ==> r == Creation(UserExists, a)
    ensures AccountEmail(req) !in a.users && !j.userValid ==> r == Creation(NoUser, a)
    ensures AccountEmail(req) !in a.users && j.userValid ==> r.outcome.NewUser?
    ensures r.outcome.NewUser? ==>
      r.accounts == a.(users := a.users[AccountEmail(req) := User(j.newUid, Get(req, "name"), r.outcome.password)]) &&
      r.outcome.email == AccountEmail(req) && |r.outcome.password| == 9
  {
    var email := AccountEmail(req);
    if email in a.users then Creation(UserExists, a)
    else
      var password := GeneratePassword(8, j.draws);
      if j.userValid then
        Creation(NewUser(email, password), a.(users := a.users[email := User(j.newUid, Get(req, "name"), password)]))
      else Creation(NoUser, a)
  }

  /** `RegisterUserView.post`: an unknown referrer, then an invalid registration,
      then the outcome of `get_create_new_user`. Only a created user is followed by
      the registration record, the answer with the uid of the user stored under the
      e-mail, and the credentials e-mail to the request's `email_address`. */
  function RegisterUser(a: Accounts, req: Request, j: Judgement): (r: Registered)
    requires DrawsFit(8, j.draws)
    ensures r.response.Created? <==>
      FindReferrer(a.customers, Get(req, "referred_by")).Some? && j.registrationValid &&
      AccountEmail(req) !in a.users && j.userValid
    ensures !r.response.Created? ==> r.accounts == a && r.mail.None?
    ensures r.response.Created? ==>
      AccountEmail(req) in r.accounts.users && r.response.uid == r.accounts.users[AccountEmail(req)].uid &&
      r.mail == Some(Mail(Get(req, "email_address"), Get(req, "name"), r.accounts.users[AccountEmail(req)].password))
    ensures r.accounts.customers == a.customers
  {
    var found := FindReferrer(a.customers, Get(req, "referred_by"));
    if found.None? then Registered(NoReferrer, a, None)
    else if !j.registrationValid then Registered(InvalidRegistration, a, None)
    else
      var created := CreateNewUser(a, req, j);
      if created.outcome.NoUser? then Registered(SomethingWentWrong, a, None)
      else if created.outcome.UserExists? then Registered(UserAlreadyExists, a, None)
      else
        var email := created.outcome.email;
        var record := Registration(found.value, Get(req, "mobile_number"), Get(req, "name"));
        var accounts := created.accounts.(registrations := a.registrations + [record]);
        Registered(Created(accounts.users[email].uid), accounts,
                   Some(Mail(Get(req, "email_address"), Get(req, "name"), created.outcome.password)))
  }

  /** An unknown referrer is answered before anything is created. */
  lemma UnknownReferrerRejected(a: Accounts, req: Request, j: Judgement)
    requires DrawsFit(8, j.draws)
    requires forall i :: i in a.customers ==> !(Get(req, "referred_by").Str? && a.customers[i].uid == Get(req, "referred_by").s)
    ensures RegisterUser(a, req, j) == Registered(NoReferrer, a, None)
  {
  }

  /** An address already in use is answered with "user exists" and creates nothing. */
  lemma ExistingUserRejected(a: Accounts, req: Request, j: Judgement)
    requires DrawsFit(8, j.draws)
    requires FindReferrer(a.customers, Get(req, "referred_by")).Some? && j.registrationValid
    requires AccountEmail(req) in a.users
    ensures RegisterUser(a, req, j) == Registered(UserAlreadyExists, a, None)
  {
  }

  /** A new address with a valid user is stored with the generated password. */
  lemma CreateNewUserCreates(a: Accounts, req: Request, j: Judgement)
    requires DrawsFit(8, j.draws)
    requires AccountEmail(req) !in a.users && j.userValid
    ensures var password := GeneratePassword(8, j.draws);
      CreateNewUser(a, req, j) ==
      Creation(NewUser(AccountEmail(req), password), a.(users := a.users[AccountEmail(req) := User(j.newUid, Get(req, "name"), password)]))
  {
  }

  /** What a successful registration answers, stores and mails. */
  lemma RegisterUserCreated(a: Accounts, req: Request, j: Judgement)
    requires DrawsFit(8, j.draws)
    requires FindReferrer(a.customers, Get(req, "referred_by")).Some? && j.registrationValid
    requires AccountEmail(req) !in a.users && j.userValid
    ensures var email := AccountEmail(req);
      var password := GeneratePassword(8, j.draws);
      var referrer := FindReferrer(a.customers, Get(req, "referred_by")).value;
      RegisterUser(a, req, j) ==
      Registered(Created(j.newUid),
                 a.(users := a.users[email := User(j.newUid, Get(req, "name"), password)],
                    registrations := a.registrations + [Registration(referrer, Get(req, "mobile_number"), Get(req, "name"))]),
                 Some(Mail(Get(req, "email_address"), Get(req, "name"), password)))
  {
    var email := AccountEmail(req);
    var password := GeneratePassword(8, j.draws);
    CreateNewUserCreates(a, req, j);
    var created := CreateNewUser(a, req, j);
    assert !created.outcome.NoUser? && !created.outcome.UserExists?;
    var found := FindReferrer(a.customers, Get(req, "referred_by"));
    var record := Registration(found.value, Get(req, "mobile_number"), Get(req, "name"));
    var accounts := created.accounts.(registrations := a.registrations + [record]);
    assert accounts.users[email].uid == j.newUid;
    assert RegisterUser(a, req, j) == Registered(Created(accounts.users[email].uid), accounts, Some(Mail(Get(req, "email_address"), Get(req, "name"), password)));
  }

  /** Storing a user under a new address adds that one key and keeps the others. */
  lemma AddedUser(users: map<string, User>, email: string, u: User)
    requires email !in users
    ensures users[email := u].Keys == users.Keys + {email}
    ensures forall e :: e in users ==> users[email := u][e] == users[e]
  {
  }

  /** A successful registration adds exactly one user, under the derived address and
      with a generated password, and one registration naming the referrer found; it
      answers with the new user's uid and mails the password, never answering with it. */
  lemma RegistrationCreates(a: Accounts, req: Request, j: Judgement)
    requires DrawsFit(8, j.draws)
    requires FindReferrer(a.customers, Get(req, "referred_by")).Some? && j.registrationValid
    requires AccountEmail(req) !in a.users && j.userValid
    ensures var r := RegisterUser(a, req, j);
      var email := AccountEmail(req);
      var password := GeneratePassword(8, j.draws);
      var referrer := FindReferrer(a.customers, Get(req, "referred_by"));
      r.response == Created(j.newUid) &&
      r.accounts.users.Keys == a.users.Keys + {email} &&
      r.accounts.users[email] == User(j.newUid, Get(req, "name"), password) &&
      (forall e :: e in a.users ==> r.accounts.users[e] == a.users[e]) &&
      r.accounts.registrations == a.registrations + [Registration(referrer.value, Get(req, "mobile_number"), Get(req, "name"))] &&
      r.mail == Some(Mail(Get(req, "email_address"), Get(req, "name"), password))
  {
    var email := AccountEmail(req);
    RegisterUserCreated(a, req, j);
    AddedUser(a.users, email, User(j.newUid, Get(req, "name"), GeneratePassword(8, j.draws)));
  }
}
