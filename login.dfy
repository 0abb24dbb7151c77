/**
 * Committing a login into the client's fields (`_on_login`), undoing it
 * (`log_out`), and the two operations that end in a login: `sign_in`, a
 * priority-ordered dispatch, and `sign_up`.
 */
module Login {
  import opened AuthTypes
  import opened CodeRequest

  /** `_on_login(user)`: the bot flag, the self peer and the authorized flag, nothing else. */
  function OnLoginSpec(env: Env, st: ClientState, user: User): (st': ClientState)
    ensures st'.authorized == Some(true)
    ensures st'.bot == Some(user.bot == Some(true))
    ensures st'.selfPeer == Some(env.inputPeer(user))
    ensures st' == st.(bot := st'.bot, selfPeer := st'.selfPeer, authorized := st'.authorized)
  {
    st.(bot := Some(user.bot == Some(true)), selfPeer := Some(env.inputPeer(user)), authorized := Some(true))
  }

  /** Committing the same user twice is the same as committing it once. */
  lemma OnLoginIdempotent(env: Env, st: ClientState, user: User)
    ensures OnLoginSpec(env, OnLoginSpec(env, st, user), user) == OnLoginSpec(env, st, user)
  {
  }

  /**
   * `log_out()`: one LogOut request. When it raises, the only change is the
   * log; otherwise the three login fields are cleared, the state cache is
   * reset, the client disconnects and the session is deleted.
   */
  function LogOutSpec(env: Env, st: ClientState): (r: Step<bool>)
    ensures r.out.Ok?
    ensures r.out.value <==> env.server.done(st.log + [LogOut]).Answer?
    ensures !r.out.value ==> r.st == st.(log := st.log + [LogOut])
    ensures r.out.value ==>
      r.st == st.(log := st.log + [LogOut], bot := None, selfPeer := None, authorized := Some(false),
                  stateResets := st.stateResets + 1, disconnects := st.disconnects + 1,
                  sessionDeletes := st.sessionDeletes + 1)
  {
    var st1 := Issue(st, LogOut);
    match env.server.done(st1.log)
    case Raised(_) => Step(st1, Ok(false))
    case Answer(_) =>
      Step(st1.(bot := None, selfPeer := None, authorized := Some(false),
                stateResets := st1.stateResets + 1, disconnects := st1.disconnects + 1,
                sessionDeletes := st1.sessionDeletes + 1),
           Ok(true))
  }

  /** A log-out followed by a login commits exactly the new user's flags. */
  lemma LoginAfterLogOut(env: Env, st: ClientState, user: User)
    requires env.server.done(st.log + [LogOut]).Answer?
    ensures var st' := OnLoginSpec(env, LogOutSpec(env, st).st, user);
      && st'.authorized == Some(true)
      && st'.bot == Some(user.bot == Some(true))
      && st'.stateResets == st.stateResets + 1
  {
  }

  /** The branches of `sign_in`, in the order the source tries them. */
  datatype SignInRoute = RequestCode | CheckCode | CheckPasswordRoute | ImportBot | NoCredentialsRoute

  /**
   * Dispatch of `sign_in`: a phone alone requests a code; otherwise a code
   * wins over a password, a password over a bot token; with none of them the
   * call is a ValueError.
   */
  function Route(phone: Option<string>, code: Option<string>, password: Option<string>, botToken: Option<string>)
    : (r: SignInRoute)
    ensures r == RequestCode <==> Given(phone) && !Given(code) && !Given(password)
    ensures r == CheckCode <==> Given(code)
    ensures r == CheckPasswordRoute <==> !Given(code) && Given(password)
    ensures r == ImportBot <==> !Given(phone) && !Given(code) && !Given(password) && Given(botToken)
    ensures r == NoCredentialsRoute <==> !Given(phone) && !Given(code) && !Given(password) && !Given(botToken)
  {
    if Given(phone) && !Given(code) && !Given(password) then RequestCode
    else if Given(code) then CheckCode
    else if Given(password) then CheckPasswordRoute
    else if Given(botToken) then ImportBot
    else NoCredentialsRoute
  }

  /** What `sign_in` returns: a user, or the SentCode of the code request it made. */
  datatype SignInValue = SignedInAs(user: User) | CodeSent(sent: SentCode)

  /** A user, or the error, as a `sign_in` result. */
  function AsSignedIn(o: Result<User, Error>): (r: Result<SignInValue, Error>)
    ensures r.Ok? <==> o.Ok?
    ensures r.Ok? ==> r.value == SignedInAs(o.value)
    ensures r.Err? ==> r.error == o.error
  {
    match o
    case Ok(user) => Ok(SignedInAs(user))
    case Err(e) => Err(e)
  }

  /** A SentCode, or the error, as a `sign_in` result. */
  function AsCodeSent(o: Result<SentCode, Error>): (r: Result<SignInValue, Error>)
    ensures r.Ok? <==> o.Ok?
    ensures r.Ok? ==> r.value == CodeSent(o.value)
    ensures r.Err? ==> r.error == o.error
  {
    match o
    case Ok(sent) => Ok(CodeSent(sent))
    case Err(e) => Err(e)
  }

  /** One authorizing request; a user in the reply is committed by `_on_login`. */
  function AuthorizeSpec(env: Env, st: ClientState, req: Request): (r: Step<User>)
    ensures r.st.log == st.log + [req]
    ensures r.out.Ok? <==> env.server.authorization(st.log + [req]).Answer?
    ensures r.out.Ok? ==> r.st == OnLoginSpec(env, Issue(st, req), r.out.value)
    ensures r.out.Err? ==> r.st == Issue(st, req) && r.out.error == Rpc(env.server.authorization(st.log + [req]).rpc)
    ensures r.out.Err? ==> CallError(r.out.error)
  {
    var st1 := Issue(st, req);
    match env.server.authorization(st1.log)
    case Raised(e) => Step(st1, Err(Rpc(e)))
    case Answer(user) => Step(OnLoginSpec(env, st1, user), Ok(user))
  }

  /** `get_me()` as used by `sign_in` and `sign_up`: one GetSelf request. */
  function GetMeSpec(env: Env, st: ClientState): (r: Step<Option<User>>)
    ensures r.st == Issue(st, GetSelf)
    ensures r.out.Err? ==> CallError(r.out.error)
  {
    var st1 := Issue(st, GetSelf);
    match env.server.self(st1.log)
    case Raised(e) => Step(st1, Err(Rpc(e)))
    case Answer(me) => Step(st1, Ok(me))
  }

  /**
   * The password branch of `sign_in`: GetPassword, then CheckPassword with
   * the SRP proof of the password against the descriptor it returned.
   */
  function PasswordSignInSpec(env: Env, st: ClientState, password: string): (r: Step<User>)
    ensures |r.st.log| > |st.log| && r.st.log[..|st.log| + 1] == st.log + [GetPassword]
    ensures env.server.password(st.log + [GetPassword]).Raised? ==>
      r == Step(Issue(st, GetPassword), Err(Rpc(env.server.password(st.log + [GetPassword]).rpc)))
    ensures env.server.password(st.log + [GetPassword]).Answer? ==>
      r == AuthorizeSpec(env, Issue(st, GetPassword),
                         CheckPassword(CheckSrp(env.computeCheck(env.server.password(st.log + [GetPassword]).value, password))))
    ensures r.out.Err? ==> CallError(r.out.error)
  {
    var st1 := Issue(st, GetPassword);
    match env.server.password(st1.log)
    case Raised(e) => Step(st1, Err(Rpc(e)))
    case Answer(pwd) =>
      var a := AuthorizeSpec(env, st1, CheckPassword(CheckSrp(env.computeCheck(pwd, password))));
      assert a.st.log[..|st.log| + 1] == st1.log;
      a
  }

  /** The branch of `sign_in` taken when nobody is logged in, after the GetSelf request. */
  function DispatchSpec(env: Env, st: ClientState, phone: Option<string>, code: Option<string>,
                        password: Option<string>, botToken: Option<string>, codeHash: Option<string>)
    : (r: Step<SignInValue>)
    ensures |r.st.log| >= |st.log| && r.st.log[..|st.log|] == st.log
    ensures r.st.stateResets == st.stateResets && r.st.disconnects == st.disconnects
    ensures r.st.sessionDeletes == st.sessionDeletes
    ensures r.out.Err? ==> CallError(r.out.error)
  {
    match Route(phone, code, password, botToken)
    case RequestCode =>
      var s := SendCodeSpec(env, st, phone.value, false, env.restartFuel);
      Step(s.st, AsCodeSent(s.out))
    case CheckCode =>
      (match ParsePhoneAndHash(env.parsePhone, st, phone, codeHash)
       case Err(e) => Step(st, Err(e))
       case Ok(ph) =>
         var a := AuthorizeSpec(env, st, SignIn(ph.0, ph.1, code.value));
         Step(a.st, AsSignedIn(a.out)))
    case CheckPasswordRoute =>
      var a := PasswordSignInSpec(env, st, password.value);
      assert a.st.log[..|st.log|] == a.st.log[..|st.log| + 1][..|st.log|];
      Step(a.st, AsSignedIn(a.out))
    case ImportBot =>
      var a := AuthorizeSpec(env, st, ImportBotAuthorization(botToken.value, env.apiId, env.apiHash));
      Step(a.st, AsSignedIn(a.out))
    case NoCredentialsRoute => Step(st, Err(ValueError(NoCredentials)))
  }

  /** `sign_in(phone, code, password=, bot_token=, phone_code_hash=)`. */
  function SignInSpec(env: Env, st: ClientState, phone: Option<string>, code: Option<string>,
                      password: Option<string>, botToken: Option<string>, codeHash: Option<string>)
    : (r: Step<SignInValue>)
    ensures |r.st.log| > |st.log| && r.st.log[..|st.log| + 1] == st.log + [GetSelf]
    ensures r.st.stateResets == st.stateResets && r.st.disconnects == st.disconnects
    ensures r.st.sessionDeletes == st.sessionDeletes
    ensures r.out.Err? ==> CallError(r.out.error)
  {
    var me := GetMeSpec(env, st);
    var st1 := me.st;
    if me.out.Err? then Step(st1, Err(me.out.error))
    else if me.out.value.Some? then Step(st1, Ok(SignedInAs(me.out.value.value)))
    else
      var d := DispatchSpec(env, st1, phone, code, password, botToken, codeHash);
      assert d.st.log[..|st.log| + 1] == d.st.log[..|st1.log|];
      d
  }

  /** When `get_me` finds a logged-in user, `sign_in` returns it after that single request and changes nothing else. */
  lemma SignInWhenLoggedIn(env: Env, st: ClientState, phone: Option<string>, code: Option<string>,
                           password: Option<string>, botToken: Option<string>, codeHash: Option<string>, me: User)
    requires env.server.self(st.log + [GetSelf]) == Answer(Some(me))
    ensures SignInSpec(env, st, phone, code, password, botToken, codeHash) == Step(Issue(st, GetSelf), Ok(SignedInAs(me)))
  {
  }

  /**
   * When nobody is logged in, the request after GetSelf is the one of the
   * route: SendCode or ResendCode for a phone alone, SignIn with the parsed
   * phone and hash for a code (none if they cannot be resolved), GetPassword
   * for a password, ImportBotAuthorization for a bot token, and none at all
   * when nothing usable is given.
   */
  lemma SignInDispatch(env: Env, st: ClientState, phone: Option<string>, code: Option<string>,
                       password: Option<string>, botToken: Option<string>, codeHash: Option<string>)
    requires env.server.self(st.log + [GetSelf]) == Answer(None)
    ensures var r := SignInSpec(env, st, phone, code, password, botToken, codeHash);
      var n := |st.log| + 1;
      var st1 := Issue(st, GetSelf);
      match Route(phone, code, password, botToken)
      case RequestCode => |r.st.log| > n && (r.st.log[n].SendCode? || r.st.log[n].ResendCode?)
      case CheckCode =>
        (match ParsePhoneAndHash(env.parsePhone, st1, phone, codeHash)
         case Err(e) => r == Step(st1, Err(e))
         case Ok(ph) => |r.st.log| == n + 1 && r.st.log[n] == SignIn(ph.0, ph.1, code.value))
      case CheckPasswordRoute => |r.st.log| > n && r.st.log[n] == GetPassword
      case ImportBot => |r.st.log| == n + 1 && r.st.log[n] == ImportBotAuthorization(botToken.value, env.apiId, env.apiHash)
      case NoCredentialsRoute => r == Step(st1, Err(ValueError(NoCredentials)))
  {
    var st1 := Issue(st, GetSelf);
    var n := |st.log| + 1;
    assert SignInSpec(env, st, phone, code, password, botToken, codeHash) == DispatchSpec(env, st1, phone, code, password, botToken, codeHash);
    match Route(phone, code, password, botToken)
    case RequestCode =>
      var s := SendCodeSpec(env, st1, phone.value, false, env.restartFuel);
      assert s.st.log[n] == s.st.log[|st1.log|];
    case CheckCode =>
    case CheckPasswordRoute =>
    case ImportBot =>
    case NoCredentialsRoute =>
  }

  /**
   * An empty password with a phone and no code is not a password attempt:
   * `sign_in` takes the code-request branch, so a success is a SentCode and
   * leaves the login fields as they were.
   */
  lemma EmptyPasswordRequestsCode(env: Env, st: ClientState, phone: string)
    requires phone != ""
    requires env.server.self(st.log + [GetSelf]) == Answer(None)
    ensures var r := SignInSpec(env, st, Some(phone), None, Some(""), None, None);
      && (r.st.log[|st.log| + 1].SendCode? || r.st.log[|st.log| + 1].ResendCode?)
      && (r.out.Ok? ==> r.out.value.CodeSent? && r.st.authorized == st.authorized && r.st.bot == st.bot)
  {
    var st1 := Issue(st, GetSelf);
    var s := SendCodeSpec(env, st1, phone, false, env.restartFuel);
    assert s.st.log[|st.log| + 1] == s.st.log[|st1.log|];
  }

  /** A successful SignIn, CheckPassword or ImportBotAuthorization reply is committed by `_on_login`. */
  lemma SignInCommitsLogin(env: Env, st: ClientState, phone: Option<string>, code: Option<string>,
                           password: Option<string>, botToken: Option<string>, codeHash: Option<string>)
    requires env.server.self(st.log + [GetSelf]) == Answer(None)
    requires Route(phone, code, password, botToken) != RequestCode
    ensures var r := SignInSpec(env, st, phone, code, password, botToken, codeHash);
      r.out.Ok? ==> r.out.value.SignedInAs? && r.st == OnLoginSpec(env, r.st.(bot := st.bot, selfPeer := st.selfPeer, authorized := st.authorized), r.out.value.user)
  {
  }

  /** `sign_up(code, first_name, last_name, phone=, phone_code_hash=)`. */
  function SignUpSpec(env: Env, st: ClientState, code: string, firstName: string, lastName: string,
                      phone: Option<string>, codeHash: Option<string>)
    : (r: Step<User>)
    ensures |r.st.log| > |st.log| && r.st.log[..|st.log| + 1] == st.log + [GetSelf]
    ensures r.st.phone == st.phone && r.st.codeHashes == st.codeHashes && r.st.tos == st.tos
    ensures r.out.Err? ==> CallError(r.out.error)
  {
    var me := GetMeSpec(env, st);
    var st1 := me.st;
    if me.out.Err? then Step(st1, Err(me.out.error))
    else if me.out.value.Some? then Step(st1, Ok(me.out.value.value))
    else match ParsePhoneAndHash(env.parsePhone, st1, phone, codeHash)
      case Err(e) => Step(st1, Err(e))
      case Ok(ph) =>
        var st2 := Issue(st1, SignUp(ph.0, ph.1, code, firstName, lastName));
        (match env.server.authorization(st2.log)
         case Raised(e) => Step(st2, Err(Rpc(e)))
         case Answer(user) =>
           if st2.tos.None? then Step(OnLoginSpec(env, st2, user), Ok(user))
           else
             var st3 := Issue(st2, AcceptTermsOfService(st2.tos.value.id));
             assert st3.log[..|st.log| + 1] == st2.log[..|st.log| + 1];
             (match env.server.done(st3.log)
              case Raised(e) => Step(st3, Err(Rpc(e)))
              case Answer(_) => Step(OnLoginSpec(env, st3, user), Ok(user))))
  }

  /**
   * A sign-up that reaches the server sends SignUp with the parsed phone and
   * hash and then accepts the terms of service exactly when terms are cached;
   * on success the new user is committed.
   */
  lemma SignUpAcceptsCachedTerms(env: Env, st: ClientState, code: string, firstName: string, lastName: string,
                                 phone: Option<string>, codeHash: Option<string>, user: User)
    requires env.server.self(st.log + [GetSelf]) == Answer(None)
    requires ParsePhoneAndHash(env.parsePhone, Issue(st, GetSelf), phone, codeHash).Ok?
    requires var ph := ParsePhoneAndHash(env.parsePhone, Issue(st, GetSelf), phone, codeHash).value;
      env.server.authorization(st.log + [GetSelf, SignUp(ph.0, ph.1, code, firstName, lastName)]) == Answer(user)
    ensures var ph := ParsePhoneAndHash(env.parsePhone, Issue(st, GetSelf), phone, codeHash).value;
      var r := SignUpSpec(env, st, code, firstName, lastName, phone, codeHash);
      && r.st.log == st.log + [GetSelf, SignUp(ph.0, ph.1, code, firstName, lastName)]
                           + (if st.tos.Some? then [AcceptTermsOfService(st.tos.value.id)] else [])
      && (r.out.Ok? ==> r.out.value == user && r.st.authorized == Some(true))
  {
    var ph := ParsePhoneAndHash(env.parsePhone, Issue(st, GetSelf), phone, codeHash).value;
    assert st.log + [GetSelf] + [SignUp(ph.0, ph.1, code, firstName, lastName)]
        == st.log + [GetSelf, SignUp(ph.0, ph.1, code, firstName, lastName)];
  }
}
