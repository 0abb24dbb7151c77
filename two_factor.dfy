/**
 * `edit_2fa`: setting, changing or removing the two-factor password,
 * with the optional email confirmation round.
 */
module TwoFactor {
  import opened AuthTypes

  /** `email_code_callback`: absent (or not callable), or a function of the expected code length. */
  datatype EmailCodeArg = NoEmailCallback | EmailCallback(answer: int -> string)

  /** What goes into UpdatePasswordSettings: the refreshed descriptor, the old-password proof, the new digest. */
  datatype PasswordChange = PasswordChange(pwd: PasswordInfo, check: PasswordCheck, newHash: seq<byte>)

  /**
   * The decisions of `edit_2fa` once the descriptor is fetched: `randomBytes` is
   * appended to `new_algo.salt1`; a current password counts only when the
   * account has one and yields an SRP proof, otherwise the empty sentinel;
   * a new password yields its digest over the refreshed parameters,
   * otherwise the empty digest.
   */
  function PlanChange(computeCheck: (PasswordInfo, string) -> seq<byte>, computeDigest: (KdfAlgo, string) -> seq<byte>,
                      pwd: PasswordInfo, currentPassword: Option<string>, newPassword: Option<string>, randomBytes: seq<byte>)
    : (c: PasswordChange)
    ensures c.pwd == pwd.(newAlgo := pwd.newAlgo.(salt1 := pwd.newAlgo.salt1 + randomBytes))
    ensures |c.pwd.newAlgo.salt1| == |pwd.newAlgo.salt1| + |randomBytes| && c.pwd.newAlgo.salt1[..|pwd.newAlgo.salt1|] == pwd.newAlgo.salt1
    ensures c.check == CheckEmpty <==> !pwd.hasPassword || !Given(currentPassword)
    ensures c.check.CheckSrp? ==> c.check.proof == computeCheck(c.pwd, currentPassword.value)
    ensures !Given(newPassword) ==> c.newHash == []
    ensures Given(newPassword) ==> c.newHash == computeDigest(c.pwd.newAlgo, newPassword.value)
  {
    var refreshed := pwd.(newAlgo := pwd.newAlgo.(salt1 := pwd.newAlgo.salt1 + randomBytes));
    var currentPassword' := if !pwd.hasPassword && Given(currentPassword) then None else currentPassword;
    var check := if Given(currentPassword') then CheckSrp(computeCheck(refreshed, currentPassword'.value)) else CheckEmpty;
    var newHash := if Given(newPassword) then computeDigest(refreshed.newAlgo, newPassword.value) else [];
    PasswordChange(refreshed, check, newHash)
  }

  /** Without a password on the account the current password is ignored: the plan is the one for no current password. */
  lemma CurrentIgnoredWithoutPassword(computeCheck: (PasswordInfo, string) -> seq<byte>, computeDigest: (KdfAlgo, string) -> seq<byte>,
                                      pwd: PasswordInfo, currentPassword: Option<string>, newPassword: Option<string>, randomBytes: seq<byte>)
    requires !pwd.hasPassword
    ensures PlanChange(computeCheck, computeDigest, pwd, currentPassword, newPassword, randomBytes)
         == PlanChange(computeCheck, computeDigest, pwd, None, newPassword, randomBytes)
  {
  }

  /**
   * The UpdatePasswordSettings request carrying the plan, and on
   * EmailUnconfirmed one ConfirmPasswordEmail with the callback's answer to
   * the code length (calling a missing callback fails).
   */
  function UpdateSettingsSpec(env: Env, st: ClientState, c: PasswordChange, hint: string,
                              email: Option<string>, callback: EmailCodeArg)
    : (r: Step<bool>)
    ensures r.st == st.(log := r.st.log)
    ensures |r.st.log| > |st.log| && r.st.log[..|st.log| + 1] == st.log + [UpdatePasswordSettings(c.check, c.pwd.newAlgo, c.newHash, hint, email)]
    ensures r.out.Ok? ==> r.out.value
  {
    var st1 := Issue(st, UpdatePasswordSettings(c.check, c.pwd.newAlgo, c.newHash, hint, email));
    match env.server.done(st1.log)
    case Answer(_) => Step(st1, Ok(true))
    case Raised(EmailUnconfirmed(n)) =>
      (match callback
       case NoEmailCallback => Step(st1, Err(NotCallable))
       case EmailCallback(answer) =>
         var st2 := Issue(st1, ConfirmPasswordEmail(answer(n)));
         assert st2.log[..|st.log| + 1] == st1.log;
         match env.server.done(st2.log)
         case Answer(_) => Step(st2, Ok(true))
         case Raised(e) => Step(st2, Err(Rpc(e))))
    case Raised(e) => Step(st1, Err(Rpc(e)))
  }

  /** `edit_2fa(current_password, new_password, hint=, email=, email_code_callback=)`, `randomBytes` standing for `os.urandom(32)`. */
  function Edit2faSpec(env: Env, st: ClientState, currentPassword: Option<string>, newPassword: Option<string>, hint: string,
                       email: Option<string>, callback: EmailCodeArg, randomBytes: seq<byte>)
    : (r: Step<bool>)
    ensures r.st == st.(log := r.st.log)
    ensures |r.st.log| >= |st.log| && r.st.log[..|st.log|] == st.log
    ensures r.out == Ok(false) <==> currentPassword.None? && newPassword.None?
    ensures r.out == Err(ValueError(EmailWithoutCallback)) <==>
      !(currentPassword.None? && newPassword.None?) && Given(email) && callback.NoEmailCallback?
    ensures r.out == Ok(false) || r.out == Err(ValueError(EmailWithoutCallback)) <==> r.st.log == st.log
  {
    if currentPassword.None? && newPassword.None? then Step(st, Ok(false))
    else if Given(email) && callback.NoEmailCallback? then Step(st, Err(ValueError(EmailWithoutCallback)))
    else
      var st1 := Issue(st, GetPassword);
      match env.server.password(st1.log)
      case Raised(e) => Step(st1, Err(Rpc(e)))
      case Answer(pwd) =>
        var c := PlanChange(env.computeCheck, env.computeDigest, pwd, currentPassword, newPassword, randomBytes);
        var r := UpdateSettingsSpec(env, st1, c, hint, email, callback);
        assert r.st.log[..|st.log|] == r.st.log[..|st1.log|][..|st.log|];
        r
  }

  /**
   * A change that reaches the server: GetPassword, then UpdatePasswordSettings
   * carrying the planned proof, the salt extended by the random bytes and the
   * planned digest; on EmailUnconfirmed the callback gets the code length and
   * exactly one ConfirmPasswordEmail follows with its answer.
   */
  lemma Edit2faRequests(env: Env, st: ClientState, currentPassword: Option<string>, newPassword: Option<string>, hint: string,
                        email: Option<string>, answer: int -> string, randomBytes: seq<byte>, pwd: PasswordInfo)
    requires !(currentPassword.None? && newPassword.None?)
    requires |randomBytes| == 32
    requires env.server.password(st.log + [GetPassword]) == Answer(pwd)
    ensures var c := PlanChange(env.computeCheck, env.computeDigest, pwd, currentPassword, newPassword, randomBytes);
      var update := UpdatePasswordSettings(c.check, c.pwd.newAlgo, c.newHash, hint, email);
      var r := Edit2faSpec(env, st, currentPassword, newPassword, hint, email, EmailCallback(answer), randomBytes);
      && r.st.log[..|st.log| + 2] == st.log + [GetPassword, update]
      && |update.newAlgo.salt1| == |pwd.newAlgo.salt1| + 32
      && update.newAlgo.salt1[..|pwd.newAlgo.salt1|] == pwd.newAlgo.salt1
      && (env.server.done(st.log + [GetPassword, update]).Answer? ==>
            r == Step(st.(log := st.log + [GetPassword, update]), Ok(true)))
      && (env.server.done(st.log + [GetPassword, update]).Raised? &&
          env.server.done(st.log + [GetPassword, update]).rpc.EmailUnconfirmed? ==>
            r.st.log == st.log + [GetPassword, update,
                                  ConfirmPasswordEmail(answer(env.server.done(st.log + [GetPassword, update]).rpc.codeLength))])
  {
    var c := PlanChange(env.computeCheck, env.computeDigest, pwd, currentPassword, newPassword, randomBytes);
    var update := UpdatePasswordSettings(c.check, c.pwd.newAlgo, c.newHash, hint, email);
    assert st.log + [GetPassword] + [update] == st.log + [GetPassword, update];
    assert (st.log + [GetPassword, update])[..|st.log| + 2] == st.log + [GetPassword, update];
  }
}
