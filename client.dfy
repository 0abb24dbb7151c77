/**
 * The authentication methods of the client object. Each method is proved to
 * leave the client in exactly the state, and to return exactly the result,
 * of a pure specification function: method `X` follows `XSpec` of
 * CodeRequest, Login, TwoFactor or Interactive (`SignIn` follows
 * `Login.SignInSpec`, `Start` follows `Interactive.StartSpec`), except
 * `SendCodeRequest` (`CodeRequest.SendCodeSpec`), `Plan`
 * (`TwoFactor.PlanChange`), `ResolvePhone`
 * (`StartRules.FirstUsable`), `CodeAttempt` and `PasswordAttemptAt`
 * (`Interactive.CodePass`, `Interactive.PasswordPass`), `CodePhase`
 * (`Interactive.CodeLoopSpec`) and `PasswordLoop`
 * (`Interactive.PasswordLoopRun`).
 */
module Client {
  import opened AuthTypes
  import opened CodeRequest
  import opened Login
  import opened TwoFactor
  import opened StartRules
  import opened Interactive

  class AuthClient {
    const env: Env

    var phone: string                     // _phone; "" while unset
    var codeHashes: map<string, string>   // _phone_code_hash
    var tos: Option<Tos>                  // _tos
    var bot: Option<bool>                 // _bot
    var selfPeer: Option<Peer>            // _self_input_peer
    var authorized: Option<bool>          // _authorized
    var log: seq<Request>                 // every RPC issued, in order
    var stateResets: nat                  // calls to _state_cache.reset()
    var disconnects: nat                  // calls to disconnect()
    var sessionDeletes: nat               // calls to session.delete()

    function State(): ClientState
      reads this
    {
      ClientState(phone, codeHashes, tos, bot, selfPeer, authorized, log, stateResets, disconnects, sessionDeletes)
    }

    constructor (env: Env)
      ensures this.env == env
      ensures State() == ClientState("", map[], None, None, None, None, [], 0, 0, 0)
    {
      this.env := env;
      phone, codeHashes, tos := "", map[], None;
      bot, selfPeer, authorized := None, None, None;
      log, stateResets, disconnects, sessionDeletes := [], 0, 0, 0;
    }

    /** `_on_login(user)` */
    method OnLogin(user: User) returns (u: User)
      modifies this
      ensures State() == OnLoginSpec(env, old(State()), user) && u == user
    {
      bot := Some(user.bot == Some(true));
      selfPeer := Some(env.inputPeer(user));
      authorized := Some(true);
      u := user;
    }

    /** `log_out()` */
    method LogOut() returns (ok: bool)
      modifies this
      ensures Step(State(), Ok(ok)) == LogOutSpec(env, old(State()))
    {
      log := log + [Request.LogOut];
      var reply := env.server.done(log);
      if reply.Raised? {
        return false;
      }
      bot, selfPeer, authorized := None, None, Some(false);
      stateResets := stateResets + 1;
      disconnects := disconnects + 1;
      sessionDeletes := sessionDeletes + 1;
      ok := true;
    }

    /** `send_code_request(phone, force_sms=)`, resubmitting on AuthRestart at most `fuel` times. */
    method SendCodeRequest(phone: string, forceSms: bool, fuel: nat) returns (r: Result<SentCode, Error>)
      modifies this
      decreases fuel
      ensures Step(State(), r) == SendCodeSpec(env, old(State()), phone, forceSms, fuel)
    {
      var p := NormalizePhone(env.parsePhone, Some(phone), this.phone);
      var hash := if p in codeHashes then codeHashes[p] else "";
      var resend := forceSms;
      if hash == "" {
        log := log + [SendCode(p, env.apiId, env.apiHash)];
        var reply := env.server.sentCode(log);
        if reply == Raised(AuthRestart) {
          if fuel == 0 {
            return Err(Rpc(AuthRestart));
          }
          r := SendCodeRequest(p, forceSms, fuel - 1);
          return;
        }
        if reply.Raised? {
          return Err(Rpc(reply.rpc));
        }
        tos := reply.value.tos;
        codeHashes := codeHashes[p := reply.value.codeHash];
        hash := reply.value.codeHash;
        r := Ok(reply.value);
      } else {
        resend := true;
      }
      this.phone := p;
      if resend {
        r := Resend(p, hash);
      }
    }

    /** The ResendCode request of `send_code_request`; its hash replaces the cached one. */
    method Resend(p: string, hash: string) returns (r: Result<SentCode, Error>)
      modifies this
      ensures Step(State(), r) == ResendSpec(env, old(State()), p, hash)
    {
      log := log + [ResendCode(p, hash)];
      var reply := env.server.sentCode(log);
      if reply.Raised? {
        return Err(Rpc(reply.rpc));
      }
      codeHashes := codeHashes[p := reply.value.codeHash];
      r := Ok(reply.value);
    }

    /** `get_me()` */
    method GetMe() returns (r: Result<Option<User>, Error>)
      modifies this
      ensures Step(State(), r) == GetMeSpec(env, old(State()))
    {
      log := log + [GetSelf];
      var reply := env.server.self(log);
      r := if reply.Raised? then Err(Rpc(reply.rpc)) else Ok(reply.value);
    }

    /** One authorizing request followed by `_on_login(result.user)`. */
    method Authorize(req: Request) returns (r: Result<User, Error>)
      modifies this
      ensures Step(State(), r) == AuthorizeSpec(env, old(State()), req)
    {
      log := log + [req];
      var reply := env.server.authorization(log);
      if reply.Raised? {
        return Err(Rpc(reply.rpc));
      }
      var user := OnLogin(reply.value);
      r := Ok(user);
    }

    /** The password branch of `sign_in`. */
    method PasswordSignIn(password: string) returns (r: Result<User, Error>)
      modifies this
      ensures Step(State(), r) == PasswordSignInSpec(env, old(State()), password)
    {
      log := log + [GetPassword];
      var pwd := env.server.password(log);
      if pwd.Raised? {
        return Err(Rpc(pwd.rpc));
      }
      r := Authorize(CheckPassword(CheckSrp(env.computeCheck(pwd.value, password))));
    }

    /** `sign_in(phone, code, password=, bot_token=, phone_code_hash=)` */
    method SignIn(phone: Option<string>, code: Option<string>, password: Option<string>,
                  botToken: Option<string>, codeHash: Option<string>)
      returns (r: Result<SignInValue, Error>)
      modifies this
      ensures Step(State(), r) == SignInSpec(env, old(State()), phone, code, password, botToken, codeHash)
    {
      var me := GetMe();
      if me.Err? {
        return Err(me.error);
      }
      if me.value.Some? {
        return Ok(SignedInAs(me.value.value));
      }
      r := Dispatch(phone, code, password, botToken, codeHash);
    }

    /** The branch of `sign_in` taken when nobody is logged in. */
    method Dispatch(phone: Option<string>, code: Option<string>, password: Option<string>,
                    botToken: Option<string>, codeHash: Option<string>)
      returns (r: Result<SignInValue, Error>)
      modifies this
      ensures Step(State(), r) == DispatchSpec(env, old(State()), phone, code, password, botToken, codeHash)
    {
      match Route(phone, code, password, botToken)
      case RequestCode =>
        var sent := SendCodeRequest(phone.value, false, env.restartFuel);
        r := AsCodeSent(sent);
      case CheckCode =>
        var ph := ParsePhoneAndHash(env.parsePhone, State(), phone, codeHash);
        if ph.Err? {
          return Err(ph.error);
        }
        var user := Authorize(Request.SignIn(ph.value.0, ph.value.1, code.value));
        r := AsSignedIn(user);
      case CheckPasswordRoute =>
        var user := PasswordSignIn(password.value);
        r := AsSignedIn(user);
      case ImportBot =>
        var user := Authorize(ImportBotAuthorization(botToken.value, env.apiId, env.apiHash));
        r := AsSignedIn(user);
      case NoCredentialsRoute =>
        r := Err(ValueError(NoCredentials));
    }

    /** `sign_up(code, first_name, last_name, phone=, phone_code_hash=)` */
    method SignUp(code: string, firstName: string, lastName: string, phone: Option<string>, codeHash: Option<string>)
      returns (r: Result<User, Error>)
      modifies this
      ensures Step(State(), r) == SignUpSpec(env, old(State()), code, firstName, lastName, phone, codeHash)
    {
      var me := GetMe();
      if me.Err? {
        return Err(me.error);
      }
      if me.value.Some? {
        return Ok(me.value.value);
      }
      var ph := ParsePhoneAndHash(env.parsePhone, State(), phone, codeHash);
      if ph.Err? {
        return Err(ph.error);
      }
      log := log + [Request.SignUp(ph.value.0, ph.value.1, code, firstName, lastName)];
      var reply := env.server.authorization(log);
      if reply.Raised? {
        return Err(Rpc(reply.rpc));
      }
      if tos.Some? {
        log := log + [AcceptTermsOfService(tos.value.id)];
        var accepted := env.server.done(log);
        if accepted.Raised? {
          return Err(Rpc(accepted.rpc));
        }
      }
      var user := OnLogin(reply.value);
      r := Ok(user);
    }

    /** `edit_2fa(current_password, new_password, hint=, email=, email_code_callback=)`; `randomBytes` is `os.urandom(32)`. */
    method Edit2fa(currentPassword: Option<string>, newPassword: Option<string>, hint: string,
                   email: Option<string>, callback: EmailCodeArg, randomBytes: seq<byte>)
      returns (r: Result<bool, Error>)
      requires |randomBytes| == 32
      modifies this
      ensures Step(State(), r) == Edit2faSpec(env, old(State()), currentPassword, newPassword, hint, email, callback, randomBytes)
    {
      if newPassword.None? && currentPassword.None? {
        return Ok(false);
      }
      if Given(email) && callback.NoEmailCallback? {
        return Err(ValueError(EmailWithoutCallback));
      }
      log := log + [GetPassword];
      var reply := env.server.password(log);
      if reply.Raised? {
        return Err(Rpc(reply.rpc));
      }
      var change := Plan(reply.value, currentPassword, newPassword, randomBytes);
      r := UpdateSettings(change, hint, email, callback);
    }

    /** The local steps of `edit_2fa` between GetPassword and UpdatePasswordSettings. */
    method Plan(pwd: PasswordInfo, currentPassword: Option<string>, newPassword: Option<string>, randomBytes: seq<byte>)
      returns (c: PasswordChange)
      ensures c == PlanChange(env.computeCheck, env.computeDigest, pwd, currentPassword, newPassword, randomBytes)
    {
      var info := pwd.(newAlgo := pwd.newAlgo.(salt1 := pwd.newAlgo.salt1 + randomBytes));
      var current := currentPassword;
      if !info.hasPassword && Given(current) {
        current := None;
      }
      var check := if Given(current) then CheckSrp(env.computeCheck(info, current.value)) else CheckEmpty;
      var newHash := if Given(newPassword) then env.computeDigest(info.newAlgo, newPassword.value) else [];
      c := PasswordChange(info, check, newHash);
    }

    /** The `UpdatePasswordSettingsRequest` of `edit_2fa` and its `except errors.EmailUnconfirmedError` clause. */
    method UpdateSettings(c: PasswordChange, hint: string, email: Option<string>, callback: EmailCodeArg)
      returns (r: Result<bool, Error>)
      modifies this
      ensures Step(State(), r) == UpdateSettingsSpec(env, old(State()), c, hint, email, callback)
    {
      log := log + [UpdatePasswordSettings(c.check, c.pwd.newAlgo, c.newHash, hint, email)];
      var updated := env.server.done(log);
      if updated.Raised? {
        if !updated.rpc.EmailUnconfirmed? {
          return Err(Rpc(updated.rpc));
        }
        if callback.NoEmailCallback? {
          return Err(NotCallable);
        }
        var code := callback.answer(updated.rpc.codeLength);
        log := log + [ConfirmPasswordEmail(code)];
        var confirmed := env.server.done(log);
        if confirmed.Raised? {
          return Err(Rpc(confirmed.rpc));
        }
      }
      r := Ok(true);
    }

    /**
     * The `while callable(phone)` loop of `_start`: ask the phone callback
     * until it gives a bot token (a value with ':') or a value that parses
     * as a phone; the callback running dry is an error. `taken` is how many
     * answers were used.
     */
    method ResolvePhone(answers: seq<string>) returns (res: Resolution, taken: nat)
      ensures (res, taken) == FirstUsable(env.parsePhone, answers, 0)
    {
      taken := 0;
      while taken < |answers|
        invariant taken <= |answers|
        invariant FirstUsable(env.parsePhone, answers, 0) == FirstUsable(env.parsePhone, answers, taken)
      {
        var value := answers[taken];
        taken := taken + 1;
        if ':' in value {
          return ResolvedBot(value), taken;
        }
        var parsed := env.parsePhone(value);
        if Given(parsed) {
          return ResolvedPhone(parsed.value), taken;
        }
      }
      res := PhoneCallbackFailed;
    }

    /**
     * The code loop of `_start`: `trace` is the outcome of each pass, `s` the
     * loop variables at the end. The code callback is given as the codes it
     * returns; asking it once more than that fails.
     */
    method CodePhase(phone: string, codes: seq<string>, signUp: bool, firstName: string, lastName: string,
                     maxAttempts: int)
      returns (s: CodeLoop, trace: seq<Attempt>)
      modifies this
      ensures var spec := CodeLoopSpec(env, old(State()), phone, codes, firstName, lastName, maxAttempts, signUp);
        State() == spec.st && s == spec.loop && trace == spec.trace
    {
      ghost var pass := CodePassFn(env, phone, codes, firstName, lastName);
      s := CodeStart(signUp);
      trace := [];
      ghost var total := CodeLoopRun(pass, State(), maxAttempts, s, 0);
      CodeLoopBegin(pass, State(), maxAttempts, s);
      while Continues(maxAttempts, s)
        invariant CodeLoopAt(pass, total, State(), maxAttempts, s, trace)
        decreases (if s.phase.Trying? then 1 else 0) + maxAttempts - s.attempts
      {
        ghost var before := State();
        var a := CodeAttempt(phone, codes, |trace|, s.signUp, firstName, lastName);
        CodeLoopAdvance(pass, total, before, State(), maxAttempts, s, trace, a);
        trace := trace + [a];
        s := CodeStep(s, a);
      }
      CodeLoopDone(pass, total, State(), maxAttempts, s, trace);
    }

    /**
     * Pass `j` of the code loop: the code callback's j-th answer (it fails
     * when it has none left); an empty code counts as PhoneCodeEmpty without
     * a request; otherwise the outcome of `sign_up` or `sign_in`, classified.
     */
    method CodeAttempt(phone: string, codes: seq<string>, j: nat, signUp: bool, firstName: string, lastName: string)
      returns (a: Attempt)
      modifies this
      ensures Pass(State(), a) == CodePass(env, old(State()), phone, codes, j, signUp, firstName, lastName)
    {
      if j >= |codes| {
        return Escaped(CallbackFailed);
      }
      var code := codes[j];
      if code == "" {
        return ClassifyCode<()>(Err(Rpc(PhoneCodeEmpty)));
      }
      if signUp {
        var r := SignUp(code, firstName, lastName, None, None);
        a := ClassifyCode(r);
      } else {
        var r := SignIn(Some(phone), Some(code), None, None, None);
        a := ClassifyCode(r);
      }
    }

    /** Pass `j` of the password loop: `sign_in(phone=phone, password=…)` with the callback's j-th answer. */
    method PasswordAttemptAt(phone: string, answers: seq<string>, j: nat) returns (a: PasswordAttempt)
      modifies this
      ensures Pass(State(), a) == PasswordPass(env, old(State()), phone, answers, j)
    {
      if j >= |answers| {
        return PasswordEscaped(CallbackFailed);
      }
      var result := SignIn(Some(phone), None, Some(answers[j]), None, None);
      a := ClassifyPassword(result);
    }

    /**
     * The password phase of `_start`, entered on SessionPasswordNeeded:
     * a missing password is a ValueError before any request; a callable one
     * gets its own loop of at most `max_attempts` passes; a fixed one is
     * tried once.
     */
    method PasswordPhase(phone: string, password: PasswordArg, maxAttempts: int)
      returns (r: Result<(), Error>, trace: seq<PasswordAttempt>)
      modifies this
      ensures var spec := PasswordPhaseSpec(env, old(State()), phone, password, maxAttempts);
        State() == spec.st && r == spec.out && trace == spec.trace
    {
      trace := [];
      if !PasswordGiven(password) {
        return Err(ValueError(PasswordMissing)), trace;
      }
      if password.PasswordText? {
        var result := SignIn(Some(phone), None, Some(password.text), None, None);
        trace := [ClassifyPassword(result)];
        return PasswordOutcome(trace), trace;
      }
      trace := PasswordLoop(phone, password.answers, maxAttempts);
      r := PasswordOutcome(trace);
    }

    /**
     * The `for _ in range(max_attempts)` loop of the password phase over the
     * password callback's answers: it stops after the first pass that is not
     * an invalid password.
     */
    method PasswordLoop(phone: string, answers: seq<string>, maxAttempts: int) returns (trace: seq<PasswordAttempt>)
      modifies this
      ensures var spec := PasswordLoopRun(PasswordPassFn(env, phone, answers), old(State()), maxAttempts, 0);
        State() == spec.st && trace == spec.trace
    {
      ghost var pass := PasswordPassFn(env, phone, answers);
      ghost var total := PasswordLoopRun(pass, State(), maxAttempts, 0);
      PasswordLoopBegin(pass, State(), maxAttempts);
      trace := [];
      var i: nat := 0;
      while i < maxAttempts
        invariant i == |trace|
        invariant PasswordLoopAt(pass, total, State(), maxAttempts, trace)
        decreases maxAttempts - i
      {
        ghost var before := State();
        var a := PasswordAttemptAt(phone, answers, i);
        PasswordLoopAdvance(pass, total, before, State(), maxAttempts, trace, a);
        trace := trace + [a];
        if a != PasswordInvalid {
          return;
        }
        i := i + 1;
      }
      PasswordLoopDone(pass, total, State(), maxAttempts, trace);
    }

    /**
     * `_start(...)` once the arguments are validated. When the code loop is
     * reached (`codeRan`), `signUp` is its initial `sign_up` flag, `codeTrace`
     * its passes and `passwordTrace` those of the password phase.
     */
    method StartFlow(phoneArg: PhoneArg, password: PasswordArg, botToken: string, forceSms: bool,
                     codes: seq<string>, firstName: string, lastName: string, maxAttempts: int)
      returns (r: Result<(), Error>, codeRan: bool, signUp: bool,
               codeTrace: seq<Attempt>, passwordTrace: seq<PasswordAttempt>)
      modifies this
      ensures StartRun(State(), r, codeRan, signUp, codeTrace, passwordTrace)
        == StartFlowSpec(env, old(State()), phoneArg, password, botToken, forceSms, codes, firstName, lastName, maxAttempts)
    {
      codeRan, signUp, codeTrace, passwordTrace := false, false, [], [];
      if env.server.authorized(log) {
        return Ok(()), codeRan, signUp, codeTrace, passwordTrace;
      }
      var token := botToken;
      var number := "";
      if token == "" {
        match phoneArg
        case PhoneText(text) =>
          number := text;
        case PhoneCallback(answers) =>
          var resolved, _ := ResolvePhone(answers);
          match resolved
          case ResolvedBot(t) => token := t;
          case ResolvedPhone(p) => number := p;
          case PhoneCallbackFailed => return Err(CallbackFailed), codeRan, signUp, codeTrace, passwordTrace;
      }
      if token != "" {
        var signedIn := SignIn(None, None, None, Some(token), None);
        r := if signedIn.Ok? then Ok(()) else Err(signedIn.error);
        return;
      }
      var sent := SendCodeRequest(number, forceSms, env.restartFuel);
      if sent.Err? {
        return Err(sent.error), codeRan, signUp, codeTrace, passwordTrace;
      }
      codeRan, signUp := true, !sent.value.phoneRegistered;
      r, codeTrace, passwordTrace := CodeThenPassword(number, password, codes, signUp, firstName, lastName, maxAttempts);
    }

    /**
     * The part of `_start` after the code was sent: the code loop and, when
     * it ends on SessionPasswordNeeded, the password phase.
     */
    method CodeThenPassword(number: string, password: PasswordArg, codes: seq<string>, signUp: bool,
                            firstName: string, lastName: string, maxAttempts: int)
      returns (r: Result<(), Error>, codeTrace: seq<Attempt>, passwordTrace: seq<PasswordAttempt>)
      modifies this
      ensures StartRun(State(), r, true, signUp, codeTrace, passwordTrace)
        == CodeThenPasswordSpec(env, old(State()), number, password, codes, signUp, firstName, lastName, maxAttempts)
    {
      passwordTrace := [];
      var loop;
      loop, codeTrace := CodePhase(number, codes, signUp, firstName, lastName, maxAttempts);
      match CodeOutcome(maxAttempts, loop)
      case Ok(twoStep) =>
        if twoStep {
          r, passwordTrace := PasswordPhase(number, password, maxAttempts);
        } else {
          r := Ok(());
        }
      case Err(e) =>
        r := Err(e);
    }

    /**
     * `start(phone, password, bot_token=, force_sms=, code_callback=, first_name=, last_name=, max_attempts=)`:
     * rejects bad argument combinations before any request, then runs `_start`.
     */
    method Start(phoneArg: PhoneArg, password: PasswordArg, botToken: string, forceSms: bool, code: CodeArg,
                 firstName: string, lastName: string, maxAttempts: int)
      returns (r: Result<(), Error>, codeRan: bool, signUp: bool,
               codeTrace: seq<Attempt>, passwordTrace: seq<PasswordAttempt>)
      modifies this
      ensures StartRun(State(), r, codeRan, signUp, codeTrace, passwordTrace)
        == StartSpec(env, old(State()), phoneArg, password, botToken, forceSms, code, firstName, lastName, maxAttempts)
    {
      codeRan, signUp, codeTrace, passwordTrace := false, false, [], [];
      var invalid := ValidateStart(phoneArg, botToken, code);
      if invalid.Some? {
        return Err(ValueError(invalid.value)), codeRan, signUp, codeTrace, passwordTrace;
      }
      r, codeRan, signUp, codeTrace, passwordTrace :=
        StartFlow(phoneArg, password, botToken, forceSms, code.answers, firstName, lastName, maxAttempts);
    }
  }
}
