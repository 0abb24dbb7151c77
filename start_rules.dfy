/**
 * The decisions of `start`/`_start`: which argument combinations are
 * rejected up front, how one sign-in or sign-up attempt is classified, and
 * the retry machine that the code loop and the password loop run.
 */
module StartRules {
  import opened AuthTypes

  /** `phone`: a fixed value ("" for a falsy one) or a callable, given as the values it returns. */
  datatype PhoneArg = PhoneText(text: string) | PhoneCallback(answers: seq<string>)

  /** `password`: a fixed value ("" for a falsy one) or a callable, given as the values it returns. */
  datatype PasswordArg = PasswordText(text: string) | PasswordCallback(answers: seq<string>)

  /** `if not password`: a callable is always truthy, a fixed value when it is not empty. */
  predicate PasswordGiven(password: PasswordArg) {
    password.PasswordCallback? || password.text != ""
  }

  /**
   * `code_callback`: a callable (the default one reads the console), given as
   * the values it returns, or something that is not callable.
   */
  datatype CodeArg = CodeCallback(answers: seq<string>) | CodeNotCallable

  /**
   * The checks `start` makes before anything else: the code source must be
   * callable, and exactly one of a phone and a bot token is accepted, except
   * that a callable phone may come with a bot token.
   */
  function ValidateStart(phone: PhoneArg, botToken: string, code: CodeArg): (r: Option<ValueErrorKind>)
    ensures r.None? <==> code.CodeCallback? && (phone.PhoneCallback? || ((phone.text != "") != (botToken != "")))
    ensures r == Some(CodeCallbackNotCallable) <==> code.CodeNotCallable?
    ensures r == Some(NoPhoneOrToken) <==> code.CodeCallback? && phone == PhoneText("") && botToken == ""
    ensures r == Some(PhoneAndToken) <==> code.CodeCallback? && phone.PhoneText? && phone.text != "" && botToken != ""
  {
    if code.CodeNotCallable? then Some(CodeCallbackNotCallable)
    else if phone == PhoneText("") && botToken == "" then Some(NoPhoneOrToken)
    else if phone.PhoneText? && phone.text != "" && botToken != "" then Some(PhoneAndToken)
    else None
  }

  /** What the phone callback loop of `_start` settles on. */
  datatype Resolution = ResolvedPhone(phone: string) | ResolvedBot(token: string) | PhoneCallbackFailed

  /** A value from the phone callback that is neither a bot token nor a parsable phone, so the callback is asked again. */
  predicate Unusable(parse: string -> Option<string>, value: string) {
    ':' !in value && !Given(parse(value))
  }

  /**
   * The phone callback loop over the callback's answers from index `from`:
   * the first answer holding ':' is a bot token, the first that parses to a
   * non-empty phone is the phone, and a callback that runs out of answers
   * fails. The second component is the number of answers taken.
   */
  function FirstUsable(parse: string -> Option<string>, answers: seq<string>, from: nat): (r: (Resolution, nat))
    requires from <= |answers|
    decreases |answers| - from
    ensures from <= r.1 <= |answers|
    ensures forall i :: from <= i < r.1 - 1 ==> Unusable(parse, answers[i])
    ensures r.0.ResolvedBot? ==> from < r.1 && r.0.token == answers[r.1 - 1] && ':' in r.0.token
    ensures r.0.ResolvedPhone? ==>
      from < r.1 && ':' !in answers[r.1 - 1] && Given(parse(answers[r.1 - 1])) && r.0.phone == parse(answers[r.1 - 1]).value
    ensures r.0.PhoneCallbackFailed? ==> r.1 == |answers| && forall i :: from <= i < |answers| ==> Unusable(parse, answers[i])
  {
    if from == |answers| then (PhoneCallbackFailed, from)
    else if ':' in answers[from] then (ResolvedBot(answers[from]), from + 1)
    else if Given(parse(answers[from])) then (ResolvedPhone(parse(answers[from]).value), from + 1)
    else FirstUsable(parse, answers, from + 1)
  }

  /** The phone callback fails exactly when none of its remaining answers is usable. */
  lemma {:induction false} CallbackFailsWhenAllUnusable(parse: string -> Option<string>, answers: seq<string>, from: nat)
    requires from <= |answers|
    decreases |answers| - from
    ensures FirstUsable(parse, answers, from).0.PhoneCallbackFailed?
      <==> forall i :: from <= i < |answers| ==> Unusable(parse, answers[i])
  {
    if from < |answers| && Unusable(parse, answers[from]) {
      CallbackFailsWhenAllUnusable(parse, answers, from + 1);
    }
  }

  /** The outcome of one pass through the body of the code loop. */
  datatype Attempt = Accepted | PasswordNeeded | Occupied | Unoccupied | BadCode | Escaped(e: Error)

  /**
   * The except clauses of the code loop: SessionPasswordNeeded, the two
   * occupancy errors and the four bad-code errors are caught; anything else
   * escapes.
   */
  function ClassifyCode<T>(r: Result<T, Error>): (a: Attempt)
    ensures r.Ok? <==> a == Accepted
    ensures a == PasswordNeeded <==> r == Err(Rpc(SessionPasswordNeeded))
    ensures a == Occupied <==> r == Err(Rpc(PhoneNumberOccupied))
    ensures a == Unoccupied <==> r == Err(Rpc(PhoneNumberUnoccupied))
    ensures a == BadCode <==> r.Err? && r.error.Rpc? && r.error.rpc in {PhoneCodeEmpty, PhoneCodeExpired, PhoneCodeHashEmpty, PhoneCodeInvalid}
    ensures a.Escaped? ==> r == Err(a.e)
  {
    match r
    case Ok(_) => Accepted
    case Err(Rpc(SessionPasswordNeeded)) => PasswordNeeded
    case Err(Rpc(PhoneNumberOccupied)) => Occupied
    case Err(Rpc(PhoneNumberUnoccupied)) => Unoccupied
    case Err(Rpc(PhoneCodeEmpty)) => BadCode
    case Err(Rpc(PhoneCodeExpired)) => BadCode
    case Err(Rpc(PhoneCodeHashEmpty)) => BadCode
    case Err(Rpc(PhoneCodeInvalid)) => BadCode
    case Err(e) => Escaped(e)
  }

  /** The outcomes after which the loop goes round again, having counted an attempt. */
  predicate Consumes(a: Attempt) {
    a.Occupied? || a.Unoccupied? || a.BadCode?
  }

  predicate AllConsume(t: seq<Attempt>) {
    forall i :: 0 <= i < |t| ==> Consumes(t[i])
  }

  datatype Phase = Trying | SignedIn | TwoStep | Aborted(e: Error)

  /** The variables of the code loop: `attempts`, `sign_up`, and whether and how it was left. */
  datatype CodeLoop = CodeLoop(attempts: nat, signUp: bool, phase: Phase)

  function CodeStart(signUp: bool): (s: CodeLoop) {
    CodeLoop(0, signUp, Trying)
  }

  /**
   * One pass of the code loop: a failed attempt is counted once, only an
   * occupancy error changes `sign_up`, and once the loop is left nothing
   * changes.
   */
  function CodeStep(s: CodeLoop, a: Attempt): (r: CodeLoop)
    ensures !s.phase.Trying? ==> r == s
    ensures s.phase.Trying? ==> r.attempts == (if Consumes(a) then s.attempts + 1 else s.attempts)
    ensures s.phase.Trying? ==> (r.phase.Trying? <==> Consumes(a))
    ensures s.phase.Trying? ==> (a == Accepted <==> r.phase == SignedIn) && (a == PasswordNeeded <==> r.phase == TwoStep)
    ensures s.phase.Trying? && a.Escaped? ==> r.phase == Aborted(a.e)
    ensures r.signUp != s.signUp ==> s.phase.Trying? && (a == Occupied || a == Unoccupied)
    ensures s.phase.Trying? && (a == Occupied || a == Unoccupied) ==> r.signUp == (a == Unoccupied)
  {
    if !s.phase.Trying? then s
    else match a
      case Accepted => s.(phase := SignedIn)
      case PasswordNeeded => s.(phase := TwoStep)
      case Occupied => CodeLoop(s.attempts + 1, false, Trying)
      case Unoccupied => CodeLoop(s.attempts + 1, true, Trying)
      case BadCode => s.(attempts := s.attempts + 1)
      case Escaped(e) => s.(phase := Aborted(e))
  }

  /** The loop variables after the passes `t`, in order: each pass counts at most one attempt, and a loop once left stays as it was. */
  function CodeRun(s: CodeLoop, t: seq<Attempt>): (r: CodeLoop)
    decreases |t|
    ensures !s.phase.Trying? ==> r == s
    ensures s.attempts <= r.attempts <= s.attempts + |t|
  {
    if t == [] then s else CodeStep(CodeRun(s, t[..|t| - 1]), t[|t| - 1])
  }

  /** Running the passes `[a] + t` is one pass with `a` followed by the passes `t`. */
  lemma {:induction false} CodeRunCons(s: CodeLoop, a: Attempt, t: seq<Attempt>)
    ensures CodeRun(s, [a] + t) == CodeRun(CodeStep(s, a), t)
    decreases |t|
  {
    if t == [] {
      assert ([a] + t)[..0] == [];
    } else {
      var t' := t[..|t| - 1];
      assert ([a] + t)[..|t|] == [a] + t';
      CodeRunCons(s, a, t');
    }
  }

  /** The first `k + 1` passes of `[a] + t` are one pass with `a` followed by the first `k` passes of `t`. */
  lemma CodeRunPrefixCons(s: CodeLoop, a: Attempt, t: seq<Attempt>, k: nat)
    requires k <= |t|
    ensures CodeRun(s, ([a] + t)[..k + 1]) == CodeRun(CodeStep(s, a), t[..k])
  {
    assert ([a] + t)[..k + 1] == [a] + t[..k];
    CodeRunCons(s, a, t[..k]);
  }

  /** The `while attempts < max_attempts` test. */
  predicate Continues(maxAttempts: int, s: CodeLoop) {
    s.phase.Trying? && s.attempts < maxAttempts
  }

  /** The loop test held before each of the passes `t` made from `s`. */
  predicate TestedBefore(maxAttempts: int, s: CodeLoop, t: seq<Attempt>) {
    forall k :: 0 <= k < |t| ==> Continues(maxAttempts, CodeRun(s, t[..k]))
  }

  /**
   * How the code loop ends: the while-else RuntimeError when the budget ran
   * out, success, the switch to the password phase, or the escaped error.
   * `Ok(true)` means a password is needed.
   */
  function CodeOutcome(maxAttempts: int, s: CodeLoop): (r: Result<bool, Error>)
    ensures r == Ok(false) <==> s.phase == SignedIn
    ensures r == Ok(true) <==> s.phase == TwoStep
    ensures r == Err(TooManyAttempts(maxAttempts)) <==> s.phase == Trying || s.phase == Aborted(TooManyAttempts(maxAttempts))
    ensures s.phase.Aborted? ==> r == Err(s.phase.e)
  {
    match s.phase
    case Trying => Err(TooManyAttempts(maxAttempts))
    case SignedIn => Ok(false)
    case TwoStep => Ok(true)
    case Aborted(e) => Err(e)
  }

  /** Every failed attempt adds exactly one to `attempts`, and the loop is still running after them. */
  lemma {:induction false} EachFailureCountsOnce(signUp: bool, t: seq<Attempt>)
    requires AllConsume(t)
    ensures CodeRun(CodeStart(signUp), t).phase == Trying
    ensures CodeRun(CodeStart(signUp), t).attempts == |t|
  {
    if t != [] {
      EachFailureCountsOnce(signUp, t[..|t| - 1]);
    }
  }

  /**
   * `sign_up` during the loop: the last occupancy error decides it
   * (Occupied means sign in, Unoccupied sign up), and without one it keeps
   * its initial value `not phone_registered`.
   */
  lemma {:induction false} SignUpFollowsLastOccupancy(signUp: bool, t: seq<Attempt>)
    requires AllConsume(t)
    ensures (forall i :: 0 <= i < |t| ==> t[i].BadCode?) ==> CodeRun(CodeStart(signUp), t).signUp == signUp
    ensures forall i :: 0 <= i < |t| && !t[i].BadCode? && (forall j :: i < j < |t| ==> t[j].BadCode?) ==>
      CodeRun(CodeStart(signUp), t).signUp == t[i].Unoccupied?
  {
    if t != [] {
      var t' := t[..|t| - 1];
      SignUpFollowsLastOccupancy(signUp, t');
      EachFailureCountsOnce(signUp, t');
      assert forall i :: 0 <= i < |t'| ==> t'[i] == t[i];
    }
  }

  /**
   * `max_attempts` failed attempts: each of them was allowed by the loop
   * test, after the last one the test fails and the loop ends with the
   * RuntimeError.
   */
  lemma ExhaustedAfterMaxFailures(maxAttempts: nat, signUp: bool, t: seq<Attempt>)
    requires |t| == maxAttempts && AllConsume(t)
    ensures forall k :: 0 <= k < |t| ==> Continues(maxAttempts, CodeRun(CodeStart(signUp), t[..k]))
    ensures !Continues(maxAttempts, CodeRun(CodeStart(signUp), t))
    ensures CodeOutcome(maxAttempts, CodeRun(CodeStart(signUp), t)) == Err(TooManyAttempts(maxAttempts))
  {
    forall k | 0 <= k < |t| ensures Continues(maxAttempts, CodeRun(CodeStart(signUp), t[..k])) {
      assert AllConsume(t[..k]);
      EachFailureCountsOnce(signUp, t[..k]);
    }
    EachFailureCountsOnce(signUp, t);
  }

  /** `max_attempts - 1` failures and then a success: the last attempt is still allowed and the loop ends signed in. */
  lemma SucceedsAfterFewerFailures(maxAttempts: nat, signUp: bool, t: seq<Attempt>)
    requires |t| + 1 == maxAttempts && AllConsume(t)
    ensures Continues(maxAttempts, CodeRun(CodeStart(signUp), t))
    ensures CodeOutcome(maxAttempts, CodeRun(CodeStart(signUp), t + [Accepted])) == Ok(false)
  {
    EachFailureCountsOnce(signUp, t);
    assert (t + [Accepted])[..|t|] == t;
  }

  /** The password-needed signal leaves the loop without counting an attempt. */
  lemma PasswordNeededIsFree(signUp: bool, t: seq<Attempt>)
    requires AllConsume(t)
    ensures CodeRun(CodeStart(signUp), t + [PasswordNeeded]).attempts == |t|
    ensures CodeRun(CodeStart(signUp), t + [PasswordNeeded]).phase == TwoStep
  {
    EachFailureCountsOnce(signUp, t);
    assert (t + [PasswordNeeded])[..|t|] == t;
  }

  /** A loop still running has counted every pass, and every pass failed. */
  lemma {:induction false} StillTryingMeansAllFailed(signUp: bool, t: seq<Attempt>)
    requires CodeRun(CodeStart(signUp), t).phase == Trying
    ensures AllConsume(t)
    ensures CodeRun(CodeStart(signUp), t).attempts == |t|
  {
    if t != [] {
      var t' := t[..|t| - 1];
      assert CodeRun(CodeStart(signUp), t').phase == Trying;
      StillTryingMeansAllFailed(signUp, t');
      assert forall i :: 0 <= i < |t'| ==> t'[i] == t[i];
    }
  }

  /**
   * How a run of the code loop that stopped where the source stops it was
   * left: the budget ran out exactly after `max_attempts` failed attempts
   * (none if it is not positive), and otherwise its last pass decides, after
   * fewer than `max_attempts` failures.
   */
  lemma CodeRunEnds(maxAttempts: int, signUp: bool, t: seq<Attempt>)
    requires TestedBefore(maxAttempts, CodeStart(signUp), t)
    requires !Continues(maxAttempts, CodeRun(CodeStart(signUp), t))
    ensures var e := CodeRun(CodeStart(signUp), t);
      && (e.phase == Trying <==> AllConsume(t) && |t| == (if maxAttempts < 0 then 0 else maxAttempts))
      && (e.phase == SignedIn <==> t != [] && t[|t| - 1] == Accepted)
      && (e.phase == TwoStep <==> t != [] && t[|t| - 1] == PasswordNeeded)
      && (e.phase.Aborted? <==> t != [] && t[|t| - 1].Escaped?)
      && (e.phase.Aborted? ==> t[|t| - 1] == Escaped(e.phase.e))
      && (t != [] ==> AllConsume(t[..|t| - 1]) && |t| <= maxAttempts)
  {
    var e := CodeRun(CodeStart(signUp), t);
    if t != [] {
      var n := |t| - 1;
      assert Continues(maxAttempts, CodeRun(CodeStart(signUp), t[..n]));
      StillTryingMeansAllFailed(signUp, t[..n]);
      assert e == CodeStep(CodeRun(CodeStart(signUp), t[..n]), t[n]);
    }
    if e.phase == Trying {
      StillTryingMeansAllFailed(signUp, t);
    }
    if AllConsume(t) && |t| == (if maxAttempts < 0 then 0 else maxAttempts) {
      EachFailureCountsOnce(signUp, t);
    }
  }

  /** The outcome of one pass through the password loop. */
  datatype PasswordAttempt = PasswordAccepted | PasswordInvalid | PasswordEscaped(e: Error)

  /** The except clause of the password loop: only PasswordHashInvalid is caught. */
  function ClassifyPassword<T>(r: Result<T, Error>): (a: PasswordAttempt)
    ensures r.Ok? <==> a == PasswordAccepted
    ensures a == PasswordInvalid <==> r == Err(Rpc(PasswordHashInvalid))
    ensures a.PasswordEscaped? ==> r == Err(a.e)
  {
    match r
    case Ok(_) => PasswordAccepted
    case Err(Rpc(PasswordHashInvalid)) => PasswordInvalid
    case Err(e) => PasswordEscaped(e)
  }

  /**
   * How the password loop ends after the passes `t`: the last pass decides,
   * and a loop that only met invalid passwords raises PasswordHashInvalid.
   */
  function PasswordOutcome(t: seq<PasswordAttempt>): (r: Result<(), Error>)
    ensures r == Ok(()) <==> t != [] && t[|t| - 1] == PasswordAccepted
    ensures t == [] || t[|t| - 1] == PasswordInvalid ==> r == Err(Rpc(PasswordHashInvalid))
    ensures t != [] && t[|t| - 1].PasswordEscaped? ==> r == Err(t[|t| - 1].e)
  {
    if t == [] then Err(Rpc(PasswordHashInvalid))
    else match t[|t| - 1]
      case PasswordAccepted => Ok(())
      case PasswordInvalid => Err(Rpc(PasswordHashInvalid))
      case PasswordEscaped(e) => Err(e)
  }

  /** The callable-password loop runs while no pass succeeded or escaped and fewer than `max_attempts` were made. */
  predicate PasswordContinues(maxAttempts: int, t: seq<PasswordAttempt>) {
    |t| < maxAttempts && forall i :: 0 <= i < |t| ==> t[i] == PasswordInvalid
  }

  /** A run of the password loop that stopped where the source stops it. */
  predicate PasswordRunEnded(maxAttempts: int, t: seq<PasswordAttempt>) {
    && (forall k :: 0 <= k < |t| ==> PasswordContinues(maxAttempts, t[..k]))
    && !PasswordContinues(maxAttempts, t)
  }

  /**
   * A run that only met invalid passwords before its last pass, stayed
   * within the budget, and either used it up or ended on a pass that was
   * not an invalid password, stopped where the source stops it.
   */
  lemma PasswordRunEndedWhen(maxAttempts: int, t: seq<PasswordAttempt>)
    requires forall k :: 0 <= k < |t| - 1 ==> t[k] == PasswordInvalid
    requires t != [] ==> |t| <= maxAttempts
    requires |t| >= maxAttempts || (t != [] && t[|t| - 1] != PasswordInvalid)
    ensures PasswordRunEnded(maxAttempts, t)
  {
    forall k | 0 <= k < |t| ensures PasswordContinues(maxAttempts, t[..k]) {
      assert forall j :: 0 <= j < k ==> t[..k][j] == t[j];
    }
  }

  /**
   * The converse: a run that stopped where the source stops it only met
   * invalid passwords before its last pass, stayed within the budget, and
   * either used it up or ended on a pass that was not an invalid password.
   */
  lemma PasswordRunEndedOnlyWhen(maxAttempts: int, t: seq<PasswordAttempt>)
    requires PasswordRunEnded(maxAttempts, t)
    ensures forall k :: 0 <= k < |t| - 1 ==> t[k] == PasswordInvalid
    ensures t != [] ==> |t| <= maxAttempts
    ensures |t| >= maxAttempts || (t != [] && t[|t| - 1] != PasswordInvalid)
  {
    if t != [] {
      var n := |t| - 1;
      assert PasswordContinues(maxAttempts, t[..n]);
      assert forall k :: 0 <= k < n ==> t[..n][k] == t[k];
    }
  }

  /**
   * A finished run of the password loop raises PasswordHashInvalid exactly
   * when `max_attempts` passwords (none if it is not positive) were all
   * invalid; it succeeds exactly when its last password was accepted.
   */
  lemma {:induction false} PasswordRunBudget(maxAttempts: int, t: seq<PasswordAttempt>)
    requires PasswordRunEnded(maxAttempts, t)
    ensures |t| <= if maxAttempts < 0 then 0 else maxAttempts
    ensures (PasswordOutcome(t) == Err(Rpc(PasswordHashInvalid)) && forall i :: 0 <= i < |t| ==> t[i].PasswordInvalid?)
        <==> |t| == (if maxAttempts < 0 then 0 else maxAttempts) && forall i :: 0 <= i < |t| ==> t[i] == PasswordInvalid
    ensures PasswordOutcome(t) == Ok(()) <==> t != [] && t[|t| - 1] == PasswordAccepted
  {
    if t != [] {
      assert PasswordContinues(maxAttempts, t[..|t| - 1]);
      assert |t| <= maxAttempts;
      if forall i :: 0 <= i < |t| ==> t[i] == PasswordInvalid {
        assert |t| >= maxAttempts;
      }
    } else {
      assert maxAttempts <= 0;
    }
  }
}
