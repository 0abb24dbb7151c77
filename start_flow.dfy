/**
 * The interactive part of `start` as functions of the server's replies:
 * each pass of the code loop and of the password loop runs `sign_up` or
 * `sign_in` against the state the previous pass left, and `_start` chains
 * authorization check, phone resolution, code request, code loop and
 * password phase.
 */
module Interactive {
  import opened AuthTypes
  import opened CodeRequest
  import opened Login
  import opened StartRules

  /** The errors that can escape a pass: those of the calls it makes, and a callback that fails. */
  predicate CalleeError(e: Error) {
    CallError(e) || e == CallbackFailed
  }

  /** The client state after one pass of a loop, and how the pass ended. */
  datatype Pass<A> = Pass(st: ClientState, outcome: A)

  /**
   * Pass `j` of the code loop. The code callback gives its j-th answer (it
   * fails when it has no more); an empty code counts as PhoneCodeEmpty
   * without a request; otherwise `sign_up(code, first_name, last_name)` runs
   * when `signUp` is set and `sign_in(phone, code=code)` when it is not, and
   * the except clauses classify the outcome.
   */
  function CodePass(env: Env, st: ClientState, phone: string, codes: seq<string>, j: nat, signUp: bool,
                    firstName: string, lastName: string): (p: Pass<Attempt>)
    ensures j >= |codes| ==> p == Pass(st, Escaped(CallbackFailed))
    ensures j < |codes| && codes[j] == "" ==> p == Pass(st, BadCode)
    ensures j < |codes| && codes[j] != "" ==> |p.st.log| > |st.log| && p.st.log[..|st.log| + 1] == st.log + [GetSelf]
    ensures p.outcome.Escaped? ==> CalleeError(p.outcome.e)
    ensures |p.st.log| >= |st.log| && p.st.log[..|st.log|] == st.log
  {
    if j >= |codes| then Pass(st, Escaped(CallbackFailed))
    else if codes[j] == "" then Pass(st, ClassifyCode<()>(Err(Rpc(PhoneCodeEmpty))))
    else if signUp then
      var r := SignUpSpec(env, st, codes[j], firstName, lastName, None, None);
      assert r.st.log[..|st.log|] == r.st.log[..|st.log| + 1][..|st.log|];
      Pass(r.st, ClassifyCode(r.out))
    else
      var r := SignInSpec(env, st, Some(phone), Some(codes[j]), None, None, None);
      assert r.st.log[..|st.log|] == r.st.log[..|st.log| + 1][..|st.log|];
      Pass(r.st, ClassifyCode(r.out))
  }

  /**
   * The `sign_up` flag picks the request of a pass with a code: when nobody
   * is logged in and the phone and hash resolve, the request after GetSelf
   * is SignUp when the flag is set and SignIn for the phone when it is not.
   */
  lemma CodePassRequest(env: Env, st: ClientState, phone: string, codes: seq<string>, j: nat, signUp: bool,
                        firstName: string, lastName: string)
    requires j < |codes| && codes[j] != ""
    requires env.server.self(st.log + [GetSelf]) == Answer(None)
    ensures var p := CodePass(env, st, phone, codes, j, signUp, firstName, lastName);
      var ph := ParsePhoneAndHash(env.parsePhone, Issue(st, GetSelf), if signUp then None else Some(phone), None);
      ph.Ok? ==>
        && |p.st.log| > |st.log| + 1
        && p.st.log[|st.log| + 1] == (if signUp then SignUp(ph.value.0, ph.value.1, codes[j], firstName, lastName)
                                      else SignIn(ph.value.0, ph.value.1, codes[j]))
  {
    var st1 := Issue(st, GetSelf);
    if signUp {
      var ph := ParsePhoneAndHash(env.parsePhone, st1, None, None);
      if ph.Ok? {
        var st2 := Issue(st1, SignUp(ph.value.0, ph.value.1, codes[j], firstName, lastName));
        assert st2.log[|st.log| + 1] == SignUp(ph.value.0, ph.value.1, codes[j], firstName, lastName);
        var r := SignUpSpec(env, st, codes[j], firstName, lastName, None, None);
        if st2.tos.Some? && env.server.authorization(st2.log).Answer? {
          var st3 := Issue(st2, AcceptTermsOfService(st2.tos.value.id));
          assert st3.log[|st.log| + 1] == st2.log[|st.log| + 1];
        }
      }
    } else {
      var ph := ParsePhoneAndHash(env.parsePhone, st1, Some(phone), None);
      if ph.Ok? {
        var req := SignIn(ph.value.0, ph.value.1, codes[j]);
        var a := AuthorizeSpec(env, st1, req);
        assert a.st.log == st1.log + [req];
        assert DispatchSpec(env, st1, Some(phone), Some(codes[j]), None, None, None).st == a.st;
      }
    }
  }


  /** `b` extends the request log of `a`: requests are only ever appended. */
  predicate LogExtends(a: ClientState, b: ClientState) {
    |b.log| >= |a.log| && b.log[..|a.log|] == a.log
  }

  lemma LogExtendsTrans(a: ClientState, b: ClientState, c: ClientState)
    requires LogExtends(a, b) && LogExtends(b, c)
    ensures LogExtends(a, c)
  {
    assert c.log[..|a.log|] == c.log[..|b.log|][..|a.log|];
  }

  /** A chain of states each of which extends the log of the one before extends the log of the first. */
  lemma {:induction false} LogChain(states: seq<ClientState>)
    requires forall k :: 0 <= k < |states| - 1 ==> LogExtends(states[k], states[k + 1])
    ensures |states| > 0 ==> LogExtends(states[0], states[|states| - 1])
  {
    if |states| > 1 {
      var init := states[..|states| - 1];
      forall k | 0 <= k < |init| - 1 ensures LogExtends(init[k], init[k + 1]) {
        assert init[k] == states[k] && init[k + 1] == states[k + 1];
      }
      LogChain(init);
      LogExtendsTrans(states[0], states[|states| - 2], states[|states| - 1]);
    }
  }

  /**
   * The code loop's state, loop variables and passes at its end;
   * `states[k]` and `loops[k]` are the state and the loop variables before
   * pass k.
   */
  datatype CodePasses = CodePasses(st: ClientState, loop: CodeLoop, trace: seq<Attempt>, states: seq<ClientState>,
                                   loops: seq<CodeLoop>)

  /**
   * The code loop from pass `i` on, with loop variables `s`: while
   * `attempts < max_attempts` holds and the loop was not left, one pass,
   * given by `pass` from the state before it, its index and the `sign_up`
   * flag of the loop variables.
   */
  function CodeLoopRun(pass: (ClientState, nat, bool) -> Pass<Attempt>, st: ClientState, maxAttempts: int,
                       s: CodeLoop, i: nat): (r: CodePasses)
    decreases (if s.phase.Trying? then 1 else 0) + maxAttempts - s.attempts
    ensures r.loop == CodeRun(s, r.trace)
    ensures !Continues(maxAttempts, r.loop)
    ensures |r.states| == |r.trace| + 1 && r.states[0] == st && r.states[|r.trace|] == r.st
    ensures |r.loops| == |r.trace| + 1 && r.loops[0] == s
  {
    if !Continues(maxAttempts, s) then CodePasses(st, s, [], [st], [s])
    else
      var p := pass(st, i, s.signUp);
      var rest := CodeLoopRun(pass, p.st, maxAttempts, CodeStep(s, p.outcome), i + 1);
      CodeRunCons(s, p.outcome, rest.trace);
      CodePasses(rest.st, rest.loop, [p.outcome] + rest.trace, [st] + rest.states, [s] + rest.loops)
  }

  /**
   * A loop in progress agrees with the whole run `total`: with the loop
   * variables `s`, after the passes `done`, from the state `st`, the rest of
   * the loop ends where `total` ends and adds the passes `total` has after
   * `done`.
   */
  predicate CodeLoopAt(pass: (ClientState, nat, bool) -> Pass<Attempt>, total: CodePasses, st: ClientState,
                       maxAttempts: int, s: CodeLoop, done: seq<Attempt>)
  {
    var rest := CodeLoopRun(pass, st, maxAttempts, s, |done|);
    total.st == rest.st && total.loop == rest.loop && total.trace == done + rest.trace
  }

  /** The whole run agrees with itself before its first pass. */
  lemma CodeLoopBegin(pass: (ClientState, nat, bool) -> Pass<Attempt>, st: ClientState, maxAttempts: int, s: CodeLoop)
    ensures CodeLoopAt(pass, CodeLoopRun(pass, st, maxAttempts, s, 0), st, maxAttempts, s, [])
  {
    assert [] + CodeLoopRun(pass, st, maxAttempts, s, 0).trace == CodeLoopRun(pass, st, maxAttempts, s, 0).trace;
  }

  /** One more pass, `a` leaving the state `st'`, keeps the loop in agreement with the whole run. */
  lemma CodeLoopAdvance(pass: (ClientState, nat, bool) -> Pass<Attempt>, total: CodePasses, st: ClientState,
                        st': ClientState, maxAttempts: int, s: CodeLoop, done: seq<Attempt>, a: Attempt)
    requires Continues(maxAttempts, s) && Pass(st', a) == pass(st, |done|, s.signUp)
    requires CodeLoopAt(pass, total, st, maxAttempts, s, done)
    ensures CodeLoopAt(pass, total, st', maxAttempts, CodeStep(s, a), done + [a])
  {
    var rest := CodeLoopRun(pass, st', maxAttempts, CodeStep(s, a), |done| + 1);
    assert CodeLoopRun(pass, st, maxAttempts, s, |done|).trace == [a] + rest.trace;
    assert done + ([a] + rest.trace) == (done + [a]) + rest.trace;
  }

  /** When the loop test fails, the loop has reached the end of the whole run. */
  lemma CodeLoopDone(pass: (ClientState, nat, bool) -> Pass<Attempt>, total: CodePasses, st: ClientState,
                     maxAttempts: int, s: CodeLoop, done: seq<Attempt>)
    requires !Continues(maxAttempts, s) && CodeLoopAt(pass, total, st, maxAttempts, s, done)
    ensures total.st == st && total.loop == s && total.trace == done
  {
    assert done + [] == done;
  }

  /** Every pass of the code loop was allowed by the loop test. */
  lemma {:induction false} CodeLoopTested(pass: (ClientState, nat, bool) -> Pass<Attempt>, st: ClientState,
                                          maxAttempts: int, s: CodeLoop, i: nat)
    ensures TestedBefore(maxAttempts, s, CodeLoopRun(pass, st, maxAttempts, s, i).trace)
    decreases (if s.phase.Trying? then 1 else 0) + maxAttempts - s.attempts
  {
    var r := CodeLoopRun(pass, st, maxAttempts, s, i);
    if Continues(maxAttempts, s) {
      var p := pass(st, i, s.signUp);
      var s' := CodeStep(s, p.outcome);
      var rest := CodeLoopRun(pass, p.st, maxAttempts, s', i + 1);
      CodeLoopTested(pass, p.st, maxAttempts, s', i + 1);
      assert TestedBefore(maxAttempts, s', rest.trace);
      assert r.trace == [p.outcome] + rest.trace;
      forall k | 0 <= k < |r.trace| ensures Continues(maxAttempts, CodeRun(s, r.trace[..k])) {
        if k == 0 {
          assert r.trace[..0] == [];
        } else {
          assert r.trace[..k] == [p.outcome] + rest.trace[..k - 1];
          CodeRunCons(s, p.outcome, rest.trace[..k - 1]);
        }
      }
    }
  }

  /** The loop variables before pass k of `r` are those the passes before it left from `s`. */
  predicate CodeLoopsTrack(s: CodeLoop, r: CodePasses)
    requires |r.loops| == |r.trace| + 1
  {
    forall k {:trigger r.loops[k]} :: 0 <= k <= |r.trace| ==> r.loops[k] == CodeRun(s, r.trace[..k])
  }

  /** The code loop records, before each pass, the loop variables the passes before it left. */
  lemma {:induction false} CodeLoopTracks(pass: (ClientState, nat, bool) -> Pass<Attempt>, st: ClientState,
                                          maxAttempts: int, s: CodeLoop, i: nat)
    ensures CodeLoopsTrack(s, CodeLoopRun(pass, st, maxAttempts, s, i))
    decreases (if s.phase.Trying? then 1 else 0) + maxAttempts - s.attempts
  {
    var r := CodeLoopRun(pass, st, maxAttempts, s, i);
    if Continues(maxAttempts, s) {
      var p := pass(st, i, s.signUp);
      var rest := CodeLoopRun(pass, p.st, maxAttempts, CodeStep(s, p.outcome), i + 1);
      CodeLoopTracks(pass, p.st, maxAttempts, CodeStep(s, p.outcome), i + 1);
      forall k | 0 <= k <= |r.trace| ensures r.loops[k] == CodeRun(s, r.trace[..k]) {
        if k == 0 {
          assert r.trace[..0] == [];
        } else {
          assert r.loops[k] == rest.loops[k - 1];
          CodeRunPrefixCons(s, p.outcome, rest.trace, k - 1);
        }
      }
    } else {
      assert r.trace[..0] == [];
    }
  }

  /** Pass k of `r` is `pass` at index `i + k`, run on the state and with the `sign_up` flag recorded before it. */
  predicate CodePassesFollow(pass: (ClientState, nat, bool) -> Pass<Attempt>, i: nat, r: CodePasses)
    requires |r.states| == |r.trace| + 1 && |r.loops| == |r.trace| + 1
  {
    forall k {:trigger r.trace[k]} :: 0 <= k < |r.trace| ==>
      Pass(r.states[k + 1], r.trace[k]) == pass(r.states[k], i + k, r.loops[k].signUp)
  }

  /** One pass `p` from `st` followed by passes that follow `pass` gives passes that follow `pass`. */
  lemma CodePassesShift(pass: (ClientState, nat, bool) -> Pass<Attempt>, st: ClientState, s: CodeLoop, i: nat,
                        p: Pass<Attempt>, rest: CodePasses)
    requires p == pass(st, i, s.signUp)
    requires |rest.states| == |rest.trace| + 1 && |rest.loops| == |rest.trace| + 1 && rest.states[0] == p.st
    requires CodePassesFollow(pass, i + 1, rest)
    ensures CodePassesFollow(pass, i, CodePasses(rest.st, rest.loop, [p.outcome] + rest.trace, [st] + rest.states,
                                                 [s] + rest.loops))
  {
    var r := CodePasses(rest.st, rest.loop, [p.outcome] + rest.trace, [st] + rest.states, [s] + rest.loops);
    forall k | 0 <= k < |r.trace|
      ensures Pass(r.states[k + 1], r.trace[k]) == pass(r.states[k], i + k, r.loops[k].signUp)
    {
      if k == 0 {
        assert r.states[1] == p.st && r.trace[0] == p.outcome && r.loops[0] == s;
      } else {
        assert r.trace[k] == rest.trace[k - 1] && r.loops[k] == rest.loops[k - 1];
        assert r.states[k] == rest.states[k - 1] && r.states[k + 1] == rest.states[k];
      }
    }
  }

  /** Each pass of the code loop runs on the state, and with the flag, recorded before it. */
  lemma {:induction false} CodeLoopPasses(pass: (ClientState, nat, bool) -> Pass<Attempt>, st: ClientState,
                                          maxAttempts: int, s: CodeLoop, i: nat)
    ensures CodePassesFollow(pass, i, CodeLoopRun(pass, st, maxAttempts, s, i))
    decreases (if s.phase.Trying? then 1 else 0) + maxAttempts - s.attempts
  {
    if Continues(maxAttempts, s) {
      var p := pass(st, i, s.signUp);
      var s' := CodeStep(s, p.outcome);
      var rest := CodeLoopRun(pass, p.st, maxAttempts, s', i + 1);
      CodeLoopPasses(pass, p.st, maxAttempts, s', i + 1);
      assert CodePassesFollow(pass, i + 1, rest);
      CodePassesShift(pass, st, s, i, p, rest);
    }
  }

  /** The pass of the code loop of `_start` for `phone` and the code callback's answers `codes`. */
  function CodePassFn(env: Env, phone: string, codes: seq<string>, firstName: string, lastName: string)
    : (ClientState, nat, bool) -> Pass<Attempt>
  {
    (before: ClientState, j: nat, signUp: bool) => CodePass(env, before, phone, codes, j, signUp, firstName, lastName)
  }

  /** The code loop of `_start`, from `sign_up = signUp` and no attempts. */
  function CodeLoopSpec(env: Env, st: ClientState, phone: string, codes: seq<string>, firstName: string,
                        lastName: string, maxAttempts: int, signUp: bool): (r: CodePasses)
    ensures r.loop == CodeRun(CodeStart(signUp), r.trace) && !Continues(maxAttempts, r.loop)
  {
    CodeLoopRun(CodePassFn(env, phone, codes, firstName, lastName), st, maxAttempts, CodeStart(signUp), 0)
  }

  /**
   * The code loop as the source runs it: the loop test held before every
   * pass and fails after the last; pass k is the pass with the k-th code,
   * run on the state the passes before it left with the `sign_up` flag they
   * left; the log only grows.
   */
  lemma CodeLoopFollowsReplies(env: Env, st: ClientState, phone: string, codes: seq<string>, firstName: string,
                               lastName: string, maxAttempts: int, signUp: bool)
    ensures var r := CodeLoopSpec(env, st, phone, codes, firstName, lastName, maxAttempts, signUp);
      && |r.states| == |r.trace| + 1 && r.states[0] == st && r.states[|r.trace|] == r.st
      && TestedBefore(maxAttempts, CodeStart(signUp), r.trace)
      && (forall k {:trigger r.trace[k]} :: 0 <= k < |r.trace| ==>
            Pass(r.states[k + 1], r.trace[k])
            == CodePass(env, r.states[k], phone, codes, k, CodeRun(CodeStart(signUp), r.trace[..k]).signUp, firstName, lastName))
      && LogExtends(st, r.st)
  {
    var pass := CodePassFn(env, phone, codes, firstName, lastName);
    var r := CodeLoopRun(pass, st, maxAttempts, CodeStart(signUp), 0);
    CodeLoopTested(pass, st, maxAttempts, CodeStart(signUp), 0);
    CodeLoopPasses(pass, st, maxAttempts, CodeStart(signUp), 0);
    CodeLoopTracks(pass, st, maxAttempts, CodeStart(signUp), 0);
    assert CodePassesFollow(pass, 0, r) && CodeLoopsTrack(CodeStart(signUp), r);
    forall k | 0 <= k < |r.trace|
      ensures Pass(r.states[k + 1], r.trace[k])
        == CodePass(env, r.states[k], phone, codes, k, CodeRun(CodeStart(signUp), r.trace[..k]).signUp, firstName, lastName)
    {
      assert r.loops[k] == CodeRun(CodeStart(signUp), r.trace[..k]);
      assert Pass(r.states[k + 1], r.trace[k]) == pass(r.states[k], k, r.loops[k].signUp);
    }
    forall k | 0 <= k < |r.states| - 1 ensures LogExtends(r.states[k], r.states[k + 1]) {
      assert r.trace[k] == r.trace[k];
    }
    LogChain(r.states);
  }

  /**
   * The code loop ends in one of the ways the source leaves it: the
   * RuntimeError exactly when it made `max_attempts` failed attempts (none
   * when that is not positive); signed in exactly when its last pass
   * succeeded, after fewer than `max_attempts` failures; aborted by an error
   * of a call it made or of the callback.
   */
  lemma CodeLoopEnds(env: Env, st: ClientState, phone: string, codes: seq<string>, firstName: string,
                     lastName: string, maxAttempts: int, signUp: bool)
    ensures var r := CodeLoopSpec(env, st, phone, codes, firstName, lastName, maxAttempts, signUp);
      && (r.loop.phase == Trying <==> AllConsume(r.trace) && |r.trace| == (if maxAttempts < 0 then 0 else maxAttempts))
      && (r.loop.phase == SignedIn <==> r.trace != [] && r.trace[|r.trace| - 1] == Accepted)
      && (r.loop.phase == TwoStep <==> r.trace != [] && r.trace[|r.trace| - 1] == PasswordNeeded)
      && (r.loop.phase.Aborted? <==> r.trace != [] && r.trace[|r.trace| - 1].Escaped?)
      && (r.loop.phase.Aborted? ==> r.trace[|r.trace| - 1] == Escaped(r.loop.phase.e))
      && (r.trace != [] ==> AllConsume(r.trace[..|r.trace| - 1]) && |r.trace| <= maxAttempts)
      && (r.loop.phase.Aborted? ==> CalleeError(r.loop.phase.e))
  {
    var r := CodeLoopSpec(env, st, phone, codes, firstName, lastName, maxAttempts, signUp);
    CodeLoopFollowsReplies(env, st, phone, codes, firstName, lastName, maxAttempts, signUp);
    CodeRunEnds(maxAttempts, signUp, r.trace);
    if r.trace != [] {
      var n := |r.trace| - 1;
      assert Pass(r.states[n + 1], r.trace[n])
          == CodePass(env, r.states[n], phone, codes, n, CodeRun(CodeStart(signUp), r.trace[..n]).signUp, firstName, lastName);
    }
  }

  /**
   * The code callback as the loop uses it: one code per pass, a callback
   * run dry ends the loop with its failure, and an empty code is a bad-code
   * pass.
   */
  lemma CodeLoopCallback(env: Env, st: ClientState, phone: string, codes: seq<string>, firstName: string,
                         lastName: string, maxAttempts: int, signUp: bool)
    ensures var r := CodeLoopSpec(env, st, phone, codes, firstName, lastName, maxAttempts, signUp);
      && |r.trace| <= |codes| + 1
      && (forall k :: 0 <= k < |r.trace| && k == |codes| ==> r.trace[k] == Escaped(CallbackFailed))
      && (forall k :: 0 <= k < |r.trace| && k < |codes| && codes[k] == "" ==> r.trace[k] == BadCode)
  {
    var r := CodeLoopSpec(env, st, phone, codes, firstName, lastName, maxAttempts, signUp);
    CodeLoopFollowsReplies(env, st, phone, codes, firstName, lastName, maxAttempts, signUp);
    CodeLoopEnds(env, st, phone, codes, firstName, lastName, maxAttempts, signUp);
    if |r.trace| >= 2 {
      var n := |r.trace| - 2;
      assert r.trace[..|r.trace| - 1][n] == r.trace[n];
      assert Consumes(r.trace[n]);
      assert Pass(r.states[n + 1], r.trace[n])
          == CodePass(env, r.states[n], phone, codes, n, CodeRun(CodeStart(signUp), r.trace[..n]).signUp, firstName, lastName);
    }
  }

  /** The code loop does not give up early: after fewer than `max_attempts` failed passes it makes another pass. */
  lemma CodeLoopKeepsTrying(env: Env, st: ClientState, phone: string, codes: seq<string>, firstName: string,
                            lastName: string, maxAttempts: int, signUp: bool)
    ensures var r := CodeLoopSpec(env, st, phone, codes, firstName, lastName, maxAttempts, signUp);
      forall k :: 0 <= k < maxAttempts && k <= |r.trace| && AllConsume(r.trace[..k]) ==> k < |r.trace|
  {
    var r := CodeLoopSpec(env, st, phone, codes, firstName, lastName, maxAttempts, signUp);
    forall k | 0 <= k < maxAttempts && k <= |r.trace| && AllConsume(r.trace[..k]) ensures k < |r.trace| {
      EachFailureCountsOnce(signUp, r.trace[..k]);
      assert Continues(maxAttempts, CodeRun(CodeStart(signUp), r.trace[..k]));
      assert r.trace[..|r.trace|] == r.trace;
    }
  }

  /** The password loop's state and passes at its end; `states[k]` is the state before pass k. */
  datatype PasswordPasses = PasswordPasses(st: ClientState, trace: seq<PasswordAttempt>, states: seq<ClientState>)

  /** Pass `j` of the password loop: `sign_in(phone=phone, password=…)` with the callback's j-th answer. */
  function PasswordPass(env: Env, st: ClientState, phone: string, answers: seq<string>, j: nat): (p: Pass<PasswordAttempt>)
    ensures j >= |answers| ==> p == Pass(st, PasswordEscaped(CallbackFailed))
    ensures j < |answers| ==> |p.st.log| > |st.log| && p.st.log[..|st.log| + 1] == st.log + [GetSelf]
    ensures p.outcome.PasswordEscaped? ==> CalleeError(p.outcome.e)
    ensures LogExtends(st, p.st)
  {
    if j >= |answers| then Pass(st, PasswordEscaped(CallbackFailed))
    else
      var r := SignInSpec(env, st, Some(phone), None, Some(answers[j]), None, None);
      assert r.st.log[..|st.log|] == r.st.log[..|st.log| + 1][..|st.log|];
      Pass(r.st, ClassifyPassword(r.out))
  }

  /**
   * The `for _ in range(max_attempts)` loop from pass `i` on, with `pass`
   * giving each pass from the state before it and its index: it stops after
   * the first pass that is not an invalid password, or when the range is
   * used up.
   */
  function PasswordLoopRun(pass: (ClientState, nat) -> Pass<PasswordAttempt>, st: ClientState, maxAttempts: int, i: nat)
    : (r: PasswordPasses)
    decreases maxAttempts - i
    ensures |r.states| == |r.trace| + 1 && r.states[0] == st && r.states[|r.trace|] == r.st
    ensures forall k :: 0 <= k < |r.trace| - 1 ==> r.trace[k] == PasswordInvalid
    ensures r.trace != [] ==> i + |r.trace| <= maxAttempts
    ensures i + |r.trace| >= maxAttempts || (r.trace != [] && r.trace[|r.trace| - 1] != PasswordInvalid)
  {
    if maxAttempts <= i then PasswordPasses(st, [], [st])
    else
      var p := pass(st, i);
      if p.outcome != PasswordInvalid then PasswordPasses(p.st, [p.outcome], [st, p.st])
      else
        var rest := PasswordLoopRun(pass, p.st, maxAttempts, i + 1);
        PasswordPasses(rest.st, [p.outcome] + rest.trace, [st] + rest.states)
  }

  /** The password loop in progress agrees with the whole run `total` after the passes `done`, from the state `st`. */
  predicate PasswordLoopAt(pass: (ClientState, nat) -> Pass<PasswordAttempt>, total: PasswordPasses, st: ClientState,
                           maxAttempts: int, done: seq<PasswordAttempt>)
  {
    var rest := PasswordLoopRun(pass, st, maxAttempts, |done|);
    total.st == rest.st && total.trace == done + rest.trace
  }

  /** The whole password run agrees with itself before its first pass. */
  lemma PasswordLoopBegin(pass: (ClientState, nat) -> Pass<PasswordAttempt>, st: ClientState, maxAttempts: int)
    ensures PasswordLoopAt(pass, PasswordLoopRun(pass, st, maxAttempts, 0), st, maxAttempts, [])
  {
    assert [] + PasswordLoopRun(pass, st, maxAttempts, 0).trace == PasswordLoopRun(pass, st, maxAttempts, 0).trace;
  }

  /**
   * One more pass, `a` leaving the state `st'`: an invalid password keeps
   * the loop in agreement with the whole run, anything else ends the run.
   */
  lemma PasswordLoopAdvance(pass: (ClientState, nat) -> Pass<PasswordAttempt>, total: PasswordPasses, st: ClientState,
                            st': ClientState, maxAttempts: int, done: seq<PasswordAttempt>, a: PasswordAttempt)
    requires |done| < maxAttempts && Pass(st', a) == pass(st, |done|)
    requires PasswordLoopAt(pass, total, st, maxAttempts, done)
    ensures a != PasswordInvalid ==> total.st == st' && total.trace == done + [a]
    ensures a == PasswordInvalid ==> PasswordLoopAt(pass, total, st', maxAttempts, done + [a])
  {
    if a == PasswordInvalid {
      var rest := PasswordLoopRun(pass, st', maxAttempts, |done| + 1);
      assert PasswordLoopRun(pass, st, maxAttempts, |done|).trace == [a] + rest.trace;
      assert done + ([a] + rest.trace) == (done + [a]) + rest.trace;
    }
  }

  /** When the range is used up, the loop has reached the end of the whole run. */
  lemma PasswordLoopDone(pass: (ClientState, nat) -> Pass<PasswordAttempt>, total: PasswordPasses, st: ClientState,
                         maxAttempts: int, done: seq<PasswordAttempt>)
    requires maxAttempts <= |done| && PasswordLoopAt(pass, total, st, maxAttempts, done)
    ensures total.st == st && total.trace == done
  {
    assert done + [] == done;
  }

  /** Pass k of `r` is `pass` at index `i + k`, run on the state the passes before it left. */
  predicate PasswordPassesFollow(pass: (ClientState, nat) -> Pass<PasswordAttempt>, i: nat, r: PasswordPasses)
    requires |r.states| == |r.trace| + 1
  {
    forall k {:trigger r.trace[k]} :: 0 <= k < |r.trace| ==> Pass(r.states[k + 1], r.trace[k]) == pass(r.states[k], i + k)
  }

  /** One pass `p` from `st` followed by passes that follow `pass` gives passes that follow `pass`. */
  lemma PasswordPassesShift(pass: (ClientState, nat) -> Pass<PasswordAttempt>, st: ClientState, i: nat,
                            p: Pass<PasswordAttempt>, rest: PasswordPasses)
    requires p == pass(st, i)
    requires |rest.states| == |rest.trace| + 1 && rest.states[0] == p.st
    requires PasswordPassesFollow(pass, i + 1, rest)
    ensures PasswordPassesFollow(pass, i, PasswordPasses(rest.st, [p.outcome] + rest.trace, [st] + rest.states))
  {
    var r := PasswordPasses(rest.st, [p.outcome] + rest.trace, [st] + rest.states);
    forall k | 0 <= k < |r.trace|
      ensures Pass(r.states[k + 1], r.trace[k]) == pass(r.states[k], i + k)
    {
      if k > 0 {
        var k' := k - 1;
        assert Pass(rest.states[k' + 1], rest.trace[k']) == pass(rest.states[k'], i + 1 + k');
        assert r.trace[k] == rest.trace[k'] && r.states[k] == rest.states[k'] && r.states[k + 1] == rest.states[k' + 1];
        assert pass(r.states[k], i + k) == pass(rest.states[k'], i + 1 + k');
      }
    }
  }

  /** Each pass of the password loop runs on the state the passes before it left. */
  lemma {:induction false} PasswordLoopPasses(pass: (ClientState, nat) -> Pass<PasswordAttempt>, st: ClientState,
                                              maxAttempts: int, i: nat)
    ensures PasswordPassesFollow(pass, i, PasswordLoopRun(pass, st, maxAttempts, i))
    decreases maxAttempts - i
  {
    if i < maxAttempts {
      var p := pass(st, i);
      if p.outcome == PasswordInvalid {
        var rest := PasswordLoopRun(pass, p.st, maxAttempts, i + 1);
        PasswordLoopPasses(pass, p.st, maxAttempts, i + 1);
        PasswordPassesShift(pass, st, i, p, rest);
      }
    }
  }

  /** The pass of the password loop of `_start` for `phone` and the password callback's answers. */
  function PasswordPassFn(env: Env, phone: string, answers: seq<string>): (ClientState, nat) -> Pass<PasswordAttempt> {
    (before: ClientState, j: nat) => PasswordPass(env, before, phone, answers, j)
  }

  /** The password phase's final state, result and passes. */
  datatype PasswordRun = PasswordRun(st: ClientState, out: Result<(), Error>, trace: seq<PasswordAttempt>)

  /**
   * The password phase of `_start`, entered on SessionPasswordNeeded: a
   * missing password is a ValueError before any request, a callable one
   * gets its own loop, a fixed one is tried once and its error escapes.
   */
  function PasswordPhaseSpec(env: Env, st: ClientState, phone: string, password: PasswordArg, maxAttempts: int)
    : (r: PasswordRun)
    ensures !PasswordGiven(password) ==> r == PasswordRun(st, Err(ValueError(PasswordMissing)), [])
    ensures PasswordGiven(password) ==> r.out == PasswordOutcome(r.trace)
    ensures password.PasswordCallback? ==> PasswordRunEnded(maxAttempts, r.trace)
    ensures password.PasswordText? && password.text != "" ==>
      var s := SignInSpec(env, st, Some(phone), None, Some(password.text), None, None);
      r.st == s.st && r.trace == [ClassifyPassword(s.out)] && (r.out.Ok? <==> s.out.Ok?)
  {
    if !PasswordGiven(password) then PasswordRun(st, Err(ValueError(PasswordMissing)), [])
    else if password.PasswordText? then
      var s := SignInSpec(env, st, Some(phone), None, Some(password.text), None, None);
      var t := [ClassifyPassword(s.out)];
      PasswordRun(s.st, PasswordOutcome(t), t)
    else
      var p := PasswordLoopRun(PasswordPassFn(env, phone, password.answers), st, maxAttempts, 0);
      PasswordRunEndedWhen(maxAttempts, p.trace);
      PasswordRun(p.st, PasswordOutcome(p.trace), p.trace)
  }

  /**
   * An empty answer from the password callback is no wrong password: with
   * no user logged in, `sign_in(phone=phone, password="")` asks for a code
   * again, which for a phone with a cached hash is one ResendCode. The phase
   * ends on that pass without logging in: normally when the resend is
   * answered, and with the resend's error when it raises one.
   */
  lemma EmptyPasswordEndsPhase(env: Env, st: ClientState, phone: string, maxAttempts: int)
    requires maxAttempts >= 1 && phone != ""
    requires env.server.self(st.log + [GetSelf]) == Answer(None)
    requires HasHash(st.codeHashes, NormalizePhone(env.parsePhone, Some(phone), st.phone))
    ensures var p := NormalizePhone(env.parsePhone, Some(phone), st.phone);
      var reply := env.server.sentCode(st.log + [GetSelf, ResendCode(p, st.codeHashes[p])]);
      var r := PasswordPhaseSpec(env, st, phone, PasswordCallback([""]), maxAttempts);
      && r.st.log == st.log + [GetSelf, ResendCode(p, st.codeHashes[p])]
      && r.st.authorized == st.authorized && r.st.bot == st.bot
      && (reply.Answer? ==> r.out == Ok(()))
      && (reply.Raised? && reply.rpc != PasswordHashInvalid ==> r.out == Err(Rpc(reply.rpc)))
  {
    var p := NormalizePhone(env.parsePhone, Some(phone), st.phone);
    var st1 := Issue(st, GetSelf);
    assert st1.log == st.log + [GetSelf];
    CachedPhoneResends(env, st1, phone, false, env.restartFuel);
    var s := SignInSpec(env, st, Some(phone), None, Some(""), None, None);
    var sent := SendCodeSpec(env, st1, phone, false, env.restartFuel);
    assert Route(Some(phone), None, Some(""), None) == RequestCode;
    assert s == Step(sent.st, AsCodeSent(sent.out));
    var pass := PasswordPassFn(env, phone, [""]);
    var a := ClassifyPassword(s.out);
    assert pass(st, 0) == Pass(s.st, a);
    var run := PasswordLoopRun(pass, st, maxAttempts, 0);
    if a != PasswordInvalid {
      assert run.st == s.st && run.trace == [a];
    } else {
      assert pass(s.st, 1) == Pass(s.st, PasswordEscaped(CallbackFailed));
      var rest := PasswordLoopRun(pass, s.st, maxAttempts, 1);
      assert rest.st == s.st;
      assert run.st == rest.st;
    }
  }

  /**
   * The password callback's loop as the source runs it: pass k is
   * `sign_in` with the k-th answer on the state the passes before it left,
   * at most one pass per answer plus the failing call; any error of the
   * phase comes from a call it made or a callback; the log only grows.
   */
  lemma PasswordPhaseFollowsReplies(env: Env, st: ClientState, phone: string, password: PasswordArg, maxAttempts: int)
    ensures var r := PasswordPhaseSpec(env, st, phone, password, maxAttempts);
      && (password.PasswordCallback? ==>
            var p := PasswordLoopRun(PasswordPassFn(env, phone, password.answers), st, maxAttempts, 0);
            && r.st == p.st && r.trace == p.trace && p.states[0] == st
            && (forall k {:trigger p.trace[k]} :: 0 <= k < |p.trace| ==>
                  Pass(p.states[k + 1], p.trace[k]) == PasswordPass(env, p.states[k], phone, password.answers, k))
            && |r.trace| <= |password.answers| + 1
            && (forall k :: 0 <= k < |r.trace| && k == |password.answers| ==> r.trace[k] == PasswordEscaped(CallbackFailed)))
      && (r.out.Err? ==> CalleeError(r.out.error))
      && LogExtends(st, r.st)
  {
    var r := PasswordPhaseSpec(env, st, phone, password, maxAttempts);
    if password.PasswordCallback? {
      var pass := PasswordPassFn(env, phone, password.answers);
      var p := PasswordLoopRun(pass, st, maxAttempts, 0);
      PasswordLoopPasses(pass, st, maxAttempts, 0);
      assert PasswordPassesFollow(pass, 0, p);
      forall k | 0 <= k < |p.states| - 1 ensures LogExtends(p.states[k], p.states[k + 1]) {
        assert p.trace[k] == p.trace[k];
      }
      LogChain(p.states);
      if p.trace != [] {
        var n := |p.trace| - 1;
        assert Pass(p.states[n + 1], p.trace[n]) == PasswordPass(env, p.states[n], phone, password.answers, n);
      }
      if |p.trace| >= 2 {
        var n := |p.trace| - 2;
        assert Pass(p.states[n + 1], p.trace[n]) == PasswordPass(env, p.states[n], phone, password.answers, n);
      }
    } else if PasswordGiven(password) {
      var s := SignInSpec(env, st, Some(phone), None, Some(password.text), None, None);
      assert s.st.log[..|st.log|] == s.st.log[..|st.log| + 1][..|st.log|];
    }
  }

  /** The result of `start`: final state and result, and what the code and password loops did. */
  datatype StartRun = StartRun(st: ClientState, out: Result<(), Error>, codeRan: bool, signUp: bool,
                               codeTrace: seq<Attempt>, passwordTrace: seq<PasswordAttempt>)

  /**
   * The part of `_start` after the code was sent: the code loop with
   * `sign_up` starting at `signUp` and, when it ends on
   * SessionPasswordNeeded, the password phase.
   */
  function CodeThenPasswordSpec(env: Env, st: ClientState, phone: string, password: PasswordArg, codes: seq<string>,
                                signUp: bool, firstName: string, lastName: string, maxAttempts: int): (r: StartRun)
    ensures r.codeRan && r.signUp == signUp
    ensures r.codeTrace == CodeLoopSpec(env, st, phone, codes, firstName, lastName, maxAttempts, signUp).trace
  {
    var c := CodeLoopSpec(env, st, phone, codes, firstName, lastName, maxAttempts, signUp);
    match CodeOutcome(maxAttempts, c.loop)
    case Ok(true) =>
      var p := PasswordPhaseSpec(env, c.st, phone, password, maxAttempts);
      StartRun(p.st, p.out, true, signUp, c.trace, p.trace)
    case Ok(false) => StartRun(c.st, Ok(()), true, signUp, c.trace, [])
    case Err(e) => StartRun(c.st, Err(e), true, signUp, c.trace, [])
  }

  /**
   * How the code loop's end decides the result of `_start`: the loop test
   * held before every pass and fails after the last; a success returns
   * normally, SessionPasswordNeeded hands over to the password phase, an
   * escaped error is raised.
   */
  lemma CodeThenPasswordOutcome(env: Env, st: ClientState, phone: string, password: PasswordArg, codes: seq<string>,
                                signUp: bool, firstName: string, lastName: string, maxAttempts: int)
    ensures var r := CodeThenPasswordSpec(env, st, phone, password, codes, signUp, firstName, lastName, maxAttempts);
      var c := CodeLoopSpec(env, st, phone, codes, firstName, lastName, maxAttempts, signUp);
      && TestedBefore(maxAttempts, CodeStart(signUp), r.codeTrace)
      && !Continues(maxAttempts, CodeRun(CodeStart(signUp), r.codeTrace))
      && (r.codeTrace != [] && r.codeTrace[|r.codeTrace| - 1] == Accepted ==>
            r.st == c.st && r.out == Ok(()) && r.passwordTrace == []
            && AllConsume(r.codeTrace[..|r.codeTrace| - 1]) && |r.codeTrace| <= maxAttempts)
      && (r.codeTrace != [] && r.codeTrace[|r.codeTrace| - 1] == PasswordNeeded ==>
            var p := PasswordPhaseSpec(env, c.st, phone, password, maxAttempts);
            r.st == p.st && r.out == p.out && r.passwordTrace == p.trace)
      && (r.codeTrace != [] && r.codeTrace[|r.codeTrace| - 1].Escaped? ==>
            r.st == c.st && r.out == Err(r.codeTrace[|r.codeTrace| - 1].e) && r.passwordTrace == [])
  {
    var c := CodeLoopSpec(env, st, phone, codes, firstName, lastName, maxAttempts, signUp);
    CodeLoopFollowsReplies(env, st, phone, codes, firstName, lastName, maxAttempts, signUp);
    CodeRunEnds(maxAttempts, signUp, c.trace);
  }

  /**
   * `max_attempts - 1` failed passes and then a code that signs in: that
   * last pass is still made, and `_start` returns normally.
   */
  lemma CodeThenPasswordLastChance(env: Env, st: ClientState, phone: string, password: PasswordArg, codes: seq<string>,
                                   signUp: bool, firstName: string, lastName: string, maxAttempts: int)
    ensures var r := CodeThenPasswordSpec(env, st, phone, password, codes, signUp, firstName, lastName, maxAttempts);
      maxAttempts >= 1 && |r.codeTrace| >= maxAttempts - 1 && AllConsume(r.codeTrace[..maxAttempts - 1]) ==>
        && |r.codeTrace| == maxAttempts
        && (r.codeTrace[maxAttempts - 1] == Accepted ==> r.out == Ok(()))
  {
    CodeLoopKeepsTrying(env, st, phone, codes, firstName, lastName, maxAttempts, signUp);
    CodeLoopEnds(env, st, phone, codes, firstName, lastName, maxAttempts, signUp);
    CodeThenPasswordOutcome(env, st, phone, password, codes, signUp, firstName, lastName, maxAttempts);
  }

  /**
   * The RuntimeError after the code was sent is raised exactly after
   * `max_attempts` failed attempts; any other error comes from a call or a
   * callback.
   */
  lemma CodeThenPasswordErrors(env: Env, st: ClientState, phone: string, password: PasswordArg, codes: seq<string>,
                               signUp: bool, firstName: string, lastName: string, maxAttempts: int)
    ensures var r := CodeThenPasswordSpec(env, st, phone, password, codes, signUp, firstName, lastName, maxAttempts);
      && (r.out == Err(TooManyAttempts(maxAttempts)) <==>
            AllConsume(r.codeTrace) && |r.codeTrace| == (if maxAttempts < 0 then 0 else maxAttempts))
      && (r.out.Err? && !r.out.error.TooManyAttempts? ==> CalleeError(r.out.error))
  {
    var c := CodeLoopSpec(env, st, phone, codes, firstName, lastName, maxAttempts, signUp);
    CodeLoopEnds(env, st, phone, codes, firstName, lastName, maxAttempts, signUp);
    if c.loop.phase == TwoStep {
      PasswordPhaseFollowsReplies(env, c.st, phone, password, maxAttempts);
    }
  }

  /** After the code was sent, `_start` only appends to the request log. */
  lemma CodeThenPasswordLog(env: Env, st: ClientState, phone: string, password: PasswordArg, codes: seq<string>,
                            signUp: bool, firstName: string, lastName: string, maxAttempts: int)
    ensures LogExtends(st, CodeThenPasswordSpec(env, st, phone, password, codes, signUp, firstName, lastName, maxAttempts).st)
  {
    var c := CodeLoopSpec(env, st, phone, codes, firstName, lastName, maxAttempts, signUp);
    CodeLoopFollowsReplies(env, st, phone, codes, firstName, lastName, maxAttempts, signUp);
    if c.loop.phase == TwoStep {
      PasswordPhaseFollowsReplies(env, c.st, phone, password, maxAttempts);
      LogExtendsTrans(st, c.st, PasswordPhaseSpec(env, c.st, phone, password, maxAttempts).st);
    }
  }

  /**
   * The phone callback loop and the bot token of `_start`: a bot token
   * wins; otherwise a fixed phone is used as given and a callable one is
   * asked until it gives a bot token or a parsable phone.
   */
  function Resolve(parse: string -> Option<string>, phone: PhoneArg, botToken: string): (r: Resolution)
    ensures botToken != "" ==> r == ResolvedBot(botToken)
    ensures r.ResolvedBot? ==> r.token != "" && (botToken == "" ==> phone.PhoneCallback? && ':' in r.token)
    ensures botToken == "" && phone.PhoneText? ==> r == ResolvedPhone(phone.text)
    ensures r.PhoneCallbackFailed? ==>
      phone.PhoneCallback? && forall k :: 0 <= k < |phone.answers| ==> Unusable(parse, phone.answers[k])
  {
    if botToken != "" then ResolvedBot(botToken)
    else match phone
      case PhoneText(text) => ResolvedPhone(text)
      case PhoneCallback(answers) => FirstUsable(parse, answers, 0).0
  }

  /**
   * `_start(...)`: nothing when already authorized; the bot path signs in
   * with the token; the phone path requests a code and runs the code loop
   * with `sign_up = not phone_registered`.
   */
  function StartFlowSpec(env: Env, st: ClientState, phone: PhoneArg, password: PasswordArg, botToken: string,
                         forceSms: bool, codes: seq<string>, firstName: string, lastName: string, maxAttempts: int)
    : (r: StartRun)
    ensures env.server.authorized(st.log) ==> r == StartRun(st, Ok(()), false, false, [], [])
    ensures var res := Resolve(env.parsePhone, phone, botToken);
      r.codeRan <==> !env.server.authorized(st.log) && res.ResolvedPhone?
                     && SendCodeSpec(env, st, res.phone, forceSms, env.restartFuel).out.Ok?
    ensures r.codeRan ==>
      var number := Resolve(env.parsePhone, phone, botToken).phone;
      var sent := SendCodeSpec(env, st, number, forceSms, env.restartFuel);
      && r.signUp == !sent.out.value.phoneRegistered
      && r == CodeThenPasswordSpec(env, sent.st, number, password, codes, r.signUp, firstName, lastName, maxAttempts)
    ensures var res := Resolve(env.parsePhone, phone, botToken);
      !env.server.authorized(st.log) && res.ResolvedBot? ==>
        var s := SignInSpec(env, st, None, None, None, Some(res.token), None);
        r.st == s.st && (r.out.Ok? <==> s.out.Ok?) && (s.out.Err? ==> r.out == Err(s.out.error))
    ensures !r.codeRan ==> r.codeTrace == [] && r.passwordTrace == []
  {
    if env.server.authorized(st.log) then StartRun(st, Ok(()), false, false, [], [])
    else match Resolve(env.parsePhone, phone, botToken)
      case PhoneCallbackFailed => StartRun(st, Err(CallbackFailed), false, false, [], [])
      case ResolvedBot(token) =>
        var s := SignInSpec(env, st, None, None, None, Some(token), None);
        StartRun(s.st, if s.out.Ok? then Ok(()) else Err(s.out.error), false, false, [], [])
      case ResolvedPhone(number) =>
        var sent := SendCodeSpec(env, st, number, forceSms, env.restartFuel);
        if sent.out.Err? then StartRun(sent.st, Err(sent.out.error), false, false, [], [])
        else CodeThenPasswordSpec(env, sent.st, number, password, codes, !sent.out.value.phoneRegistered,
                                  firstName, lastName, maxAttempts)
  }

  /**
   * `_start` raises the RuntimeError exactly when the code loop ran and
   * made `max_attempts` failed attempts; every other error comes from a
   * call it made or a callback that failed; the log only grows.
   */
  lemma StartFlowRuntimeError(env: Env, st: ClientState, phone: PhoneArg, password: PasswordArg, botToken: string,
                              forceSms: bool, codes: seq<string>, firstName: string, lastName: string, maxAttempts: int)
    ensures var r := StartFlowSpec(env, st, phone, password, botToken, forceSms, codes, firstName, lastName, maxAttempts);
      && (r.out == Err(TooManyAttempts(maxAttempts)) <==>
            r.codeRan && AllConsume(r.codeTrace) && |r.codeTrace| == (if maxAttempts < 0 then 0 else maxAttempts))
      && (r.out.Err? && !r.out.error.TooManyAttempts? ==> CalleeError(r.out.error))
      && LogExtends(st, r.st)
  {
    var r := StartFlowSpec(env, st, phone, password, botToken, forceSms, codes, firstName, lastName, maxAttempts);
    if !env.server.authorized(st.log) {
      var res := Resolve(env.parsePhone, phone, botToken);
      if res.ResolvedBot? {
        var s := SignInSpec(env, st, None, None, None, Some(res.token), None);
        assert s.st.log[..|st.log|] == s.st.log[..|st.log| + 1][..|st.log|];
      } else if res.ResolvedPhone? {
        var sent := SendCodeSpec(env, st, res.phone, forceSms, env.restartFuel);
        if sent.out.Ok? {
          var signUp := !sent.out.value.phoneRegistered;
          CodeThenPasswordErrors(env, sent.st, res.phone, password, codes, signUp, firstName, lastName, maxAttempts);
          CodeThenPasswordLog(env, sent.st, res.phone, password, codes, signUp, firstName, lastName, maxAttempts);
          assert r.st.log[..|st.log|] == r.st.log[..|sent.st.log|][..|st.log|];
        }
      }
    }
  }

  /** `start(...)`: the argument checks, then `_start`. */
  function StartSpec(env: Env, st: ClientState, phone: PhoneArg, password: PasswordArg, botToken: string, forceSms: bool,
                     code: CodeArg, firstName: string, lastName: string, maxAttempts: int): (r: StartRun)
    ensures ValidateStart(phone, botToken, code).Some? ==>
      r == StartRun(st, Err(ValueError(ValidateStart(phone, botToken, code).value)), false, false, [], [])
    ensures ValidateStart(phone, botToken, code).None? ==>
      r == StartFlowSpec(env, st, phone, password, botToken, forceSms, code.answers, firstName, lastName, maxAttempts)
  {
    match ValidateStart(phone, botToken, code)
    case Some(kind) => StartRun(st, Err(ValueError(kind)), false, false, [], [])
    case None => StartFlowSpec(env, st, phone, password, botToken, forceSms, code.answers, firstName, lastName, maxAttempts)
  }

  /**
   * `start` raises the RuntimeError exactly when the code loop ran and made
   * `max_attempts` failed attempts; the code loop only runs with a callable
   * code source; the log only grows.
   */
  lemma StartRuntimeError(env: Env, st: ClientState, phone: PhoneArg, password: PasswordArg, botToken: string,
                          forceSms: bool, code: CodeArg, firstName: string, lastName: string, maxAttempts: int)
    ensures var r := StartSpec(env, st, phone, password, botToken, forceSms, code, firstName, lastName, maxAttempts);
      && (r.out == Err(TooManyAttempts(maxAttempts)) <==>
            r.codeRan && AllConsume(r.codeTrace) && |r.codeTrace| == (if maxAttempts < 0 then 0 else maxAttempts))
      && (r.codeRan ==> code.CodeCallback?)
      && LogExtends(st, r.st)
  {
    if ValidateStart(phone, botToken, code).None? {
      StartFlowRuntimeError(env, st, phone, password, botToken, forceSms, code.answers, firstName, lastName, maxAttempts);
    }
  }
}
