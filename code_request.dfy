/**
 * The per-client cache from a normalised phone to the hash of the last code
 * sent to it: how `send_code_request` fills it and how
 * `_parse_phone_and_hash` reads it.
 */
module CodeRequest {
  import opened AuthTypes

  /** `utils.parse_phone(phone) or self._phone`: the parsed phone when it is not empty, else the cached one. */
  function NormalizePhone(parse: string -> Option<string>, phone: Option<string>, cached: string): (p: string)
    ensures p == cached || (phone.Some? && parse(phone.value) == Some(p) && p != "")
    ensures phone.Some? && Given(parse(phone.value)) ==> p == parse(phone.value).value && p != ""
    ensures !(phone.Some? && Given(parse(phone.value))) ==> p == cached
  {
    if phone.Some? && Given(parse(phone.value)) then parse(phone.value).value else cached
  }

  /** A usable (non-empty) hash is cached for `p`. */
  predicate HasHash(hashes: map<string, string>, p: string) {
    p in hashes && hashes[p] != ""
  }

  /**
   * `_parse_phone_and_hash`: the phone falls back to the cached phone, the
   * hash to the one cached for that phone; either one missing is a ValueError.
   */
  function ParsePhoneAndHash(parse: string -> Option<string>, st: ClientState, phone: Option<string>, hash: Option<string>)
    : (r: Result<(string, string), Error>)
    ensures r.Ok? ==> r.value.0 == NormalizePhone(parse, phone, st.phone) && r.value.0 != "" && r.value.1 != ""
    ensures r.Ok? && Given(hash) ==> r.value.1 == hash.value
    ensures r.Ok? && !Given(hash) ==> r.value.0 in st.codeHashes && st.codeHashes[r.value.0] == r.value.1
    ensures r == Err(ValueError(NoPhone)) <==> NormalizePhone(parse, phone, st.phone) == ""
    ensures r == Err(ValueError(NoPhoneCodeHash)) <==>
      NormalizePhone(parse, phone, st.phone) != "" && !Given(hash) && !HasHash(st.codeHashes, NormalizePhone(parse, phone, st.phone))
    ensures r.Ok? || r == Err(ValueError(NoPhone)) || r == Err(ValueError(NoPhoneCodeHash))
  {
    var p := NormalizePhone(parse, phone, st.phone);
    if p == "" then Err(ValueError(NoPhone))
    else
      var h := if Given(hash) then hash.value else if p in st.codeHashes then st.codeHashes[p] else "";
      if h == "" then Err(ValueError(NoPhoneCodeHash)) else Ok((p, h))
  }

  /** The ResendCode request for `p` with hash `h`; the returned hash replaces the cached one. */
  function ResendSpec(env: Env, st: ClientState, p: string, h: string): (r: Step<SentCode>)
    ensures r.st.log == st.log + [ResendCode(p, h)]
    ensures r.st == st.(log := r.st.log, codeHashes := r.st.codeHashes)
    ensures r.out.Ok? <==> env.server.sentCode(st.log + [ResendCode(p, h)]).Answer?
    ensures r.out.Ok? ==> r.out.value == env.server.sentCode(st.log + [ResendCode(p, h)]).value
    ensures r.out.Ok? ==> r.st.codeHashes == st.codeHashes[p := r.out.value.codeHash]
    ensures r.out.Err? ==> r.st.codeHashes == st.codeHashes
    ensures r.out.Err? ==> r.out.error == Rpc(env.server.sentCode(st.log + [ResendCode(p, h)]).rpc)
  {
    var st1 := Issue(st, ResendCode(p, h));
    match env.server.sentCode(st1.log)
    case Raised(e) => Step(st1, Err(Rpc(e)))
    case Answer(sent) => Step(st1.(codeHashes := st1.codeHashes[p := sent.codeHash]), Ok(sent))
  }

  /** `after` is `before` followed by one or more SendCode and ResendCode requests. */
  predicate CodeRequestsAppended(before: seq<Request>, after: seq<Request>) {
    && |after| > |before| && after[..|before|] == before
    && forall k :: |before| <= k < |after| ==> after[k].SendCode? || after[k].ResendCode?
  }

  /**
   * `send_code_request(phone, force_sms)`. With no usable hash cached for the
   * normalised phone it issues SendCode, caching the hash and the terms of
   * service, and on AuthRestart starts over (at most `fuel` times); with a
   * hash cached it resends instead; `forceSms` adds a resend after a send.
   * Whatever happens, the log only grows by SendCode and ResendCode requests,
   * only the entry of the final `_phone` changes in the cache, and on success
   * that entry is the returned hash.
   */
  function SendCodeSpec(env: Env, st: ClientState, phone: string, forceSms: bool, fuel: nat): (r: Step<SentCode>)
    decreases fuel
    ensures CodeRequestsAppended(st.log, r.st.log)
    ensures r.st == st.(phone := r.st.phone, codeHashes := r.st.codeHashes, tos := r.st.tos, log := r.st.log)
    ensures r.st.codeHashes - {r.st.phone} == st.codeHashes - {r.st.phone}
    ensures r.out.Ok? ==> r.st.phone in r.st.codeHashes && r.st.codeHashes[r.st.phone] == r.out.value.codeHash
    ensures r.out.Err? ==> r.out.error.Rpc?
  {
    var p := NormalizePhone(env.parsePhone, Some(phone), st.phone);
    if HasHash(st.codeHashes, p) then
      ResendSpec(env, st.(phone := p), p, st.codeHashes[p])
    else
      var st1 := Issue(st, SendCode(p, env.apiId, env.apiHash));
      match env.server.sentCode(st1.log)
      case Raised(AuthRestart) =>
        if fuel == 0 then Step(st1, Err(Rpc(AuthRestart)))
        else
          var r' := SendCodeSpec(env, st1, p, forceSms, fuel - 1);
          assert r'.st.log[..|st.log|] == r'.st.log[..|st1.log|][..|st.log|];
          r'
      case Raised(e) => Step(st1, Err(Rpc(e)))
      case Answer(sent) =>
        var st2 := st1.(phone := p, codeHashes := st1.codeHashes[p := sent.codeHash], tos := sent.tos);
        if forceSms then ResendSpec(env, st2, p, sent.codeHash) else Step(st2, Ok(sent))
  }

  /**
   * The cache decides the first request: a ResendCode with the cached hash
   * exactly when a usable hash is cached for the normalised phone, and a
   * SendCode for it otherwise.
   */
  lemma CachedHashDecidesRequest(env: Env, st: ClientState, phone: string, forceSms: bool, fuel: nat)
    ensures var p := NormalizePhone(env.parsePhone, Some(phone), st.phone);
      SendCodeSpec(env, st, phone, forceSms, fuel).st.log[|st.log|]
      == if HasHash(st.codeHashes, p) then ResendCode(p, st.codeHashes[p]) else SendCode(p, env.apiId, env.apiHash)
  {
    var p := NormalizePhone(env.parsePhone, Some(phone), st.phone);
    var r := SendCodeSpec(env, st, phone, forceSms, fuel);
    if !HasHash(st.codeHashes, p) {
      var st1 := Issue(st, SendCode(p, env.apiId, env.apiHash));
      assert r.st.log[|st.log|] == r.st.log[..|st1.log|][|st.log|];
    }
  }

  /** First request for a phone with no cached hash: exactly one SendCode, whose hash and terms are cached. */
  lemma FreshPhoneSendsCode(env: Env, st: ClientState, phone: string, fuel: nat, sent: SentCode)
    requires !HasHash(st.codeHashes, NormalizePhone(env.parsePhone, Some(phone), st.phone))
    requires env.server.sentCode(st.log + [SendCode(NormalizePhone(env.parsePhone, Some(phone), st.phone), env.apiId, env.apiHash)]) == Answer(sent)
    ensures var p := NormalizePhone(env.parsePhone, Some(phone), st.phone);
      SendCodeSpec(env, st, phone, false, fuel)
      == Step(st.(log := st.log + [SendCode(p, env.apiId, env.apiHash)], phone := p,
                  codeHashes := st.codeHashes[p := sent.codeHash], tos := sent.tos),
              Ok(sent))
  {
  }

  /** With a hash cached for the phone, the request is a ResendCode with that hash and never a SendCode. */
  lemma CachedPhoneResends(env: Env, st: ClientState, phone: string, forceSms: bool, fuel: nat)
    requires HasHash(st.codeHashes, NormalizePhone(env.parsePhone, Some(phone), st.phone))
    ensures var p := NormalizePhone(env.parsePhone, Some(phone), st.phone);
      var r := SendCodeSpec(env, st, phone, forceSms, fuel);
      && r.st.log == st.log + [ResendCode(p, st.codeHashes[p])]
      && r.st.phone == p
      && r.st.tos == st.tos
      && (var reply := env.server.sentCode(st.log + [ResendCode(p, st.codeHashes[p])]);
          && (r.out.Ok? <==> reply.Answer?)
          && (reply.Answer? ==> r.out == Ok(reply.value) && r.st.codeHashes == st.codeHashes[p := reply.value.codeHash])
          && (reply.Raised? ==> r.out == Err(Rpc(reply.rpc)) && r.st.codeHashes == st.codeHashes))
  {
  }

  /** `force_sms` on a fresh phone: SendCode, then ResendCode with the new hash, whose reply overwrites it. */
  lemma ForceSmsResendsAfterSend(env: Env, st: ClientState, phone: string, fuel: nat, sent: SentCode, resent: SentCode)
    requires var p := NormalizePhone(env.parsePhone, Some(phone), st.phone);
      && !HasHash(st.codeHashes, p)
      && env.server.sentCode(st.log + [SendCode(p, env.apiId, env.apiHash)]) == Answer(sent)
      && env.server.sentCode(st.log + [SendCode(p, env.apiId, env.apiHash), ResendCode(p, sent.codeHash)]) == Answer(resent)
    ensures var p := NormalizePhone(env.parsePhone, Some(phone), st.phone);
      SendCodeSpec(env, st, phone, true, fuel)
      == Step(st.(log := st.log + [SendCode(p, env.apiId, env.apiHash), ResendCode(p, sent.codeHash)], phone := p,
                  codeHashes := st.codeHashes[p := resent.codeHash], tos := sent.tos),
              Ok(resent))
  {
    var p := NormalizePhone(env.parsePhone, Some(phone), st.phone);
    assert st.log + [SendCode(p, env.apiId, env.apiHash)] + [ResendCode(p, sent.codeHash)]
        == st.log + [SendCode(p, env.apiId, env.apiHash), ResendCode(p, sent.codeHash)];
  }

  /**
   * Two requests in a row for an unseen phone: the first sends a code, the
   * second resends it with the hash the first one cached.
   */
  lemma SecondRequestResends(env: Env, st: ClientState, phone: string, fuel: nat, sent: SentCode)
    requires !HasHash(st.codeHashes, NormalizePhone(env.parsePhone, Some(phone), st.phone))
    requires env.server.sentCode(st.log + [SendCode(NormalizePhone(env.parsePhone, Some(phone), st.phone), env.apiId, env.apiHash)]) == Answer(sent)
    requires sent.codeHash != ""
    ensures var p := NormalizePhone(env.parsePhone, Some(phone), st.phone);
      var first := SendCodeSpec(env, st, phone, false, fuel);
      var second := SendCodeSpec(env, first.st, phone, false, fuel);
      && first.st.log == st.log + [SendCode(p, env.apiId, env.apiHash)]
      && second.st.log == first.st.log + [ResendCode(p, sent.codeHash)]
  {
    var p := NormalizePhone(env.parsePhone, Some(phone), st.phone);
    FreshPhoneSendsCode(env, st, phone, fuel, sent);
    var first := SendCodeSpec(env, st, phone, false, fuel);
    assert first.st.phone == p;
    assert NormalizePhone(env.parsePhone, Some(phone), first.st.phone) == p;
    CachedPhoneResends(env, first.st, phone, false, fuel);
  }

  /** An AuthRestart reply resubmits the request for the normalised phone with one restart fewer. */
  lemma RestartResubmits(env: Env, st: ClientState, phone: string, forceSms: bool, fuel: nat)
    requires var p := NormalizePhone(env.parsePhone, Some(phone), st.phone);
      && !HasHash(st.codeHashes, p)
      && env.server.sentCode(st.log + [SendCode(p, env.apiId, env.apiHash)]) == Raised(AuthRestart)
    ensures var p := NormalizePhone(env.parsePhone, Some(phone), st.phone);
      var st1 := Issue(st, SendCode(p, env.apiId, env.apiHash));
      SendCodeSpec(env, st, phone, forceSms, fuel)
      == if fuel == 0 then Step(st1, Err(Rpc(AuthRestart))) else SendCodeSpec(env, st1, p, forceSms, fuel - 1)
  {
  }
}
