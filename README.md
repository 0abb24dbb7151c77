# Telethon authentication, modelled in Dafny

This project models the authentication methods of Telethon's client
(`telethon/client/auth.py`):
- the interactive `start` / `_start` flow, with its phone callback loop, its code loop that switches between sign-in and sign-up, and its two-step password loop;
- `sign_in`, `sign_up` and `_on_login`;
- `send_code_request` and the per-phone cache of code hashes;
- `_parse_phone_and_hash`;
- `log_out`;
- `edit_2fa`.

The client is the class `Client.AuthClient`. Its fields are the ones these methods read and write:
- `_phone`;
- `_phone_code_hash`;
- `_tos`;
- `_bot`;
- `_self_input_peer`;
- `_authorized`;
- counters for the state-cache reset, the disconnect and the session deletion;
- the log of every remote call issued, in order.

The remote service is a value of type `Server`. For each kind of reply it holds a function from the request log to a reply or an RPC error. A reply can therefore depend on everything asked before.

Each method of `AuthClient` is proved to leave the client in exactly the state, and to return exactly the result, of a pure specification function. Most of them follow the function named after them with `Spec` appended (`SignIn` follows `Login.SignInSpec`); the header of `client.dfy` lists the others. These functions live in five modules:
- `CodeRequest`;
- `Login`;
- `TwoFactor`;
- `StartRules`, the retry machine of the two loops of `_start` over the outcomes of their passes;
- `Interactive`, which runs `start` against the server: each pass of the code loop calls `sign_up` or `sign_in` on the state the previous pass left, with the `sign_up` flag the previous passes left.

The properties of those functions are proved as `ensures` clauses and lemmas.

Python's falsy values are kept:
- an unset `_phone` or bot token is the empty string;
- optional arguments are `Option<string>`;
- `Given` is the truthiness test (present and non-empty).

A callback (phone, code, password) is given as the finite sequence of values it returns. Asking it once more fails with `CallbackFailed`.

One edge case the model makes visible:
- An empty string from a password callback does not count as a wrong password.
- That is because `sign_in(phone=phone, password="")` takes the code-request branch: see `Login.EmptyPasswordRequestsCode`.
- So, for a phone whose code hash is cached, that pass is one ResendCode, and the password phase of `_start` ends on it without logging in. It ends normally when the resend is answered, and raises the resend's error when it raises one: see `Interactive.EmptyPasswordEndsPhase`.

## Model

| member | source | states |
|---|---|---|
| CodeRequest.NormalizePhone | telethon/client/auth.py:395 | when the argument parses to a non-empty phone, the phone is that parse; otherwise it is the cached `_phone` |
| CodeRequest.ParsePhoneAndHash | telethon/client/auth.py:224-238 | on success the phone is the normalised one, both values are non-empty, an explicit hash wins, and a cached hash is the one stored for that phone; the "no phone" error happens exactly when the normalised phone is empty; the "no hash" error happens exactly when neither argument nor cache gives a hash; there is no other outcome |
| CodeRequest.ResendSpec | telethon/client/auth.py:412-416 | exactly one ResendCode is issued; only the log and the cache change; it succeeds exactly when the server answers that request, returns the answer, and caches its hash for the phone; otherwise the server's RPC error is returned and the cache is unchanged |
| CodeRequest.SendCodeSpec | telethon/client/auth.py:394-418 | the log grows only by SendCode/ResendCode; only `_phone`, the cache, `_tos` and the log change; cache entries of other phones are untouched; on success the entry of the final `_phone` is the returned hash; every error is an RPC error |
| CodeRequest.CachedHashDecidesRequest | telethon/client/auth.py:396-410 | the first request is a ResendCode with the cached hash exactly when a non-empty hash is cached for the normalised phone (`HasHash`), and a SendCode for that phone otherwise |
| CodeRequest.FreshPhoneSendsCode | telethon/client/auth.py:398-410 | with no usable cached hash, exactly one SendCode is issued, and `_phone`, the hash and the terms of service are stored |
| CodeRequest.CachedPhoneResends | telethon/client/auth.py:396-416 | with a non-empty cached hash, SendCode is never issued; one ResendCode with that hash is issued whatever `force_sms` says, and `_tos` is unchanged; the result is the server's answer to that ResendCode, whose hash replaces the cached one, or its RPC error, with the cache unchanged |
| CodeRequest.ForceSmsResendsAfterSend | telethon/client/auth.py:398-416 | `force_sms` on a fresh phone: SendCode, then ResendCode with the new hash; the resend's hash is the one cached |
| CodeRequest.SecondRequestResends | telethon/client/auth.py:396-416 | two requests in a row for an unseen phone: the second one resends with the hash the first one cached |
| CodeRequest.RestartResubmits | telethon/client/auth.py:399-403 | an AuthRestart reply resubmits the request for the normalised phone |
| Login.OnLoginSpec | telethon/client/auth.py:368-378 | `_bot` is the truth value of `user.bot`, `_self_input_peer` is the user's input peer, `_authorized` is true, nothing else changes |
| Login.OnLoginIdempotent | telethon/client/auth.py:368-378 | committing the same user twice equals committing it once |
| Login.LogOutSpec | telethon/client/auth.py:420-439 | the result is true exactly when LogOut is answered; on failure only the log changes; on success the login fields are cleared and the cache reset, the disconnect and the session deletion each happen once |
| Login.LoginAfterLogOut | telethon/client/auth.py:368-439 | a login after a successful log-out sets exactly the new user's flags and keeps the one state-cache reset |
| Login.Route | telethon/client/auth.py:279-302 | each branch of `sign_in` is taken exactly when its truthiness condition holds, in source order |
| Login.GetMeSpec | telethon/client/auth.py:275 | `get_me` issues exactly one GetSelf request; every error is an RPC error or a ValueError |
| Login.AuthorizeSpec | telethon/client/auth.py:287-305 | one request; it succeeds exactly when the server answers with a user, who is then committed by `_on_login`; otherwise the RPC error propagates and only the log changes; every error is an RPC error or a ValueError |
| Login.PasswordSignInSpec | telethon/client/auth.py:289-293 | GetPassword comes first, and its error propagates; otherwise CheckPassword carries the SRP proof over the returned descriptor; every error is an RPC error or a ValueError |
| Login.DispatchSpec | telethon/client/auth.py:279-305 | the branch taken after an empty `get_me` only appends to the log and never resets, disconnects or deletes; every error is an RPC error or a ValueError |
| Login.SignInSpec | telethon/client/auth.py:275-305 | `sign_in` starts with GetSelf and never resets, disconnects or deletes; every error is an RPC error or a ValueError |
| Login.SignInWhenLoggedIn | telethon/client/auth.py:275-277 | with a user logged in, `sign_in` returns that user after the one GetSelf and changes nothing else |
| Login.SignInDispatch | telethon/client/auth.py:279-302 | with nobody logged in, the request after GetSelf is the one of the chosen branch; an unparsable phone or hash, or no credentials, give the ValueError with no further request |
| Login.EmptyPasswordRequestsCode | telethon/client/auth.py:279-280 | a phone with an empty password requests a code; a success is a SentCode and leaves `_authorized` and `_bot` unchanged |
| Login.SignInCommitsLogin | telethon/client/auth.py:281-305 | a successful code, password or bot-token sign-in returns the user and commits it through `_on_login` |
| Login.SignUpSpec | telethon/client/auth.py:339-366 | `sign_up` starts with GetSelf and never changes `_phone`, the hash cache or `_tos`; every error is an RPC error or a ValueError |
| Login.SignUpAcceptsCachedTerms | telethon/client/auth.py:351-366 | SignUp carries the parsed phone and hash; AcceptTermsOfService follows exactly when terms are cached; a success returns the new user and sets `_authorized` |
| TwoFactor.PlanChange | telethon/client/auth.py:493-507 | `salt1` is extended by the random bytes; the SRP proof is used exactly when the account has a password and a current password is given, and is computed over the refreshed descriptor; the new hash is the digest of the new password, or empty |
| TwoFactor.CurrentIgnoredWithoutPassword | telethon/client/auth.py:495-496 | without a password on the account, the current password has no effect |
| TwoFactor.UpdateSettingsSpec | telethon/client/auth.py:509-528 | the first request is UpdatePasswordSettings carrying the plan; only the log changes; a success returns true |
| TwoFactor.Edit2faSpec | telethon/client/auth.py:486-528 | only the log changes; the result is false exactly when both passwords are omitted; the ValueError happens exactly when an email has no callback; no request is made exactly in those two cases |
| TwoFactor.Edit2faRequests | telethon/client/auth.py:492-528 | GetPassword, then UpdatePasswordSettings with the planned proof, the salt extended by 32 bytes and the planned digest; on success nothing else happens; on EmailUnconfirmed exactly one ConfirmPasswordEmail follows, carrying the callback's answer to the code length |
| StartRules.ValidateStart | telethon/client/auth.py:87-101 | each of the three ValueErrors happens exactly under its condition; arguments are accepted exactly when the code callback is callable and the phone is callable or exactly one of phone and bot token is given |
| StartRules.FirstUsable | telethon/client/auth.py:127-139 | the phone callback's answers are read in order from `from`; every answer before the one used was neither a bot token nor a parsable phone; the first answer containing ':' is the bot token and ends the loop; otherwise the first one that parses to a non-empty phone gives that phone; running out of answers fails only when none was usable |
| StartRules.CallbackFailsWhenAllUnusable | telethon/client/auth.py:129-139 | the phone callback loop fails exactly when every remaining answer is `Unusable`: it has no ':' and does not parse to a non-empty phone |
| StartRules.ClassifyCode | telethon/client/auth.py:152-180 | exactly one outcome per error class: the password signal, the two occupancy errors, the four bad-code errors, success, or an escaping error carried unchanged |
| StartRules.CodeStep | telethon/client/auth.py:151-182 | one pass: once the loop is left nothing changes; a pass is counted exactly when it failed (occupancy or bad code); the loop is left with success on Accepted, for the password phase on SessionPasswordNeeded, and with the error on an escaping one; `sign_up` changes only on an occupancy error, to true exactly on PhoneNumberUnoccupied |
| StartRules.CodeRun | telethon/client/auth.py:151-182 | the loop variables after a sequence of passes: a loop already left stays as it is, and each pass adds at most one attempt |
| StartRules.CodeRunCons | telethon/client/auth.py:151-182 | running one pass and then the rest is running them all |
| StartRules.CodeRunPrefixCons | telethon/client/auth.py:151-182 | the loop variables after the first k + 1 passes of a run starting with pass `a` are those after `a` followed by the first k passes of the rest |
| StartRules.CodeOutcome | telethon/client/auth.py:183-189 | how the loop's end decides what follows: success exactly when signed in, the password phase exactly on SessionPasswordNeeded, the RuntimeError exactly when the loop is still trying, which happens only once the budget is used up, or when that same error escaped a pass; otherwise the escaped error |
| StartRules.CodeRunEnds | telethon/client/auth.py:151-187 | for a run that stopped where the loop test stops it: still trying exactly after `max_attempts` failed passes (none when that is not positive); signed in, password phase or aborted exactly when the last pass was a success, SessionPasswordNeeded or an escaping error; every pass before the last failed, and there are at most `max_attempts` passes |
| StartRules.EachFailureCountsOnce | telethon/client/auth.py:151-182 | after only failed attempts the loop is still running and `attempts` equals their number |
| StartRules.SignUpFollowsLastOccupancy | telethon/client/auth.py:150-175 | `sign_up` is decided by the last occupancy error, and without one it keeps `not phone_registered` |
| StartRules.ExhaustedAfterMaxFailures | telethon/client/auth.py:151-187 | `max_attempts` failures are each allowed by the loop test; after them the loop ends with the RuntimeError |
| StartRules.SucceedsAfterFewerFailures | telethon/client/auth.py:151-170 | after `max_attempts - 1` failures one more attempt is allowed, and its success ends the loop signed in |
| StartRules.PasswordNeededIsFree | telethon/client/auth.py:170-172 | SessionPasswordNeeded leaves the loop for the password phase without counting an attempt |
| StartRules.StillTryingMeansAllFailed | telethon/client/auth.py:151-182 | a loop still running has only failed attempts, and `attempts` equals their number |
| StartRules.ClassifyPassword | telethon/client/auth.py:198-207 | only PasswordHashInvalid is caught; success, or any other error passed on unchanged |
| StartRules.PasswordOutcome | telethon/client/auth.py:196-209 | the password phase succeeds exactly when its last pass was accepted; no pass, or a last invalid password, is PasswordHashInvalid; an error that escaped the last pass is raised unchanged |
| StartRules.PasswordRunEndedWhen | telethon/client/auth.py:197-209 | `for _ in range(max_attempts)` with `break`: passes that are all invalid passwords but the last, at most `max_attempts` of them, and either the range used up or a last pass that was not an invalid password, form a finished loop |
| StartRules.PasswordRunEndedOnlyWhen | telethon/client/auth.py:197-209 | the converse: a finished loop (`PasswordRunEnded`, the loop test `PasswordContinues` held before each pass and fails after the last) had only invalid passwords before its last pass, at most `max_attempts` passes, and either used up the range or ended on a pass that was not an invalid password |
| StartRules.PasswordRunBudget | telethon/client/auth.py:196-209 | a finished callable-password loop makes at most `max_attempts` passes; it raises PasswordHashInvalid after only invalid passwords exactly when it used all `max_attempts`; it succeeds exactly when the last password was accepted |
| Interactive.CodePass | telethon/client/auth.py:152-182 | pass j of the code loop: the callback running dry escapes without a request; an empty code is a bad code without a request; otherwise the state is that of `sign_up(code, first_name, last_name)` when the flag is set and of `sign_in(phone, code=code)` when it is not, starting with GetSelf, and the outcome is that call's result, classified; an escaping error comes from a call or the callback; the log only grows |
| Interactive.CodePassRequest | telethon/client/auth.py:163-167 | with nobody logged in and the phone and hash resolving, the request after GetSelf is SignUp with the code and names when `sign_up` is set and SignIn of the phone with the code when it is not |
| Interactive.CodeLoopRun | telethon/client/auth.py:151-182 | the loop from given loop variables: its end is the fold `CodeRun` of its passes, the loop test fails there, and the states before and after each pass are recorded |
| Interactive.CodeLoopTested | telethon/client/auth.py:151 | the loop test `Continues` (`attempts < max_attempts` and the loop not left) held before every pass |
| Interactive.CodePassesShift | telethon/client/auth.py:151-182 | a first pass followed by passes that each follow the loop's pass function gives passes that each follow it |
| Interactive.CodeLoopTracks | telethon/client/auth.py:151-182 | the loop variables recorded before each pass are the ones `CodeRun` gives after the passes before it, i.e. the `sign_up` flag and attempt counter those passes left |
| Interactive.CodeLoopPasses | telethon/client/auth.py:151-182 | every pass is the loop's pass function at its index, on the state the pass before it left and with the `sign_up` flag of the loop variables recorded before it |
| Interactive.CodeLoopBegin | telethon/client/auth.py:145-151 | before the first pass, the loop agrees with its whole run |
| Interactive.CodeLoopAdvance | telethon/client/auth.py:151-182 | one more pass, from the state before it, keeps the loop in agreement with its whole run |
| Interactive.CodeLoopDone | telethon/client/auth.py:151 | when the loop test fails, the loop has reached the end of its whole run: same state, loop variables and passes |
| Interactive.CodeLoopSpec | telethon/client/auth.py:145-182 | the code loop from `attempts = 0` and the given `sign_up`: its end is the fold of its passes and the loop test fails there |
| Interactive.CodeLoopFollowsReplies | telethon/client/auth.py:151-182 | pass k of the loop is `CodePass` with the k-th code, on the state passes 0..k-1 left and with the `sign_up` flag they left; the loop test held before every pass; the log only grows |
| Interactive.CodeLoopEnds | telethon/client/auth.py:151-187 | still trying exactly after `max_attempts` failed passes (none when that is not positive); signed in, password phase or aborted exactly when the last pass succeeded, needed the password or raised; every pass before the last failed, at most `max_attempts` passes; an abort comes from a call or the callback |
| Interactive.CodeLoopCallback | telethon/client/auth.py:153-161 | at most one pass per code plus the failing call, which ends the loop with the callback's failure; an empty code is a bad-code pass |
| Interactive.CodeLoopKeepsTrying | telethon/client/auth.py:151-182 | after fewer than `max_attempts` failed passes the loop always makes another pass |
| Interactive.PasswordPass | telethon/client/auth.py:199-207 | pass j of the password loop: the callback running dry escapes without a request; otherwise `sign_in(phone=phone, password=answer)`, starting with GetSelf, classified; an escaping error comes from a call or the callback; the log only grows |
| Interactive.PasswordLoopRun | telethon/client/auth.py:197-209 | `for _ in range(max_attempts)` from index i: every pass but the last was an invalid password, there are at most `max_attempts - i` passes, and either the range is used up or the last pass was not an invalid password |
| Interactive.PasswordLoopBegin | telethon/client/auth.py:197 | before the first pass, the password loop agrees with its whole run |
| Interactive.PasswordLoopAdvance | telethon/client/auth.py:197-207 | one more pass: an invalid password keeps the loop in agreement with its whole run, anything else is the end of the run |
| Interactive.PasswordLoopDone | telethon/client/auth.py:197-209 | when the range is used up, the loop has reached the end of its whole run |
| Interactive.PasswordPassesShift | telethon/client/auth.py:197-207 | a first pass followed by passes that each follow the pass function gives passes that each follow it |
| Interactive.PasswordLoopPasses | telethon/client/auth.py:197-207 | every pass of the password loop is the pass function at its index on the state the passes before it left |
| Interactive.PasswordPhaseSpec | telethon/client/auth.py:189-211 | a missing password (`PasswordGiven` false, the `if not password` test) is the ValueError with no change; otherwise the result is `PasswordOutcome` of the passes; a callable password runs a finished loop; a fixed one is one `sign_in(phone=phone, password=password)`, whose state is the phase's state and whose success is the phase's success |
| Interactive.EmptyPasswordEndsPhase | telethon/client/auth.py:196-209 | with no user logged in and a hash cached for the phone, a callback answering `""` makes one pass: GetSelf then one ResendCode, with the login flags unchanged; the phase returns normally when the resend is answered and raises its error otherwise (unless that error is PasswordHashInvalid) |
| Interactive.PasswordPhaseFollowsReplies | telethon/client/auth.py:196-211 | for a callable password, pass k is `sign_in` with the k-th answer on the state the passes before it left, with at most one pass per answer plus the failing call; every error comes from a call or a callback; the log only grows |
| Interactive.CodeThenPasswordSpec | telethon/client/auth.py:145-211 | the code loop with `sign_up` starting at the given flag runs, and its passes are reported |
| Interactive.CodeThenPasswordOutcome | telethon/client/auth.py:151-211 | the loop test held before each pass and fails after the last; a last pass that signed in returns normally after only failed passes, at most `max_attempts` of them, with no password pass; SessionPasswordNeeded gives exactly the password phase on the state the loop left; an escaping error is raised |
| Interactive.CodeThenPasswordLastChance | telethon/client/auth.py:151-187 | after `max_attempts - 1` failed passes one more pass is made, and when it signs in `_start` returns normally |
| Interactive.CodeThenPasswordErrors | telethon/client/auth.py:151-211 | the RuntimeError is raised exactly after `max_attempts` failed passes (none when that is not positive); every other error comes from a call or a callback |
| Interactive.CodeThenPasswordLog | telethon/client/auth.py:145-211 | after the code was sent, `_start` only appends to the request log |
| Interactive.Resolve | telethon/client/auth.py:127-143 | a bot token wins; a fixed phone is used as given; a callable phone is asked until it gives a bot token (containing ':') or a parsable phone, and fails only when every answer was unusable |
| Interactive.StartFlowSpec | telethon/client/auth.py:118-211 | already authorized: success, no change, no loop; the code loop runs exactly when not authorized, the phone resolved and the code request succeeded, with `sign_up = not phone_registered`, and then `_start` is the code loop and the password phase on the state the request left; the bot path has the state of `sign_in(bot_token=token)` and succeeds exactly when it does, raising its error otherwise |
| Interactive.StartFlowRuntimeError | telethon/client/auth.py:118-211 | the RuntimeError exactly when the code loop ran and made `max_attempts` failed passes; every other error comes from a call or a callback; the log only grows |
| Interactive.StartSpec | telethon/client/auth.py:87-116 | a rejected argument combination raises its ValueError with no change; otherwise `start` is `_start` with the code callback's answers |
| Interactive.StartRuntimeError | telethon/client/auth.py:87-211 | the RuntimeError exactly when the code loop ran and made `max_attempts` failed passes; the code loop only runs with a callable code source; the log only grows |
| Client.AuthClient.OnLogin | telethon/client/auth.py:368-378 | the method leaves the state `Login.OnLoginSpec` prescribes and returns the user |
| Client.AuthClient.LogOut | telethon/client/auth.py:420-439 | state and result are those of `Login.LogOutSpec` |
| Client.AuthClient.SendCodeRequest | telethon/client/auth.py:380-418 | state and result are those of `CodeRequest.SendCodeSpec` |
| Client.AuthClient.Resend | telethon/client/auth.py:412-416 | state and result are those of `CodeRequest.ResendSpec` |
| Client.AuthClient.GetMe | telethon/client/auth.py:275 | state and result are those of `Login.GetMeSpec` |
| Client.AuthClient.Authorize | telethon/client/auth.py:287-305 | state and result are those of `Login.AuthorizeSpec` |
| Client.AuthClient.PasswordSignIn | telethon/client/auth.py:289-293 | state and result are those of `Login.PasswordSignInSpec` |
| Client.AuthClient.SignIn | telethon/client/auth.py:240-305 | state and result are those of `Login.SignInSpec` |
| Client.AuthClient.Dispatch | telethon/client/auth.py:279-305 | state and result are those of `Login.DispatchSpec` |
| Client.AuthClient.SignUp | telethon/client/auth.py:307-366 | state and result are those of `Login.SignUpSpec` |
| Client.AuthClient.Edit2fa | telethon/client/auth.py:441-528 | state and result are those of `TwoFactor.Edit2faSpec` |
| Client.AuthClient.Plan | telethon/client/auth.py:493-507 | the change built in place equals `TwoFactor.PlanChange` |
| Client.AuthClient.UpdateSettings | telethon/client/auth.py:509-526 | state and result are those of `TwoFactor.UpdateSettingsSpec` |
| Client.AuthClient.ResolvePhone | telethon/client/auth.py:127-139 | the phone callback loop in place: the resolution and the number of answers used are those of `StartRules.FirstUsable` from the first answer |
| Client.AuthClient.CodeAttempt | telethon/client/auth.py:152-182 | state and outcome are those of `Interactive.CodePass` |
| Client.AuthClient.CodePhase | telethon/client/auth.py:145-182 | state, loop variables and passes are those of `Interactive.CodeLoopSpec` |
| Client.AuthClient.PasswordAttemptAt | telethon/client/auth.py:199-207 | state and outcome are those of `Interactive.PasswordPass` |
| Client.AuthClient.PasswordLoop | telethon/client/auth.py:197-209 | state and passes are those of `Interactive.PasswordLoopRun` from the first pass |
| Client.AuthClient.PasswordPhase | telethon/client/auth.py:189-211 | state, result and passes are those of `Interactive.PasswordPhaseSpec` |
| Client.AuthClient.CodeThenPassword | telethon/client/auth.py:145-211 | state, result and passes are those of `Interactive.CodeThenPasswordSpec` |
| Client.AuthClient.StartFlow | telethon/client/auth.py:118-211 | state, result, whether the code loop ran, its initial `sign_up` flag and the passes of both loops are those of `Interactive.StartFlowSpec` |
| Client.AuthClient.Start | telethon/client/auth.py:87-116 | state, result, whether the code loop ran, its initial `sign_up` flag and the passes of both loops are those of `Interactive.StartSpec` |

## Left out

- Connection handling (`is_connected`/`connect`, `telethon/client/auth.py:121-122`) and the transport: each remote call is one entry in the request log, and the `Server` functions give its reply.
- `is_user_authorized` and `get_me`: `telethon/client/users.py` is not part of this model. `is_user_authorized` is the environment query `Server.authorized` on the log. `get_me` is one logged GetSelf request; its own caching of the self input peer is not modelled.
- `utils.parse_phone`, `utils.get_input_peer` and `password.compute_check`/`compute_digest` (SRP arithmetic): these are functions of the environment `Env`, not defined here.
- `os.urandom(32)` is the parameter `randomBytes` of `Edit2fa`.
- asyncio: awaiting a callback's value, and `start` returning a coroutine or running it. The model returns the result directly; `_start`'s return value `self` becomes `()`.
- Console output: the "Invalid code"/"Invalid password" messages, the terms-of-service text that `sign_up` prints (with `parse_mode.unparse`), and the final "Signed in successfully" line with its UnicodeEncodeError fallback.
- The default `code_callback` that reads the console: every code callback is given as the values it returns.
- Integer phones and codes and `str(code)`: phones and codes are strings.
- The `isinstance` assertion on the GetPassword reply (`telethon/client/auth.py:494`): the reply type already guarantees it.
- CodeRequest.SendCodeSpec: the AuthRestart resubmission is unbounded in the source; here it happens at most `Env.restartFuel` times, and then AuthRestart propagates.
- Client.AuthClient.SendCodeRequest: the same bound on AuthRestart resubmissions, through its `fuel` argument.
- Client.AuthClient.ResolvePhone: a callback always answers in the source; here it runs out after its given values, which the model reports as `CallbackFailed`. The same holds for the code and password callbacks. The email callback of `edit_2fa` is instead a total function of the code length, so it never runs out.
- Login.GetMeSpec: states the request it issues, not the reply it returns.
