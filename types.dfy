/**
 * Values exchanged by the authentication methods of the client:
 * the remote calls they issue, the replies they expect, the errors they
 * raise and the part of the client's state they read and write.
 */
module AuthTypes {

  datatype Option<+T> = None | Some(value: T)

  datatype Result<+T, +E> = Ok(value: T) | Err(error: E)

  newtype byte = x: int | 0 <= x < 256

  /** A string argument that the source tests for truthiness: present and not empty. */
  predicate Given(o: Option<string>) {
    o.Some? && o.value != ""
  }

  /** Terms of service attached to a sent code (`help.TermsOfService`). */
  datatype Tos = Tos(id: string, text: string)

  /** Reply to SendCode and ResendCode (`auth.SentCode`). */
  datatype SentCode = SentCode(phoneRegistered: bool, codeHash: string, tos: Option<Tos>)

  /** A user as returned by an authorization; `bot` is an optional flag. */
  datatype User = User(id: int, bot: Option<bool>)

  /** The input peer derived from a user; its content is opaque here. */
  datatype Peer = Peer(userId: int, accessHash: int)

  /** Key-derivation parameters of a 2FA password; only `salt1` is touched. */
  datatype KdfAlgo = KdfAlgo(salt1: seq<byte>, salt2: seq<byte>, g: int, p: seq<byte>)

  /** Reply to GetPassword (`account.Password`). */
  datatype PasswordInfo = PasswordInfo(hasPassword: bool, currentAlgo: KdfAlgo, newAlgo: KdfAlgo, hint: string)

  /** Proof of the current password: the empty sentinel or an SRP proof. */
  datatype PasswordCheck = CheckEmpty | CheckSrp(proof: seq<byte>)

  /** Every remote call the methods can issue, as it appears in the RPC log. */
  datatype Request =
    | SendCode(phone: string, apiId: int, apiHash: string)
    | ResendCode(phone: string, codeHash: string)
    | SignIn(phone: string, codeHash: string, code: string)
    | SignUp(phone: string, codeHash: string, code: string, firstName: string, lastName: string)
    | ImportBotAuthorization(botToken: string, apiId: int, apiHash: string)
    | GetPassword
    | CheckPassword(check: PasswordCheck)
    | UpdatePasswordSettings(check: PasswordCheck, newAlgo: KdfAlgo, newHash: seq<byte>, hint: string, email: Option<string>)
    | ConfirmPasswordEmail(code: string)
    | LogOut
    | AcceptTermsOfService(id: string)
    | GetSelf   // the users.GetUsers([InputUserSelf]) call behind get_me

  /** Errors the remote side reports, by class. */
  datatype RpcError =
    | PhoneCodeEmpty
    | PhoneCodeExpired
    | PhoneCodeHashEmpty
    | PhoneCodeInvalid
    | SessionPasswordNeeded
    | PhoneNumberOccupied
    | PhoneNumberUnoccupied
    | PasswordHashInvalid
    | AuthRestart
    | EmailUnconfirmed(codeLength: int)
    | OtherRpcError(name: string)

  /** The distinct `ValueError`s the methods raise. */
  datatype ValueErrorKind =
    | CodeCallbackNotCallable  // code_callback given but not callable
    | NoPhoneOrToken           // neither phone nor bot token
    | PhoneAndToken            // a fixed phone together with a bot token
    | PasswordMissing          // 2FA required but no password
    | NoPhone                  // no phone given and none cached
    | NoPhoneCodeHash          // no hash given and none cached for the phone
    | NoCredentials            // sign_in called with nothing usable
    | EmailWithoutCallback     // email given without a callable email_code_callback

  /** What a method can raise. */
  datatype Error =
    | ValueError(kind: ValueErrorKind)
    | TooManyAttempts(maxAttempts: int)  // the RuntimeError of the code loop
    | Rpc(rpc: RpcError)                 // an RPC error raised or re-raised
    | NotCallable                        // calling a callback that is not callable
    | CallbackFailed                     // a user callback had no more values to give

  /** The errors `sign_in`, `sign_up` and `send_code_request` can raise: RPC errors and ValueErrors. */
  predicate CallError(e: Error) {
    e.Rpc? || e.ValueError?
  }

  datatype Reply<+T> = Answer(value: T) | Raised(rpc: RpcError)

  /**
   * The remote service: for each kind of reply, a function from the RPC log
   * (ending with the request being answered) to that reply.
   */
  datatype Server = Server(
    sentCode: seq<Request> -> Reply<SentCode>,       // SendCode, ResendCode
    authorization: seq<Request> -> Reply<User>,      // SignIn, SignUp, ImportBotAuthorization, CheckPassword
    password: seq<Request> -> Reply<PasswordInfo>,   // GetPassword
    done: seq<Request> -> Reply<()>,                 // UpdatePasswordSettings, ConfirmPasswordEmail, LogOut, AcceptTermsOfService
    self: seq<Request> -> Reply<Option<User>>,       // GetSelf
    authorized: seq<Request> -> bool)                // is_user_authorized, not an RPC of this model

  /** Everything the methods consume but do not define. */
  datatype Env = Env(
    server: Server,
    apiId: int,
    apiHash: string,
    parsePhone: string -> Option<string>,               // utils.parse_phone
    inputPeer: User -> Peer,                            // utils.get_input_peer(user, allow_self=False)
    computeCheck: (PasswordInfo, string) -> seq<byte>,  // password.compute_check
    computeDigest: (KdfAlgo, string) -> seq<byte>,      // password.compute_digest
    restartFuel: nat)                                   // how many AuthRestart replies a code request resubmits

  /**
   * The client fields the methods read and write. `phone` is "" while no
   * phone is cached (Python None). The three counters record how many times
   * the state cache was reset, the client disconnected and the session was deleted.
   */
  datatype ClientState = ClientState(
    phone: string,
    codeHashes: map<string, string>,
    tos: Option<Tos>,
    bot: Option<bool>,
    selfPeer: Option<Peer>,
    authorized: Option<bool>,
    log: seq<Request>,
    stateResets: nat,
    disconnects: nat,
    sessionDeletes: nat)

  /** The state after an operation together with what it returned or raised. */
  datatype Step<+T> = Step(st: ClientState, out: Result<T, Error>)

  /** The state after issuing `req`: the request is appended to the RPC log. */
  function Issue(st: ClientState, req: Request): ClientState {
    st.(log := st.log + [req])
  }
}
