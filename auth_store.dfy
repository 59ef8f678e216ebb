/**
 * The frontend session store (`useAuthStore`): the token and user, kept in
 * the store and in the browser's local storage, a loading flag, and the
 * messages shown after a failed login or registration. The API replies are
 * parameters.
 */
module AuthStore {
  import opened Common
  import opened Entities
  import opened Http
  import AuthController

  /**
   * How a login or registration request settles: with a session, rejected
   * with a response whose body may carry an error `code`, or rejected with
   * no response at all (the server was not reached).
   */
  datatype AuthReply = Authenticated(session: AuthController.Session) | Refused(code: Option<ErrorCode>) | NoResponse

  /** How an action ends for its caller: resolved, rethrowing the request's error, or throwing a TypeError of its own. */
  datatype Settled = Resolved | Rethrows | ThrowsTypeError

  const LoginDefault := "Erro ao fazer login"
  const WrongCredentials := "Email ou senha incorretos."
  const FillAllFields := "Por favor, preencha todos os campos obrigatórios."

  const RegisterDefault := "Erro ao criar conta. Tente novamente."
  const PasswordTooShort := "A senha deve ter pelo menos 8 caracteres."
  const InvalidEmail := "Por favor, insira um email válido."
  const AccountExists := "Uma conta com este email já existe."

  /** The login failure message for the error code of the response. */
  function LoginMessage(code: Option<ErrorCode>): (r: string)
    ensures r == WrongCredentials <==> code == Some(INVALID_CREDENTIALS)
    ensures r == FillAllFields <==> code == Some(MISSING_FIELDS)
    ensures r == LoginDefault <==> code != Some(INVALID_CREDENTIALS) && code != Some(MISSING_FIELDS)
  {
    if code == Some(INVALID_CREDENTIALS) then WrongCredentials
    else if code == Some(MISSING_FIELDS) then FillAllFields
    else LoginDefault
  }

  /** `errorMessages[errorCode] || default`: the registration failure message for the error code. */
  function RegisterMessage(code: Option<ErrorCode>): (r: string)
    ensures r == FillAllFields <==> code == Some(MISSING_FIELDS)
    ensures r == PasswordTooShort <==> code == Some(PASSWORD_TOO_SHORT)
    ensures r == InvalidEmail <==> code == Some(INVALID_EMAIL)
    ensures r == AccountExists <==> code == Some(USER_ALREADY_EXISTS)
    ensures r == RegisterDefault <==>
      !(code.Some? && code.value in {MISSING_FIELDS, PASSWORD_TOO_SHORT, INVALID_EMAIL, USER_ALREADY_EXISTS})
  {
    match code
    case Some(MISSING_FIELDS) => FillAllFields
    case Some(PASSWORD_TOO_SHORT) => PasswordTooShort
    case Some(INVALID_EMAIL) => InvalidEmail
    case Some(USER_ALREADY_EXISTS) => AccountExists
    case _ => RegisterDefault
  }

  /** What the `catch` of `login` produces: a message, or a TypeError of its own. */
  datatype CatchResult = Caught(message: string) | Crashes

  /**
   * The `catch` of `login` as written: it reads `error.response.data.code`
   * without optional chaining, so a rejection without a response throws a
   * TypeError before any message is set. `response` is the response's error
   * code, or None when there was no response.
   */
  function LoginCatchAsWritten(response: Option<Option<ErrorCode>>): (r: CatchResult)
    ensures r.Crashes? <==> response.None?
    ensures response.Some? ==> r == Caught(LoginMessage(response.value))
  {
    if response.None? then Crashes else Caught(LoginMessage(response.value))
  }

  /** The `catch` of `login` with the optional chaining `register` uses: every rejection gets a message. */
  function LoginCatch(response: Option<Option<ErrorCode>>): (r: string)
    ensures r != ""
    ensures LoginCatchAsWritten(response).Caught? ==> r == LoginCatchAsWritten(response).message
    ensures response.None? ==> r == LoginDefault
  {
    LoginMessage(if response.Some? then response.value else None)
  }

  /** A login that fails without reaching the server sets no message in the code as written. */
  lemma NoResponseLoginCrashes()
    ensures LoginCatchAsWritten(None) == Crashes
    ensures LoginCatch(None) == LoginDefault
  {
  }

  /** `error?.response?.data?.code`: a missing response reads as a missing code. */
  function RegisterCatch(response: Option<Option<ErrorCode>>): (r: string)
    ensures response.None? ==> r == RegisterDefault
    ensures response.Some? ==> r == RegisterMessage(response.value)
  {
    RegisterMessage(if response.Some? then response.value else None)
  }

  /** The error code, if any, that a rejected reply's response carries. */
  function ResponseOf(reply: AuthReply): Option<Option<ErrorCode>>
  {
    if reply.Refused? then Some(reply.code) else None
  }

  /** Every refusal `login` on the backend can send, other than a server fault, gets its own message. */
  lemma LoginFailuresExplained(body: AuthController.LoginBody, answer: AuthController.ServiceAnswer<AuthController.Session>)
    requires AuthController.Login(body, answer).Failure?
    ensures var code := AuthController.Login(body, answer).error.code;
      LoginMessage(Some(code)) == LoginDefault <==> code == INTERNAL_SERVER_ERROR
  {
  }

  /** Every refusal `register` on the backend can send, other than a server fault, gets its own message. */
  lemma RegisterFailuresExplained(body: AuthController.RegisterBody, answer: AuthController.ServiceAnswer<AuthController.Session>)
    requires AuthController.Register(body, answer).Failure?
    ensures var code := AuthController.Register(body, answer).error.code;
      RegisterMessage(Some(code)) == RegisterDefault <==> code == INTERNAL_SERVER_ERROR
  {
  }

  class AuthState {
    var token: Option<string>
    var user: Option<User>
    var isLoading: bool
    var loginError: Option<string>
    var registerError: Option<string>
    /** The `token` and `user` entries of the browser's local storage. */
    var storedToken: Option<string>
    var storedUser: Option<User>

    /** The store starts from what local storage holds. */
    constructor(savedToken: Option<string>, savedUser: Option<User>)
      ensures token == savedToken && user == savedUser
      ensures storedToken == savedToken && storedUser == savedUser
      ensures !isLoading && loginError.None? && registerError.None?
    {
      token := savedToken;
      user := savedUser;
      storedToken := savedToken;
      storedUser := savedUser;
      isLoading := false;
      loginError := None;
      registerError := None;
    }

    /** A session was granted: keep it in local storage and in the store. */
    method Keep(session: AuthController.Session)
      modifies this
      ensures token == Some(session.token) && user == Some(session.user)
      ensures storedToken == Some(session.token) && storedUser == Some(session.user)
      ensures !isLoading && loginError == old(loginError) && registerError == old(registerError)
    {
      storedToken := Some(session.token);
      storedUser := Some(session.user);
      token := Some(session.token);
      user := Some(session.user);
      isLoading := false;
    }

    /**
     * `login(email, password)`, as written: a refusal with a response sets
     * the message for its code and rethrows; a failure without a response
     * throws a TypeError inside the `catch`, before anything is set, so the
     * message stays cleared and the store stays loading.
     */
    method Login(email: string, password: string, reply: AuthReply) returns (r: Settled)
      modifies this
      ensures registerError == old(registerError)
      ensures r == Resolved <==> reply.Authenticated?
      ensures r == ThrowsTypeError <==> reply.NoResponse?
      ensures reply.Authenticated? ==>
        token == Some(reply.session.token) && user == Some(reply.session.user) &&
        storedToken == token && storedUser == user && loginError.None? && !isLoading
      ensures !reply.Authenticated? ==>
        token == old(token) && user == old(user) &&
        storedToken == old(storedToken) && storedUser == old(storedUser)
      ensures reply.Refused? ==>
        r == Rethrows && loginError == Some(LoginMessage(reply.code)) && !isLoading
      ensures reply.NoResponse? ==> loginError.None? && isLoading
    {
      isLoading := true;
      loginError := None;
      if reply.Authenticated? {
        Keep(reply.session);
        return Resolved;
      }
      match LoginCatchAsWritten(ResponseOf(reply))
      case Crashes =>
        return ThrowsTypeError;
      case Caught(message) =>
        loginError := Some(message);
        isLoading := false;
        return Rethrows;
    }

    /** `register(name, email, password)`. */
    method Register(name: string, email: string, password: string, reply: AuthReply) returns (r: Settled)
      modifies this
      ensures !isLoading && loginError == old(loginError)
      ensures r == Resolved <==> reply.Authenticated?
      ensures reply.Authenticated? ==>
        token == Some(reply.session.token) && user == Some(reply.session.user) &&
        storedToken == token && storedUser == user && registerError.None?
      ensures !reply.Authenticated? ==>
        registerError == Some(RegisterCatch(ResponseOf(reply))) &&
        token == old(token) && user == old(user) &&
        storedToken == old(storedToken) && storedUser == old(storedUser)
    {
      isLoading := true;
      registerError := None;
      if reply.Authenticated? {
        Keep(reply.session);
        return Resolved;
      }
      registerError := Some(RegisterCatch(ResponseOf(reply)));
      isLoading := false;
      return Rethrows;
    }

    /** `logout()`: forget the session in local storage and in the store. */
    method Logout()
      modifies this
      ensures token.None? && user.None? && storedToken.None? && storedUser.None?
      ensures isLoading == old(isLoading) && loginError == old(loginError) && registerError == old(registerError)
    {
      storedToken := None;
      storedUser := None;
      token := None;
      user := None;
    }

    /** `resetError()`: clears the login message only. */
    method ResetError()
      modifies this
      ensures loginError.None?
      ensures registerError == old(registerError) && isLoading == old(isLoading)
      ensures token == old(token) && user == old(user)
      ensures storedToken == old(storedToken) && storedUser == old(storedUser)
    {
      loginError := None;
    }
  }
}
