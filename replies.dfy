/**
 * What a request handler answers: a status code with a value, or one of the
 * failures the two servers report, each with its fixed status and message.
 */
module Replies {
  datatype Failure =
    | FieldsRequired       // register without name, email or password
    | UserExists           // register with an email already taken
    | CredentialsRequired  // login without email or password
    | UserNotFound         // login with an unknown email
    | InvalidCredentials   // login with the wrong password
    | Unauthorized         // a todo route without a resolvable bearer token
    | TextRequired         // create without text
    | TodoNotFound         // no todo with that id (or not the caller's)
  {
    function Status(): (code: int)
      ensures code == 404 <==> UserNotFound? || TodoNotFound?
      ensures code == 401 <==> InvalidCredentials? || Unauthorized?
      ensures code == 400 || code == 401 || code == 404
    {
      match this
      case FieldsRequired => 400
      case UserExists => 400
      case CredentialsRequired => 400
      case UserNotFound => 404
      case InvalidCredentials => 401
      case Unauthorized => 401
      case TextRequired => 400
      case TodoNotFound => 404
    }

    function Message(): (m: string)
      ensures |m| > 0
    {
      match this
      case FieldsRequired => "All fields required"
      case UserExists => "User already exists"
      case CredentialsRequired => "Email and password required"
      case UserNotFound => "User not found"
      case InvalidCredentials => "Invalid credentials"
      case Unauthorized => "Unauthorized"
      case TextRequired => "Todo text is required"
      case TodoNotFound => "Todo not found"
    }
  }

  /** Each failure is sent with its own message, so a client can tell them apart. */
  lemma MessagesDistinct(f: Failure, g: Failure)
    ensures f.Message() == g.Message() ==> f == g
  {
  }

  datatype Reply<T> = Ok(status: int, value: T) | Err(failure: Failure)
  {
    function Status(): int
    {
      match this
      case Ok(code, _) => code
      case Err(f) => f.Status()
    }
  }

  /** The empty body of a 201 confirmation or a 204 response. */
  datatype Unit = Unit
}
