/**
  The service's error vocabulary: the `StatusCodes`, `ErrorCodes` and
  `ErrorMessages` enumerations and `exceptionsMapper`, the table that picks the
  web framework's exception class for a status code. Exception classes are
  represented by tags; how they are thrown and serialised is not modelled.
 */
module ErrorsMetadata {
  import opened Wrappers

  /** `StatusCodes`, a numeric enumeration. */
  datatype StatusCode =
    | OK
    | Created
    | MovedPermanently
    | BadRequest
    | Unauthorized
    | Forbidden
    | NotFound
    | NotAcceptable
    | Conflict
    | Internal
  {
    /** The numeric value of the enumeration member. */
    function Value(): int {
      match this
      case OK => 200
      case Created => 201
      case MovedPermanently => 301
      case BadRequest => 400
      case Unauthorized => 401
      case Forbidden => 403
      case NotFound => 404
      case NotAcceptable => 406
      case Conflict => 409
      case Internal => 500
    }
  }

  /** The reverse mapping of a numeric enumeration: the member with value `n`, if any. */
  function StatusCodeOf(n: int): (r: Option<StatusCode>)
    ensures r.Some? ==> r.value.Value() == n
    ensures r.None? ==> forall c: StatusCode :: c.Value() != n
  {
    if n == 200 then Some(OK)
    else if n == 201 then Some(Created)
    else if n == 301 then Some(MovedPermanently)
    else if n == 400 then Some(BadRequest)
    else if n == 401 then Some(Unauthorized)
    else if n == 403 then Some(Forbidden)
    else if n == 404 then Some(NotFound)
    else if n == 406 then Some(NotAcceptable)
    else if n == 409 then Some(Conflict)
    else if n == 500 then Some(Internal)
    else None
  }

  /** Distinct members of `StatusCodes` carry distinct values. */
  lemma StatusCodeValuesDistinct(a: StatusCode, b: StatusCode)
    requires a != b
    ensures a.Value() != b.Value()
  {
    assert StatusCodeOf(a.Value()) == Some(a);
    assert StatusCodeOf(b.Value()) == Some(b);
  }

  /** `ErrorCodes`, a string enumeration. */
  datatype ErrorCode =
    | InvalidEmailCode
    | TokenNotFound
    | UserExists
    | EmailInUseCode
    | ResourceNotFound
    | UnauthorizedCode
  {
    /** The string value of the enumeration member. */
    function Text(): string {
      match this
      case InvalidEmailCode => "invalid-email"
      case TokenNotFound => "token-not-found"
      case UserExists => "user-exists"
      case EmailInUseCode => "email-in-use"
      case ResourceNotFound => "resource-not-found"
      case UnauthorizedCode => "unauthorized"
    }
  }

  /** The member of `ErrorCodes` whose value is `t`, if any. */
  function ErrorCodeOf(t: string): (r: Option<ErrorCode>)
    ensures r.Some? ==> r.value.Text() == t
    ensures r.None? ==> forall e: ErrorCode :: e.Text() != t
  {
    if t == "invalid-email" then Some(InvalidEmailCode)
    else if t == "token-not-found" then Some(TokenNotFound)
    else if t == "user-exists" then Some(UserExists)
    else if t == "email-in-use" then Some(EmailInUseCode)
    else if t == "resource-not-found" then Some(ResourceNotFound)
    else if t == "unauthorized" then Some(UnauthorizedCode)
    else None
  }

  /** Every error code is recovered from its text. */
  lemma ErrorCodeTextRoundTrip(e: ErrorCode)
    ensures ErrorCodeOf(e.Text()) == Some(e)
  {
  }

  /** The error-code texts are pairwise distinct. */
  lemma ErrorCodeTextsDistinct(a: ErrorCode, b: ErrorCode)
    requires a != b
    ensures a.Text() != b.Text()
  {
    ErrorCodeTextRoundTrip(a);
    ErrorCodeTextRoundTrip(b);
  }

  /** `ErrorMessages`, the client-visible message texts. */
  datatype ErrorMessage =
    | EmailInUse
    | EnvironmentNotFound
    | ProjectNotFound
    | UserNotFound
    | InvalidEmail
    | RequiredField
    | UnauthorizedMessage
    | ForbiddenMessage
    | InvalidCredentials
    | InvalidEmailOrPass
    | InvalidToken
    | InternalError
    | MissingAuthSecret
    | EmailTemplateNotFound
    | MaxLength
    | InvalidUser
    | CannotChangeOwnStatus
    | CannotDeleteOwnUser
    | UserAlreadyAcceptedInvitation
    | UserAlreadyConfirmedEmail
    | UserIsNotActive
    | InvalidDomainFormat
    | NoCustomDomainFound
    | EmailNotFound
    | UserAlreadyInWaitlist
    | EmailTemplateRequiredEnabled
  {
    /** The string value of the enumeration member, as sent to clients. */
    function Text(): string {
      match this
      case EmailInUse => "This email is already in use"
      case EnvironmentNotFound => "Environment not found"
      case ProjectNotFound => "Project not found"
      case UserNotFound => "User not found"
      case InvalidEmail => "Invalid Email"
      case RequiredField => "This field is required"
      case UnauthorizedMessage => "Unauthorized access"
      case ForbiddenMessage => "Forbidden access"
      case InvalidCredentials => "Invalid credentials"
      case InvalidEmailOrPass => "Invalid email or password"
      case InvalidToken => "Invalid Token"
      case InternalError => "An internal error ocurred, try again"
      case MissingAuthSecret => "Auth secret not found"
      case EmailTemplateNotFound => "Email template not found"
      case MaxLength => "Max length exceeded"
      case InvalidUser => "Invalid user"
      case CannotChangeOwnStatus => "You cannot change your own status"
      case CannotDeleteOwnUser => "You cannot delete your own user"
      case UserAlreadyAcceptedInvitation => "User already accepted invitation"
      case UserAlreadyConfirmedEmail => "User already confirmed email"
      case UserIsNotActive => "User is not active"
      case InvalidDomainFormat => "Invalid domain format"
      case NoCustomDomainFound => "No custom domain found for this environment"
      case EmailNotFound => "Email not found"
      case UserAlreadyInWaitlist => "You are already in our waitlist"
      case EmailTemplateRequiredEnabled => "This email template is required to be enabled"
    }
  }

  /** Every member of `ErrorMessages`, in declaration order. */
  const AllErrorMessages: seq<ErrorMessage> := [
    EmailInUse,
    EnvironmentNotFound,
    ProjectNotFound,
    UserNotFound,
    InvalidEmail,
    RequiredField,
    UnauthorizedMessage,
    ForbiddenMessage,
    InvalidCredentials,
    InvalidEmailOrPass,
    InvalidToken,
    InternalError,
    MissingAuthSecret,
    EmailTemplateNotFound,
    MaxLength,
    InvalidUser,
    CannotChangeOwnStatus,
    CannotDeleteOwnUser,
    UserAlreadyAcceptedInvitation,
    UserAlreadyConfirmedEmail,
    UserIsNotActive,
    InvalidDomainFormat,
    NoCustomDomainFound,
    EmailNotFound,
    UserAlreadyInWaitlist,
    EmailTemplateRequiredEnabled
  ]

  lemma AllErrorMessagesComplete(m: ErrorMessage)
    ensures m in AllErrorMessages
  {
  }

  /** The first member of `ms` whose text is `t`, if any. */
  function FindErrorMessage(ms: seq<ErrorMessage>, t: string): (r: Option<ErrorMessage>)
    ensures r.Some? ==> r.value in ms && r.value.Text() == t
    ensures r.None? ==> forall i :: 0 <= i < |ms| ==> ms[i].Text() != t
  {
    if ms == [] then None
    else if ms[0].Text() == t then Some(ms[0])
    else FindErrorMessage(ms[1..], t)
  }

  /** The member of `ErrorMessages` whose text is `t`, if any. */
  function ErrorMessageOf(t: string): (r: Option<ErrorMessage>)
    ensures r.Some? ==> r.value.Text() == t
    ensures r.None? ==> forall m: ErrorMessage :: m.Text() != t
  {
    var r := FindErrorMessage(AllErrorMessages, t);
    assert r.None? ==> forall m: ErrorMessage :: m.Text() != t by {
      forall m: ErrorMessage
        ensures r.None? ==> m.Text() != t
      {
        AllErrorMessagesComplete(m);
      }
    }
    r
  }

  /** The number of UTF-16 code units in each message text. */
  function TextLength(m: ErrorMessage): nat {
    match m
    case EmailInUse => 28
    case EnvironmentNotFound => 21
    case ProjectNotFound => 17
    case UserNotFound => 14
    case InvalidEmail => 13
    case RequiredField => 22
    case UnauthorizedMessage => 19
    case ForbiddenMessage => 16
    case InvalidCredentials => 19
    case InvalidEmailOrPass => 25
    case InvalidToken => 13
    case InternalError => 36
    case MissingAuthSecret => 21
    case EmailTemplateNotFound => 24
    case MaxLength => 19
    case InvalidUser => 12
    case CannotChangeOwnStatus => 33
    case CannotDeleteOwnUser => 31
    case UserAlreadyAcceptedInvitation => 32
    case UserAlreadyConfirmedEmail => 28
    case UserIsNotActive => 18
    case InvalidDomainFormat => 21
    case NoCustomDomainFound => 43
    case EmailNotFound => 15
    case UserAlreadyInWaitlist => 31
    case EmailTemplateRequiredEnabled => 45
  }

  lemma TextLengthCorrect(m: ErrorMessage)
    ensures |m.Text()| == TextLength(m)
  {
  }

  /** The message texts are pairwise distinct. */
  lemma ErrorMessageTextsDistinct(a: ErrorMessage, b: ErrorMessage)
    requires a != b
    ensures a.Text() != b.Text()
  {
    TextLengthCorrect(a);
    TextLengthCorrect(b);
    SameLengthTextsDistinct();
  }

  /** The messages that share a length differ in some code unit. */
  lemma SameLengthTextsDistinct()
    ensures InvalidEmail.Text() != InvalidToken.Text()
    ensures UnauthorizedMessage.Text() != InvalidCredentials.Text()
    ensures UnauthorizedMessage.Text() != MaxLength.Text()
    ensures InvalidCredentials.Text() != MaxLength.Text()
    ensures EnvironmentNotFound.Text() != MissingAuthSecret.Text()
    ensures EnvironmentNotFound.Text() != InvalidDomainFormat.Text()
    ensures MissingAuthSecret.Text() != InvalidDomainFormat.Text()
    ensures EmailInUse.Text() != UserAlreadyConfirmedEmail.Text()
    ensures CannotDeleteOwnUser.Text() != UserAlreadyInWaitlist.Text()
  {
    assert InvalidEmail.Text()[8] != InvalidToken.Text()[8];
    assert UnauthorizedMessage.Text()[0] != InvalidCredentials.Text()[0];
    assert UnauthorizedMessage.Text()[0] != MaxLength.Text()[0];
    assert InvalidCredentials.Text()[0] != MaxLength.Text()[0];
    assert EnvironmentNotFound.Text()[0] != MissingAuthSecret.Text()[0];
    assert EnvironmentNotFound.Text()[0] != InvalidDomainFormat.Text()[0];
    assert MissingAuthSecret.Text()[0] != InvalidDomainFormat.Text()[0];
    assert EmailInUse.Text()[0] != UserAlreadyConfirmedEmail.Text()[0];
    assert CannotDeleteOwnUser.Text()[4] != UserAlreadyInWaitlist.Text()[4];
  }

  /** Every message is recovered from its text. */
  lemma ErrorMessageTextRoundTrip(m: ErrorMessage)
    ensures ErrorMessageOf(m.Text()) == Some(m)
  {
    var r := ErrorMessageOf(m.Text());
    if r.value != m {
      ErrorMessageTextsDistinct(r.value, m);
    }
  }

  /** The framework's exception classes that `exceptionsMapper` refers to. */
  datatype ExceptionKind =
    | ForbiddenException
    | BadRequestException
    | ConflictException
    | InternalServerErrorException
    | NotAcceptableException
    | NotFoundException
    | UnauthorizedException

  /** `exceptionsMapper`, keyed by the numeric status-code value. */
  const ExceptionsMapper: map<int, ExceptionKind> := map[
    Forbidden.Value() := ForbiddenException,
    BadRequest.Value() := BadRequestException,
    Conflict.Value() := ConflictException,
    Internal.Value() := InternalServerErrorException,
    NotAcceptable.Value() := NotAcceptableException,
    NotFound.Value() := NotFoundException,
    Unauthorized.Value() := UnauthorizedException
  ]

  /** The status code whose exception class is `k`: the inverse of the table. */
  function StatusOf(k: ExceptionKind): StatusCode {
    match k
    case ForbiddenException => Forbidden
    case BadRequestException => BadRequest
    case ConflictException => Conflict
    case InternalServerErrorException => Internal
    case NotAcceptableException => NotAcceptable
    case NotFoundException => NotFound
    case UnauthorizedException => Unauthorized
  }

  /** `exceptionsMapper[code]`: the exception class for a status code, if the table has one. */
  function ExceptionFor(code: StatusCode): (r: Option<ExceptionKind>)
    ensures r.Some? <==> code.Value() >= 400
    ensures r.Some? ==> StatusOf(r.value) == code
    ensures forall k: ExceptionKind :: StatusOf(k) == code ==> r == Some(k)
  {
    if code.Value() in ExceptionsMapper then Some(ExceptionsMapper[code.Value()]) else None
  }

  /** The table's keys are exactly the seven error status values. */
  lemma MapperDomain()
    ensures ExceptionsMapper.Keys == {400, 401, 403, 404, 406, 409, 500}
  {
  }

  /** A number is a key of the table iff it is the value of a status code of 400 or more. */
  lemma MapperKeysAreErrorCodes(n: int)
    ensures n in ExceptionsMapper <==> exists c: StatusCode :: c.Value() == n && n >= 400
  {
    if n in ExceptionsMapper {
      var c := StatusCodeOf(n);
      assert c.Some?;
    }
  }

  /** The success and redirect codes have no exception class. */
  lemma NonErrorCodesUnmapped()
    ensures ExceptionFor(OK).None?
    ensures ExceptionFor(Created).None?
    ensures ExceptionFor(MovedPermanently).None?
  {
  }

  /** Each error code yields the exception class of the same name. */
  lemma SameNamedExceptions()
    ensures ExceptionFor(BadRequest) == Some(BadRequestException)
    ensures ExceptionFor(Unauthorized) == Some(UnauthorizedException)
    ensures ExceptionFor(Forbidden) == Some(ForbiddenException)
    ensures ExceptionFor(NotFound) == Some(NotFoundException)
    ensures ExceptionFor(NotAcceptable) == Some(NotAcceptableException)
    ensures ExceptionFor(Conflict) == Some(ConflictException)
    ensures ExceptionFor(Internal) == Some(InternalServerErrorException)
  {
  }

  /** Distinct status codes never share an exception class. */
  lemma ExceptionForInjective(a: StatusCode, b: StatusCode)
    requires ExceptionFor(a).Some? && ExceptionFor(a) == ExceptionFor(b)
    ensures a == b
  {
    assert StatusOf(ExceptionFor(a).value) == a;
  }
}
