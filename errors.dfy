/** The error taxonomy, the error envelope and the field validators
    (src/error.js). Every validator is a pure function from a raw field value
    to "no error" (`None`, the source's empty string) or one error code. */
module Errors {
  import opened Values
  import opened UserRoles

  /** Largest page size a client may ask for. */
  const MaxQueryLimit := 1000

  /** Account field constraints shared with the persistence schema. */
  const UsernameMaxLength := 100
  const UserPasswordMinLength := 6
  const UserPasswordMaxLength := 30

  /** The store's error code for a unique-index violation. */
  const MongoDuplicateKey := 11000

  /** `ServerError`: every code a response envelope can carry. */
  datatype ErrorCode =
    | Unauthorized
    | NotAllowed
    | DuplicateKey
    | Unexpected
    | QueryLimitInvalid
    | QuerySkipInvalid
    | IdParameterInvalid
    | UsernameIsRequired
    | UsernameInvalid
    | UserPasswordIsRequired
    | UserPasswordInvalid
    | UserRoleIsRequired
    | UserRoleInvalid
    | SignInUserNotFound
    | SignInWrongPassword

  /** The string a code is sent as: each code's value is its own name. */
  function CodeName(c: ErrorCode): string
  {
    match c
    case Unauthorized => "Unauthorized"
    case NotAllowed => "NotAllowed"
    case DuplicateKey => "DuplicateKey"
    case Unexpected => "Unexpected"
    case QueryLimitInvalid => "QueryLimitInvalid"
    case QuerySkipInvalid => "QuerySkipInvalid"
    case IdParameterInvalid => "IdParameterInvalid"
    case UsernameIsRequired => "UsernameIsRequired"
    case UsernameInvalid => "UsernameInvalid"
    case UserPasswordIsRequired => "UserPasswordIsRequired"
    case UserPasswordInvalid => "UserPasswordInvalid"
    case UserRoleIsRequired => "UserRoleIsRequired"
    case UserRoleInvalid => "UserRoleInvalid"
    case SignInUserNotFound => "SignInUserNotFound"
    case SignInWrongPassword => "SignInWrongPassword"
  }

  /** A client can tell every code apart by its string. */
  lemma CodeNamesDistinct(c1: ErrorCode, c2: ErrorCode)
    ensures CodeName(c1) == CodeName(c2) ==> c1 == c2
  {
  }

  /** The body of every error response: `{ error: { code, message? } }`. */
  datatype Envelope = Envelope(code: ErrorCode, message: Option<string>)

  /** `error(code, message)`: the envelope always carries `code`, and carries
      `message` exactly when one was given and it is truthy (non-empty). */
  function Error(code: ErrorCode, message: Option<string>): (e: Envelope)
    ensures e.code == code
    ensures e.message.Some? <==> message.Some? && message.value != ""
    ensures e.message.Some? ==> e.message == message
  {
    var res := Envelope(code, None);
    if message.Some? && message.value != "" then res.(message := message) else res
  }

  /** JavaScript truthiness of an optional query string. */
  predicate Truthy(v: Option<string>)
  {
    v.Some? && v.value != ""
  }

  /** `getQueryLimitError`: an absent or empty limit is fine; otherwise it
      must be an integer string between 1 and `MaxQueryLimit`. */
  function GetQueryLimitError(limit: Option<string>): (r: Option<ErrorCode>)
    ensures r == None || r == Some(QueryLimitInvalid)
    ensures r == None <==> !Truthy(limit) || IsIntInRange(limit.value, Some(1), Some(MaxQueryLimit))
  {
    if Truthy(limit) && !IsIntInRange(limit.value, Some(1), Some(MaxQueryLimit)) then Some(QueryLimitInvalid)
    else None
  }

  /** `getQuerySkipError`: an absent or empty skip is fine; otherwise it
      must be an integer string that is at least 0. */
  function GetQuerySkipError(skip: Option<string>): (r: Option<ErrorCode>)
    ensures r == None || r == Some(QuerySkipInvalid)
    ensures r == None <==> !Truthy(skip) || IsIntInRange(skip.value, Some(0), None)
  {
    if Truthy(skip) && !IsIntInRange(skip.value, Some(0), None) then Some(QuerySkipInvalid)
    else None
  }

  predicate IsHexDigit(c: char)
  {
    ('0' <= c <= '9') || ('a' <= c <= 'f') || ('A' <= c <= 'F')
  }

  /** `isMongoId`: a 24-character hexadecimal string. */
  predicate IsMongoId(s: string)
  {
    |s| == 24 && forall i :: 0 <= i < |s| ==> IsHexDigit(s[i])
  }

  /** `getIdParameterError`: no error exactly for ids of the store's shape. */
  function GetIdParameterError(id: string): (r: Option<ErrorCode>)
    ensures r == None <==> IsMongoId(id)
    ensures r == None || r == Some(IdParameterInvalid)
  {
    if IsMongoId(id) then None else Some(IdParameterInvalid)
  }

  /** `isLength(s, {min, max})`, lengths counted in characters. */
  predicate LengthWithin(s: string, min: nat, max: nat)
  {
    min <= |s| <= max
  }

  /** `getUsernameError`: absent is an error only when required; a present
      value must be a string whose trimmed length is between 1 and
      `UsernameMaxLength`. */
  function GetUsernameError(username: JsValue, required: bool): (r: Option<ErrorCode>)
    ensures r == None || r == Some(UsernameIsRequired) || r == Some(UsernameInvalid)
    ensures r == Some(UsernameIsRequired) <==> username == Undefined && required
    ensures r == None <==>
      (username == Undefined && !required) || (username.Str? && 1 <= |Trim(username.s)| <= UsernameMaxLength)
  {
    if username.Undefined? && required then Some(UsernameIsRequired)
    else if username.Undefined? then None
    else if !username.Str? || !LengthWithin(Trim(username.s), 1, UsernameMaxLength) then Some(UsernameInvalid)
    else None
  }

  /** `getUserPasswordError`: absent is an error only when required; a
      present value must be a string whose own (untrimmed) length is between
      `UserPasswordMinLength` and `UserPasswordMaxLength`. */
  function GetUserPasswordError(password: JsValue, required: bool): (r: Option<ErrorCode>)
    ensures r == None || r == Some(UserPasswordIsRequired) || r == Some(UserPasswordInvalid)
    ensures r == Some(UserPasswordIsRequired) <==> password == Undefined && required
    ensures r == None <==>
      (password == Undefined && !required)
      || (password.Str? && UserPasswordMinLength <= |password.s| <= UserPasswordMaxLength)
  {
    if password.Undefined? && required then Some(UserPasswordIsRequired)
    else if password.Undefined? then None
    else if !password.Str? || !LengthWithin(password.s, UserPasswordMinLength, UserPasswordMaxLength) then Some(UserPasswordInvalid)
    else None
  }

  /** `getUserRoleError`: absent is an error only when required; a present
      value must be a string naming a role. */
  function GetUserRoleError(role: JsValue, required: bool): (r: Option<ErrorCode>)
    ensures r == None || r == Some(UserRoleIsRequired) || r == Some(UserRoleInvalid)
    ensures r == Some(UserRoleIsRequired) <==> role == Undefined && required
    ensures r == None <==> (role == Undefined && !required) || (role.Str? && ParseRole(role.s).Some?)
  {
    if role.Undefined? && required then Some(UserRoleIsRequired)
    else if role.Undefined? then None
    else if !role.Str? || role.s !in RoleValues then Some(UserRoleInvalid)
    else None
  }

  // ---------------------------------------------------------------------
  // Properties of the validators
  // ---------------------------------------------------------------------

  /** The required/absent rule shared by the three account fields; `null`
      is a present value and therefore invalid whatever `required` says. */
  lemma AbsentAndNullRule(required: bool)
    ensures GetUsernameError(Undefined, required) == (if required then Some(UsernameIsRequired) else None)
    ensures GetUserPasswordError(Undefined, required) == (if required then Some(UserPasswordIsRequired) else None)
    ensures GetUserRoleError(Undefined, required) == (if required then Some(UserRoleIsRequired) else None)
    ensures GetUsernameError(Null, required) == Some(UsernameInvalid)
    ensures GetUserPasswordError(Null, required) == Some(UserPasswordInvalid)
    ensures GetUserRoleError(Null, required) == Some(UserRoleInvalid)
  {
  }

  /** A username is judged by its trimmed core: whitespace padding around an
      unpadded core never matters, only the core's length does. */
  lemma UsernameJudgedByCore(p: string, core: string, q: string, required: bool)
    requires AllWhitespace(p) && AllWhitespace(q) && Unpadded(core)
    ensures GetUsernameError(Str(p + core + q), required) == None <==> 1 <= |core| <= UsernameMaxLength
    ensures GetUsernameError(Str(p + core + q), required) != None ==>
      GetUsernameError(Str(p + core + q), required) == Some(UsernameInvalid)
  {
    TrimOfPadded(p, core, q);
  }

  /** A string of 101 digits is an invalid username. */
  lemma LongUsernameRejected(digits: string, required: bool)
    requires |digits| == UsernameMaxLength + 1 && AllDigits(digits)
    ensures GetUsernameError(Str(digits), required) == Some(UsernameInvalid)
  {
    assert IsDigit(digits[0]) && IsDigit(digits[|digits| - 1]);
    assert [] + digits + [] == digits;
    TrimOfPadded([], digits, []);
  }

  /** A username made only of whitespace is invalid: it trims to nothing. */
  lemma BlankUsernameRejected(blank: string, required: bool)
    requires AllWhitespace(blank)
    ensures GetUsernameError(Str(blank), required) == Some(UsernameInvalid)
  {
    assert [] + [] + blank == blank;
    TrimOfPadded([], [], blank);
  }

  /** Passwords are not trimmed: length bounds apply to the raw string,
      so "1" and any 31-character string are rejected, six spaces accepted. */
  lemma PasswordBounds(long: string, required: bool)
    requires |long| == UserPasswordMaxLength + 1
    ensures GetUserPasswordError(Str("1"), required) == Some(UserPasswordInvalid)
    ensures GetUserPasswordError(Str(long), required) == Some(UserPasswordInvalid)
    ensures GetUserPasswordError(Str("123456"), required) == None
    ensures GetUserPasswordError(Str("      "), required) == None
  {
  }

  /** Exactly the role names pass the role validator. */
  lemma RoleNamesAccepted(r: Role, required: bool)
    ensures GetUserRoleError(Str(RoleName(r)), required) == None
    ensures GetUserRoleError(Str("some invalid role"), required) == Some(UserRoleInvalid)
  {
  }

  /** A limit written as a canonical decimal is accepted exactly when its
      value is between 1 and `MaxQueryLimit`. */
  lemma QueryLimitAcceptsExactly(n: int)
    ensures GetQueryLimitError(Some(DecimalString(n))) == None <==> 1 <= n <= MaxQueryLimit
  {
    DecimalStringRoundTrip(n);
  }

  /** A skip written as a canonical decimal is accepted exactly when its
      value is at least 0. */
  lemma QuerySkipAcceptsExactly(n: int)
    ensures GetQuerySkipError(Some(DecimalString(n))) == None <==> 0 <= n
  {
    DecimalStringRoundTrip(n);
  }

  /** The query values the application's tests send. */
  lemma QueryExamples()
    ensures GetQueryLimitError(Some("-1")) == Some(QueryLimitInvalid)
    ensures GetQueryLimitError(Some("abc")) == Some(QueryLimitInvalid)
    ensures GetQueryLimitError(Some("1001")) == Some(QueryLimitInvalid)
    ensures GetQueryLimitError(Some("1")) == None
    ensures GetQueryLimitError(None) == None && GetQueryLimitError(Some("")) == None
    ensures GetQuerySkipError(Some("-1")) == Some(QuerySkipInvalid)
    ensures GetQuerySkipError(Some("abc")) == Some(QuerySkipInvalid)
    ensures GetQuerySkipError(Some("1")) == None
    ensures GetQuerySkipError(None) == None
  {
    assert "abc"[0] == 'a';
    assert "1001"[..3] == "100" && "100"[..2] == "10" && "10"[..1] == "1";
    assert DigitsValue("1001") == 1001;
    assert "-1"[1..] == "1";
  }
}
