/**
 * Registration and login: the password policy (a regular expression of four
 * lookaheads), the order of the register checks, and the login rule that an
 * unknown email and a wrong password get the same answer.
 *
 * bcrypt and JSON Web Tokens are outside the model: the hash of the new
 * password, the issued token and the new user's id arrive as parameters, and
 * password comparison is an oracle.
 */
module AuthController {
  import opened Wrappers
  import opened Http
  import JsString
  import opened UserModel

  // ---------------------------------------------------------------------------
  // Password policy: /^(?=.{8,})(?=.*[A-Z])(?=.*\d)(?=.*[!@#$%^&*])/

  datatype CharClass = Upper | Digit | Special

  predicate InClass(c: char, k: CharClass) {
    match k
    case Upper => 'A' <= c <= 'Z'
    case Digit => '0' <= c <= '9'
    case Special => c in "!@#$%^&*"
  }

  /** The lookahead `(?=.{n,})` at the start: n characters that `.` matches. */
  predicate DotsAtLeast(s: string, n: nat) {
    n <= |s| && forall i :: 0 <= i < n ==> !JsString.IsLineTerminator(s[i])
  }

  /** The lookahead `(?=.*[k])` at the start: a character of class k reached through characters
      that `.` matches. */
  predicate DotStarThen(s: string, k: CharClass)
    decreases |s|
  {
    |s| > 0 && (InClass(s[0], k) || (!JsString.IsLineTerminator(s[0]) && DotStarThen(s[1..], k)))
  }

  /** `PASSWORD_REGEX.test(password)`. */
  predicate PasswordRegexTest(password: string) {
    && DotsAtLeast(password, 8)
    && DotStarThen(password, Upper)
    && DotStarThen(password, Digit)
    && DotStarThen(password, Special)
  }

  const PasswordPolicy := "Password must have 8+ chars, an uppercase letter, a digit, and a special char"

  /** The text before the first line terminator. */
  function FirstLine(s: string): (r: string)
    ensures |r| <= |s| && r == s[..|r|]
    ensures forall i :: 0 <= i < |r| ==> !JsString.IsLineTerminator(r[i])
    ensures |r| < |s| ==> JsString.IsLineTerminator(s[|r|])
  {
    if s == [] || JsString.IsLineTerminator(s[0]) then [] else [s[0]] + FirstLine(s[1..])
  }

  predicate HasClass(s: string, k: CharClass) {
    exists i :: 0 <= i < |s| && InClass(s[i], k)
  }

  /** The policy as its message states it, over the first line only. */
  predicate MeetsPolicy(password: string) {
    var line := FirstLine(password);
    |line| >= 8 && HasClass(line, Upper) && HasClass(line, Digit) && HasClass(line, Special)
  }

  lemma {:induction false} DotStarThenIsFirstLineClass(s: string, k: CharClass)
    ensures DotStarThen(s, k) <==> HasClass(FirstLine(s), k)
    decreases |s|
  {
    if s != [] && !JsString.IsLineTerminator(s[0]) {
      DotStarThenIsFirstLineClass(s[1..], k);
      var line := FirstLine(s);
      assert line == [s[0]] + FirstLine(s[1..]);
      if HasClass(FirstLine(s[1..]), k) {
        var i :| 0 <= i < |FirstLine(s[1..])| && InClass(FirstLine(s[1..])[i], k);
        assert line[i + 1] == FirstLine(s[1..])[i];
      }
      if HasClass(line, k) && !InClass(s[0], k) {
        var i :| 0 <= i < |line| && InClass(line[i], k);
        assert i > 0 && line[i] == FirstLine(s[1..])[i - 1];
      }
    } else if s != [] {
      assert !InClass(s[0], k);
    }
  }

  lemma DotsAtLeastIsFirstLineLength(s: string, n: nat)
    ensures DotsAtLeast(s, n) <==> |FirstLine(s)| >= n
  {
    var line := FirstLine(s);
    if |line| < n && n <= |s| {
      assert JsString.IsLineTerminator(s[|line|]);
    }
  }

  /** The regular expression accepts exactly the passwords whose first line has eight or more
      characters, an upper-case letter A-Z, a digit 0-9 and one of `!@#$%^&*`. */
  lemma PasswordRegexMeansPolicy(password: string)
    ensures PasswordRegexTest(password) <==> MeetsPolicy(password)
  {
    DotsAtLeastIsFirstLineLength(password, 8);
    DotStarThenIsFirstLineClass(password, Upper);
    DotStarThenIsFirstLineClass(password, Digit);
    DotStarThenIsFirstLineClass(password, Special);
  }

  /** A line break hides everything after it from the policy... */
  lemma LineBreakHidesTheRest()
    ensures !PasswordRegexTest("abcdefgh\nA1!")
  {
    assert !DotStarThen("\nA1!", Upper);
    assert !DotStarThen("h\nA1!", Upper);
    assert !DotStarThen("gh\nA1!", Upper);
    assert !DotStarThen("fgh\nA1!", Upper);
    assert !DotStarThen("efgh\nA1!", Upper);
    assert !DotStarThen("defgh\nA1!", Upper);
    assert !DotStarThen("cdefgh\nA1!", Upper);
    assert !DotStarThen("bcdefgh\nA1!", Upper);
  }

  /** ...while the same characters on one line pass. */
  lemma OneLinePasses()
    ensures PasswordRegexTest("Abcdefg1!")
  {
    assert DotStarThen("1!", Digit);
    assert DotStarThen("!", Special);
  }

  // ---------------------------------------------------------------------------
  // Responses

  /** The `user` object of a success body: exactly these three fields. */
  datatype PublicUser = PublicUser(id: string, name: string, email: string)

  datatype AuthBody =
    /** `{ success: false, message }`, as errorResponse writes it. */
    | Failure(message: string)
    /** `{ success: true, token, user }`. */
    | Success(token: string, user: PublicUser)

  function ErrorResponse(status: int, message: string): Response<AuthBody> {
    Response(status, Failure(message))
  }

  const FillAllFields := "Fill all fields"
  const UserExists := "User already exists"
  const InvalidCredentials := "Invalid credentials"
  /** The TypeError raised by `undefined.toLowerCase()`. */
  const EmailUndefined := "Cannot read properties of undefined (reading 'toLowerCase')"
  /** The error bcryptjs raises when the password to compare is undefined. */
  const PasswordUndefined := "Illegal arguments: undefined, string"

  /** A request body field: absent (undefined or null) or a string. */
  predicate Falsy(v: Option<string>) {
    v.None? || v.value == ""
  }

  datatype RegisterBody = RegisterBody(name: Option<string>, email: Option<string>, password: Option<string>)

  /**
   * `register`. `hashed` is the bcrypt hash of the password, `newId` the id the database gives
   * the new user, `token` the signed token and `now` the time of the insert.
   */
  method Register(users: UserCollection, body: RegisterBody, hashed: string, newId: string, token: string, now: int)
      returns (res: Response<AuthBody>)
    requires users.Valid() && hashed != ""
    modifies users
    ensures users.Valid()
    // 1. any missing field, before any lookup
    ensures Falsy(body.name) || Falsy(body.email) || Falsy(body.password) ==>
              res == ErrorResponse(400, FillAllFields) && users.docs == old(users.docs)
    // 2. an existing email, whatever the password
    ensures !Falsy(body.name) && !Falsy(body.email) && !Falsy(body.password)
            && old(users.FindOne(body.email.value)).Some? ==>
              res == ErrorResponse(400, UserExists) && users.docs == old(users.docs)
    // 3. the password policy
    ensures !Falsy(body.name) && !Falsy(body.email) && !Falsy(body.password)
            && old(users.FindOne(body.email.value)).None? && !PasswordRegexTest(body.password.value) ==>
              res == ErrorResponse(400, PasswordPolicy) && users.docs == old(users.docs)
    // 4. an email of blanks only passes the checks above and fails the schema's `required`
    ensures !Falsy(body.name) && !Falsy(body.email) && !Falsy(body.password)
            && old(users.FindOne(body.email.value)).None? && PasswordRegexTest(body.password.value)
            && NormalizeEmail(body.email.value) == "" ==>
              res == ErrorResponse(500, ValidationMessage(["email"])) && users.docs == old(users.docs)
    // 5. success: the user is stored with the normalised email and the hash, and only
    //    id, name and email are returned
    ensures !Falsy(body.name) && !Falsy(body.email) && !Falsy(body.password)
            && old(users.FindOne(body.email.value)).None? && PasswordRegexTest(body.password.value)
            && NormalizeEmail(body.email.value) != "" ==>
              var email := NormalizeEmail(body.email.value);
              && users.docs == old(users.docs) + [UserDoc(newId, body.name.value, email, hashed, now, now)]
              && res == Response(201, Success(token, PublicUser(newId, body.name.value, email)))
  {
    if Falsy(body.name) || Falsy(body.email) || Falsy(body.password) {
      return ErrorResponse(400, FillAllFields);
    }
    var name, email, password := body.name.value, body.email.value, body.password.value;

    NormalizeLowered(email);
    var exist := users.FindOne(JsString.ToLower(email));
    if exist.Some? {
      return ErrorResponse(400, UserExists);
    }

    if !PasswordRegexTest(password) {
      return ErrorResponse(400, PasswordPolicy);
    }

    var created := users.Create(name, JsString.ToLower(email), hashed, newId, now);
    match created {
      case Created(user) =>
        res := Response(201, Success(token, PublicUser(user.id, user.name, user.email)));
      case Invalid(paths) =>
        res := ErrorResponse(500, ValidationMessage(paths));
      case DuplicateEmail =>
        assert false;
    }
  }

  datatype LoginBody = LoginBody(email: Option<string>, password: Option<string>)

  /**
   * `login`. `compare(password, hash)` is bcrypt's comparison and `token` the token signed for
   * the user found.
   */
  method Login(users: UserCollection, body: LoginBody, compare: (string, string) -> bool, token: string)
      returns (res: Response<AuthBody>)
    requires users.Valid()
    // an absent email throws inside the try block
    ensures body.email.None? ==> res == ErrorResponse(500, EmailUndefined)
    // an unknown email and a wrong password get one and the same answer
    ensures body.email.Some? && users.FindOne(body.email.value).None? ==>
              res == ErrorResponse(400, InvalidCredentials)
    ensures body.email.Some? && users.FindOne(body.email.value).Some? && body.password.Some?
            && !compare(body.password.value, users.FindOne(body.email.value).value.password) ==>
              res == ErrorResponse(400, InvalidCredentials)
    ensures body.email.Some? && users.FindOne(body.email.value).Some? && body.password.None? ==>
              res == ErrorResponse(500, PasswordUndefined)
    ensures body.email.Some? && users.FindOne(body.email.value).Some? && body.password.Some?
            && compare(body.password.value, users.FindOne(body.email.value).value.password) ==>
              var user := users.FindOne(body.email.value).value;
              res == Response(200, Success(token, PublicUser(user.id, user.name, user.email)))
  {
    if body.email.None? {
      return ErrorResponse(500, EmailUndefined);
    }
    NormalizeLowered(body.email.value);
    var user := users.FindOne(JsString.ToLower(body.email.value));
    if user.None? {
      return ErrorResponse(400, InvalidCredentials);
    }
    if body.password.None? {
      return ErrorResponse(500, PasswordUndefined);
    }
    var isMatch := compare(body.password.value, user.value.password);
    if !isMatch {
      return ErrorResponse(400, InvalidCredentials);
    }
    res := Response(200, Success(token, PublicUser(user.value.id, user.value.name, user.value.email)));
  }

  /** Emails that differ only in the case of ASCII letters find the same user. */
  lemma CaseVariantsFindSameUser(users: UserCollection, a: string, b: string)
    requires |a| == |b| && forall i :: 0 <= i < |a| ==> JsString.LowerChar(a[i]) == JsString.LowerChar(b[i])
    ensures users.FindOne(a) == users.FindOne(b)
  {
    assert JsString.ToLower(a) == JsString.ToLower(b);
  }
}
