/**
  `signUpValidator`: the body of a sign-up request. `fullName` is an optional
  string, `email` a required string in email form, `password` an optional,
  nullable string that must satisfy `passwordPatterns.middleStrength`.
 */
module SignupValidators {
  import opened Wrappers
  import opened JsStrings
  import opened ErrorsMetadata
  import opened Zod
  import PasswordPatterns

  /** The schema as declared, field by field. */
  const SignUpShape: Shape := [
    ("fullName", Optional(Str(None, []))),
    ("email", Str(Some(RequiredField), [Email(Some(InvalidEmail))])),
    ("password", Nullable(Optional(Str(None, [Regex(MiddleStrengthPattern, None)]))))
  ]

  // The rule for each field, stated directly on the field's value.

  /** `fullName`: missing or any string. */
  function FullNameIssues(v: JsValue): seq<Issue> {
    if v.JUndefined? || v.JString? then [] else [Issue(InvalidType, LibraryDefault)]
  }

  /** `email`: required, with `RequiredField`; in email form, with `InvalidEmail`. */
  function EmailIssues(g: Grammars, v: JsValue): seq<Issue> {
    match v
    case JUndefined => [Issue(InvalidType, Custom(RequiredField))]
    case JString(s) => if g.isEmail(s) then [] else [Issue(InvalidString, Custom(InvalidEmail))]
    case _ => [Issue(InvalidType, LibraryDefault)]
  }

  /** `password`: missing, `null`, or a string the pattern accepts. */
  function PasswordIssues(v: JsValue): seq<Issue> {
    match v
    case JUndefined => []
    case JNull => []
    case JString(s) => if PasswordPatterns.MiddleStrength(s) then [] else [Issue(InvalidString, LibraryDefault)]
    case _ => [Issue(InvalidType, LibraryDefault)]
  }

  /** The field rules in declaration order. */
  function SignUpViolations(g: Grammars, f: map<string, JsValue>): seq<Violation> {
    AtKey("fullName", FullNameIssues(Lookup(f, "fullName")))
    + AtKey("email", EmailIssues(g, Lookup(f, "email")))
    + AtKey("password", PasswordIssues(Lookup(f, "password")))
  }

  lemma FullNameRule(g: Grammars, v: JsValue)
    ensures FieldIssues(g, SignUpShape[0].1, v) == FullNameIssues(v)
  {
  }

  lemma EmailRule(g: Grammars, v: JsValue)
    ensures FieldIssues(g, SignUpShape[1].1, v) == EmailIssues(g, v)
  {
    if v.JString? {
      SingleCheck(g, Email(Some(InvalidEmail)), v.s);
    }
  }

  lemma PasswordRule(g: Grammars, v: JsValue)
    ensures FieldIssues(g, SignUpShape[2].1, v) == PasswordIssues(v)
  {
    var str := Str(None, [Regex(MiddleStrengthPattern, None)]);
    if !v.JNull? && !v.JUndefined? {
      assert FieldIssues(g, SignUpShape[2].1, v) == FieldIssues(g, str, v);
      if v.JString? {
        SingleCheck(g, Regex(MiddleStrengthPattern, None), v.s);
      }
    }
  }

  /** The declared schema and the field rules agree. */
  lemma SignUpShapeMeansRules(g: Grammars, f: map<string, JsValue>)
    ensures ShapeViolations(g, SignUpShape, f) == SignUpViolations(g, f)
    ensures DeclaredKeys(SignUpShape) == {"fullName", "email", "password"}
  {
    FullNameRule(g, Lookup(f, "fullName"));
    EmailRule(g, Lookup(f, "email"));
    PasswordRule(g, Lookup(f, "password"));
    ShapeViolationsOfThree(g, SignUpShape, f);
    assert SignUpShape[0].0 == "fullName" && SignUpShape[1].0 == "email" && SignUpShape[2].0 == "password";
  }

  /** `signUpValidator.safeParse(input)`. */
  function SignUp(g: Grammars, input: JsValue): (r: Outcome)
    ensures !input.JObject? ==> r == Rejected([NotAnObject])
    ensures input.JObject? ==> (r.Accepted? <==> SignUpViolations(g, input.fields) == [])
    ensures input.JObject? && r.Rejected? ==> r.violations == SignUpViolations(g, input.fields)
    ensures r.Accepted? ==> r.record.Keys == input.fields.Keys * {"fullName", "email", "password"}
    ensures r.Accepted? ==> forall k :: k in r.record ==> r.record[k] == input.fields[k]
  {
    SignUpShapeMeansRules(g, if input.JObject? then input.fields else map[]);
    ParseObject(g, SignUpShape, input)
  }

  // ---------------------------------------------------------------------------
  // Per-field consequences
  // ---------------------------------------------------------------------------

  /** Whatever the input object, each field is reported with exactly its rule's issues. */
  lemma SignUpReportedByField(g: Grammars, f: map<string, JsValue>)
    ensures Reported(SignUp(g, JObject(f)), "fullName") == FullNameIssues(Lookup(f, "fullName"))
    ensures Reported(SignUp(g, JObject(f)), "email") == EmailIssues(g, Lookup(f, "email"))
    ensures Reported(SignUp(g, JObject(f)), "password") == PasswordIssues(Lookup(f, "password"))
  {
    IssuesAtOfThree(
      "fullName", FullNameIssues(Lookup(f, "fullName")),
      "email", EmailIssues(g, Lookup(f, "email")),
      "password", PasswordIssues(Lookup(f, "password")));
  }

  /** A missing or string `fullName` is never reported. */
  lemma FullNameNeverReported(g: Grammars, f: map<string, JsValue>)
    requires "fullName" !in f || f["fullName"].JString?
    ensures Reported(SignUp(g, JObject(f)), "fullName") == []
  {
    SignUpReportedByField(g, f);
  }

  /** A missing `email` is reported, with `RequiredField` and nothing else. */
  lemma MissingEmailRequired(g: Grammars, f: map<string, JsValue>)
    requires "email" !in f
    ensures SignUp(g, JObject(f)).Rejected?
    ensures Reported(SignUp(g, JObject(f)), "email") == [Issue(InvalidType, Custom(RequiredField))]
  {
    SignUpReportedByField(g, f);
  }

  /** An `email` outside the email grammar is reported with `InvalidEmail` and nothing else. */
  lemma MalformedEmailReported(g: Grammars, f: map<string, JsValue>, s: JsString)
    requires "email" in f && f["email"] == JString(s) && !g.isEmail(s)
    ensures SignUp(g, JObject(f)).Rejected?
    ensures Reported(SignUp(g, JObject(f)), "email") == [Issue(InvalidString, Custom(InvalidEmail))]
  {
    SignUpReportedByField(g, f);
  }

  /** A missing, `undefined` or `null` password is never reported. */
  lemma AbsentPasswordAccepted(g: Grammars, f: map<string, JsValue>)
    requires "password" !in f || f["password"] == JNull || f["password"] == JUndefined
    ensures Reported(SignUp(g, JObject(f)), "password") == []
  {
    SignUpReportedByField(g, f);
  }

  /**
    A string password is reported iff the regular expression, read literally,
    rejects it; the report then carries the library's default message.
   */
  lemma PasswordFollowsPattern(g: Grammars, f: map<string, JsValue>, s: JsString)
    requires "password" in f && f["password"] == JString(s)
    ensures Reported(SignUp(g, JObject(f)), "password") == [] <==> PasswordPatterns.RegexTest(s)
    ensures !PasswordPatterns.RegexTest(s) ==>
      Reported(SignUp(g, JObject(f)), "password") == [Issue(InvalidString, LibraryDefault)]
  {
    SignUpReportedByField(g, f);
    PasswordPatterns.RegexTestIffMiddleStrength(s);
  }

  /** A valid email and a password meeting the counting reading leave no field reported. */
  lemma WellFormedSignUpPasses(g: Grammars, email: JsString, pw: JsString, extra: JsValue)
    requires g.isEmail(email) && PasswordPatterns.MiddleStrength(pw)
    ensures SignUp(g, JObject(map["email" := JString(email), "password" := JString(pw), "role" := extra])).Accepted?
  {
    var input := map["email" := JString(email), "password" := JString(pw), "role" := extra];
    assert Lookup(input, "fullName") == JUndefined;
    assert Lookup(input, "email") == JString(email);
    assert Lookup(input, "password") == JString(pw);
    assert SignUpViolations(g, input) == [];
  }

  /** An accepted sign-up carrying an undeclared `role` key comes back without it. */
  lemma AcceptedSignUpDropsRole(g: Grammars, email: JsString, pw: JsString, extra: JsValue)
    requires SignUp(g, JObject(map["email" := JString(email), "password" := JString(pw), "role" := extra])).Accepted?
    ensures SignUp(g, JObject(map["email" := JString(email), "password" := JString(pw), "role" := extra]))
         == Accepted(map["email" := JString(email), "password" := JString(pw)])
  {
    var input := map["email" := JString(email), "password" := JString(pw), "role" := extra];
    var r := SignUp(g, JObject(input));
    assert input.Keys * {"fullName", "email", "password"} == {"email", "password"};
    assert r.record.Keys == {"email", "password"};
  }

  /** A valid email and a password the pattern accepts make a sign-up accepted, extra keys stripped. */
  lemma WellFormedSignUpAccepted(g: Grammars, email: JsString, pw: JsString, extra: JsValue)
    requires g.isEmail(email) && PasswordPatterns.RegexTest(pw)
    ensures SignUp(g, JObject(map["email" := JString(email), "password" := JString(pw), "role" := extra]))
         == Accepted(map["email" := JString(email), "password" := JString(pw)])
  {
    PasswordPatterns.RegexTestIffMiddleStrength(pw);
    WellFormedSignUpPasses(g, email, pw, extra);
    AcceptedSignUpDropsRole(g, email, pw, extra);
  }

  /** The same with the shortest password the pattern admits. */
  lemma SignUpExample(g: Grammars, email: JsString, extra: JsValue)
    requires g.isEmail(email)
    ensures SignUp(g, JObject(map["email" := JString(email), "password" := JString(Utf16("Aa1!aaaa")), "role" := extra]))
         == Accepted(map["email" := JString(email), "password" := JString(Utf16("Aa1!aaaa"))])
  {
    PasswordPatterns.ShortestAccepted();
    WellFormedSignUpAccepted(g, email, Utf16("Aa1!aaaa"), extra);
  }
}
