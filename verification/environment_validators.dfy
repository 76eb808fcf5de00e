/**
  The environment validators: `createEnvironmentValidator` (name, application
  URL, project), `updateAuthSettingsValidator` (token lifetimes and the
  authentication provider) and `updateGeneralSettingsValidator` (name only).
  The members of the ORM's `AuthProviders` enumeration are a parameter: the
  results hold for any finite set of provider names.
 */
module EnvironmentValidators {
  import opened Wrappers
  import opened JsStrings
  import opened ErrorsMetadata
  import opened Zod

  const CreateEnvironmentShape: Shape := [
    ("name", Str(Some(RequiredField), [Max(25, Some(MaxLength))])),
    ("appURL", Str(Some(RequiredField), [Url(None)])),
    ("projectId", Str(Some(RequiredField), []))
  ]

  function UpdateAuthSettingsShape(authProviders: set<JsString>): Shape {
    [
      ("tokenExpiration", Str(None, [])),
      ("refreshTokenExpiration", Nullable(Optional(Str(None, [])))),
      ("authProvider", NativeEnum(authProviders))
    ]
  }

  const UpdateGeneralSettingsShape: Shape := [
    ("name", Str(Some(RequiredField), [Max(25, Some(MaxLength))]))
  ]

  // The rule for each field, stated directly on the field's value.

  /** `name`: required, with `RequiredField`; at most 25 code units, with `MaxLength`. */
  function NameIssues(v: JsValue): seq<Issue> {
    match v
    case JUndefined => [Issue(InvalidType, Custom(RequiredField))]
    case JString(s) => if |s| > 25 then [Issue(TooBig, Custom(MaxLength))] else []
    case _ => [Issue(InvalidType, LibraryDefault)]
  }

  /** `appURL`: required, with `RequiredField`; in URL form, with the library's message. */
  function AppUrlIssues(g: Grammars, v: JsValue): seq<Issue> {
    match v
    case JUndefined => [Issue(InvalidType, Custom(RequiredField))]
    case JString(s) => if g.isUrl(s) then [] else [Issue(InvalidString, LibraryDefault)]
    case _ => [Issue(InvalidType, LibraryDefault)]
  }

  /** `projectId`: required, with `RequiredField`; any string, the empty one included. */
  function ProjectIdIssues(v: JsValue): seq<Issue> {
    match v
    case JUndefined => [Issue(InvalidType, Custom(RequiredField))]
    case JString(_) => []
    case _ => [Issue(InvalidType, LibraryDefault)]
  }

  /** `tokenExpiration`: any string; missing is reported with the library's message. */
  function TokenExpirationIssues(v: JsValue): seq<Issue> {
    if v.JString? then [] else [Issue(InvalidType, LibraryDefault)]
  }

  /** `refreshTokenExpiration`: missing, `null` or any string. */
  function RefreshTokenExpirationIssues(v: JsValue): seq<Issue> {
    if v.JUndefined? || v.JNull? || v.JString? then [] else [Issue(InvalidType, LibraryDefault)]
  }

  /** `authProvider`: one of the provider names. */
  function AuthProviderIssues(authProviders: set<JsString>, v: JsValue): seq<Issue> {
    match v
    case JString(s) => if s in authProviders then [] else [Issue(InvalidEnumValue, LibraryDefault)]
    case JNumber => [Issue(InvalidEnumValue, LibraryDefault)]
    case _ => [Issue(InvalidType, LibraryDefault)]
  }

  function CreateEnvironmentViolations(g: Grammars, f: map<string, JsValue>): seq<Violation> {
    AtKey("name", NameIssues(Lookup(f, "name")))
    + AtKey("appURL", AppUrlIssues(g, Lookup(f, "appURL")))
    + AtKey("projectId", ProjectIdIssues(Lookup(f, "projectId")))
  }

  function UpdateAuthSettingsViolations(authProviders: set<JsString>, f: map<string, JsValue>): seq<Violation> {
    AtKey("tokenExpiration", TokenExpirationIssues(Lookup(f, "tokenExpiration")))
    + AtKey("refreshTokenExpiration", RefreshTokenExpirationIssues(Lookup(f, "refreshTokenExpiration")))
    + AtKey("authProvider", AuthProviderIssues(authProviders, Lookup(f, "authProvider")))
  }

  // The declared schemas mean the field rules.

  lemma NameRule(g: Grammars, schema: Schema, v: JsValue)
    requires schema == Str(Some(RequiredField), [Max(25, Some(MaxLength))])
    ensures FieldIssues(g, schema, v) == NameIssues(v)
  {
    if v.JString? {
      SingleCheck(g, Max(25, Some(MaxLength)), v.s);
    }
  }

  lemma AppUrlRule(g: Grammars, v: JsValue)
    ensures FieldIssues(g, CreateEnvironmentShape[1].1, v) == AppUrlIssues(g, v)
  {
    if v.JString? {
      SingleCheck(g, Url(None), v.s);
    }
  }

  lemma TokenExpirationRule(g: Grammars, authProviders: set<JsString>, v: JsValue)
    ensures FieldIssues(g, UpdateAuthSettingsShape(authProviders)[0].1, v) == TokenExpirationIssues(v)
  {
  }

  lemma RefreshTokenExpirationRule(g: Grammars, authProviders: set<JsString>, v: JsValue)
    ensures FieldIssues(g, UpdateAuthSettingsShape(authProviders)[1].1, v) == RefreshTokenExpirationIssues(v)
  {
    if !v.JNull? && !v.JUndefined? {
      assert FieldIssues(g, UpdateAuthSettingsShape(authProviders)[1].1, v) == FieldIssues(g, Str(None, []), v);
    }
  }

  lemma AuthProviderRule(g: Grammars, authProviders: set<JsString>, v: JsValue)
    ensures FieldIssues(g, UpdateAuthSettingsShape(authProviders)[2].1, v) == AuthProviderIssues(authProviders, v)
  {
  }

  lemma CreateEnvironmentShapeMeansRules(g: Grammars, f: map<string, JsValue>)
    ensures ShapeViolations(g, CreateEnvironmentShape, f) == CreateEnvironmentViolations(g, f)
    ensures DeclaredKeys(CreateEnvironmentShape) == {"name", "appURL", "projectId"}
  {
    NameRule(g, CreateEnvironmentShape[0].1, Lookup(f, "name"));
    AppUrlRule(g, Lookup(f, "appURL"));
    ShapeViolationsOfThree(g, CreateEnvironmentShape, f);
  }

  lemma UpdateAuthSettingsShapeMeansRules(g: Grammars, authProviders: set<JsString>, f: map<string, JsValue>)
    ensures ShapeViolations(g, UpdateAuthSettingsShape(authProviders), f) == UpdateAuthSettingsViolations(authProviders, f)
    ensures DeclaredKeys(UpdateAuthSettingsShape(authProviders)) == {"tokenExpiration", "refreshTokenExpiration", "authProvider"}
  {
    var shape := UpdateAuthSettingsShape(authProviders);
    assert shape[0].0 == "tokenExpiration" && shape[1].0 == "refreshTokenExpiration" && shape[2].0 == "authProvider";
    TokenExpirationRule(g, authProviders, Lookup(f, "tokenExpiration"));
    RefreshTokenExpirationRule(g, authProviders, Lookup(f, "refreshTokenExpiration"));
    AuthProviderRule(g, authProviders, Lookup(f, "authProvider"));
    ShapeViolationsOfThree(g, shape, f);
  }

  lemma UpdateGeneralSettingsShapeMeansRules(g: Grammars, f: map<string, JsValue>)
    ensures ShapeViolations(g, UpdateGeneralSettingsShape, f) == AtKey("name", NameIssues(Lookup(f, "name")))
    ensures DeclaredKeys(UpdateGeneralSettingsShape) == {"name"}
  {
    NameRule(g, UpdateGeneralSettingsShape[0].1, Lookup(f, "name"));
    ShapeViolationsOfOne(g, UpdateGeneralSettingsShape, f);
  }

  // ---------------------------------------------------------------------------
  // The validators
  // ---------------------------------------------------------------------------

  /** `createEnvironmentValidator.safeParse(input)`. */
  function CreateEnvironment(g: Grammars, input: JsValue): (r: Outcome)
    ensures !input.JObject? ==> r == Rejected([NotAnObject])
    ensures input.JObject? ==> (r.Accepted? <==> CreateEnvironmentViolations(g, input.fields) == [])
    ensures input.JObject? && r.Rejected? ==> r.violations == CreateEnvironmentViolations(g, input.fields)
    ensures r.Accepted? ==> r.record.Keys == input.fields.Keys * {"name", "appURL", "projectId"}
    ensures r.Accepted? ==> forall k :: k in r.record ==> r.record[k] == input.fields[k]
  {
    CreateEnvironmentShapeMeansRules(g, if input.JObject? then input.fields else map[]);
    ParseObject(g, CreateEnvironmentShape, input)
  }

  /** `updateAuthSettingsValidator.safeParse(input)`. */
  function UpdateAuthSettings(g: Grammars, authProviders: set<JsString>, input: JsValue): (r: Outcome)
    ensures !input.JObject? ==> r == Rejected([NotAnObject])
    ensures input.JObject? ==> (r.Accepted? <==> UpdateAuthSettingsViolations(authProviders, input.fields) == [])
    ensures input.JObject? && r.Rejected? ==> r.violations == UpdateAuthSettingsViolations(authProviders, input.fields)
    ensures r.Accepted? ==> r.record.Keys == input.fields.Keys * {"tokenExpiration", "refreshTokenExpiration", "authProvider"}
    ensures r.Accepted? ==> forall k :: k in r.record ==> r.record[k] == input.fields[k]
  {
    UpdateAuthSettingsShapeMeansRules(g, authProviders, if input.JObject? then input.fields else map[]);
    ParseObject(g, UpdateAuthSettingsShape(authProviders), input)
  }

  /** `updateGeneralSettingsValidator.safeParse(input)`. */
  function UpdateGeneralSettings(g: Grammars, input: JsValue): (r: Outcome)
    ensures !input.JObject? ==> r == Rejected([NotAnObject])
    ensures input.JObject? ==> (r.Accepted? <==> NameIssues(Lookup(input.fields, "name")) == [])
    ensures input.JObject? && r.Rejected? ==> r.violations == AtKey("name", NameIssues(Lookup(input.fields, "name")))
    ensures r.Accepted? ==> r.record.Keys == input.fields.Keys * {"name"}
    ensures r.Accepted? ==> forall k :: k in r.record ==> r.record[k] == input.fields[k]
  {
    UpdateGeneralSettingsShapeMeansRules(g, if input.JObject? then input.fields else map[]);
    ParseObject(g, UpdateGeneralSettingsShape, input)
  }

  // ---------------------------------------------------------------------------
  // Per-field consequences
  // ---------------------------------------------------------------------------

  lemma CreateEnvironmentReportedByField(g: Grammars, f: map<string, JsValue>)
    ensures Reported(CreateEnvironment(g, JObject(f)), "name") == NameIssues(Lookup(f, "name"))
    ensures Reported(CreateEnvironment(g, JObject(f)), "appURL") == AppUrlIssues(g, Lookup(f, "appURL"))
    ensures Reported(CreateEnvironment(g, JObject(f)), "projectId") == ProjectIdIssues(Lookup(f, "projectId"))
  {
    IssuesAtOfThree(
      "name", NameIssues(Lookup(f, "name")),
      "appURL", AppUrlIssues(g, Lookup(f, "appURL")),
      "projectId", ProjectIdIssues(Lookup(f, "projectId")));
  }

  lemma UpdateAuthSettingsReportedByField(g: Grammars, authProviders: set<JsString>, f: map<string, JsValue>)
    ensures Reported(UpdateAuthSettings(g, authProviders, JObject(f)), "tokenExpiration")
         == TokenExpirationIssues(Lookup(f, "tokenExpiration"))
    ensures Reported(UpdateAuthSettings(g, authProviders, JObject(f)), "refreshTokenExpiration")
         == RefreshTokenExpirationIssues(Lookup(f, "refreshTokenExpiration"))
    ensures Reported(UpdateAuthSettings(g, authProviders, JObject(f)), "authProvider")
         == AuthProviderIssues(authProviders, Lookup(f, "authProvider"))
  {
    IssuesAtOfThree(
      "tokenExpiration", TokenExpirationIssues(Lookup(f, "tokenExpiration")),
      "refreshTokenExpiration", RefreshTokenExpirationIssues(Lookup(f, "refreshTokenExpiration")),
      "authProvider", AuthProviderIssues(authProviders, Lookup(f, "authProvider")));
  }

  /** A string `name` is reported iff it is longer than 25 code units, and then with `MaxLength`. */
  lemma NameMaxLength(g: Grammars, f: map<string, JsValue>, s: JsString)
    requires "name" in f && f["name"] == JString(s)
    ensures Reported(CreateEnvironment(g, JObject(f)), "name") == [] <==> |s| <= 25
    ensures |s| > 25 ==> Reported(CreateEnvironment(g, JObject(f)), "name") == [Issue(TooBig, Custom(MaxLength))]
  {
    CreateEnvironmentReportedByField(g, f);
  }

  /** Each missing field of a new environment is reported with `RequiredField`. */
  lemma MissingEnvironmentFieldsRequired(g: Grammars, f: map<string, JsValue>, key: string)
    requires key in {"name", "appURL", "projectId"} && key !in f
    ensures CreateEnvironment(g, JObject(f)).Rejected?
    ensures Reported(CreateEnvironment(g, JObject(f)), key) == [Issue(InvalidType, Custom(RequiredField))]
  {
    CreateEnvironmentReportedByField(g, f);
  }

  /** `projectId` takes any string, the empty one too. */
  lemma ProjectIdAnyString(g: Grammars, f: map<string, JsValue>, s: JsString)
    requires "projectId" in f && f["projectId"] == JString(s)
    ensures Reported(CreateEnvironment(g, JObject(f)), "projectId") == []
  {
    CreateEnvironmentReportedByField(g, f);
  }

  /** A string `appURL` is reported iff it is outside the URL grammar. */
  lemma AppUrlFollowsGrammar(g: Grammars, f: map<string, JsValue>, s: JsString)
    requires "appURL" in f && f["appURL"] == JString(s)
    ensures Reported(CreateEnvironment(g, JObject(f)), "appURL") == [] <==> g.isUrl(s)
  {
    CreateEnvironmentReportedByField(g, f);
  }

  /** `refreshTokenExpiration` may be missing or `null`; `tokenExpiration` may not. */
  lemma TokenExpirationRules(g: Grammars, authProviders: set<JsString>, f: map<string, JsValue>)
    ensures "refreshTokenExpiration" !in f || f["refreshTokenExpiration"] == JNull ==>
      Reported(UpdateAuthSettings(g, authProviders, JObject(f)), "refreshTokenExpiration") == []
    ensures Reported(UpdateAuthSettings(g, authProviders, JObject(f)), "tokenExpiration") == []
        <==> "tokenExpiration" in f && f["tokenExpiration"].JString?
  {
    UpdateAuthSettingsReportedByField(g, authProviders, f);
  }

  /** A string `authProvider` is accepted iff it names a provider. */
  lemma AuthProviderMembership(g: Grammars, authProviders: set<JsString>, f: map<string, JsValue>, s: JsString)
    requires "authProvider" in f && f["authProvider"] == JString(s)
    ensures Reported(UpdateAuthSettings(g, authProviders, JObject(f)), "authProvider") == [] <==> s in authProviders
  {
    UpdateAuthSettingsReportedByField(g, authProviders, f);
  }

  /** The general-settings update judges `name` exactly as environment creation does. */
  lemma SameNameRule(g: Grammars, f: map<string, JsValue>)
    ensures Reported(UpdateGeneralSettings(g, JObject(f)), "name") == Reported(CreateEnvironment(g, JObject(f)), "name")
    ensures UpdateGeneralSettings(g, JObject(f)).Accepted? <==> Reported(CreateEnvironment(g, JObject(f)), "name") == []
  {
    CreateEnvironmentReportedByField(g, f);
    var r := UpdateGeneralSettings(g, JObject(f));
    if r.Rejected? {
      IssuesAtAtKey("name", NameIssues(Lookup(f, "name")), "name");
    }
  }

  /** Twenty-five `a`s make an acceptable name. */
  lemma TwentyFiveLettersAccepted(g: Grammars)
    ensures UpdateGeneralSettings(g, JObject(map["name" := JString(seq(25, _ => 0x61 as CodeUnit))])).Accepted?
  {
    var name := seq(25, _ => 0x61 as CodeUnit);
    var f := map["name" := JString(name)];
    SameNameRule(g, f);
    NameMaxLength(g, f, name);
  }

  /** A name written inside the Basic Multilingual Plane, accents included, is accepted iff it has at most 25 characters. */
  lemma BmpNameLimit(g: Grammars, text: string)
    requires forall i :: 0 <= i < |text| ==> (text[i] as int) < 0x1_0000
    ensures UpdateGeneralSettings(g, JObject(map["name" := JString(Utf16(text))])).Accepted? <==> |text| <= 25
  {
    Utf16BmpLength(text);
    var name := Utf16(text);
    var f := map["name" := JString(name)];
    SameNameRule(g, f);
    NameMaxLength(g, f, name);
  }

  /** Thirteen emoji are 26 code units, one too many for a name. */
  lemma ThirteenEmojiRejected(g: Grammars)
    ensures Reported(UpdateGeneralSettings(g, JObject(map["name" := JString(Utf16("\U{1F600}\U{1F600}\U{1F600}\U{1F600}\U{1F600}\U{1F600}\U{1F600}\U{1F600}\U{1F600}\U{1F600}\U{1F600}\U{1F600}\U{1F600}"))])), "name")
         == [Issue(TooBig, Custom(MaxLength))]
  {
    var text := "\U{1F600}\U{1F600}\U{1F600}\U{1F600}\U{1F600}\U{1F600}\U{1F600}\U{1F600}\U{1F600}\U{1F600}\U{1F600}\U{1F600}\U{1F600}";
    assert |text| == 13;
    Utf16AstralLength(text);
    var name := Utf16(text);
    assert |name| == 26;
    var f := map["name" := JString(name)];
    SameNameRule(g, f);
    NameMaxLength(g, f, name);
  }
}
