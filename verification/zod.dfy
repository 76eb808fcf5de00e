/**
  The part of the zod schema library the validators use, as a small schema
  language with its parsing semantics:

  - `z.string(params)` followed by `.max(n, msg)`, `.email(opts)`, `.url()` and
    `.regex(re)` checks;
  - `.optional()`, `.nullable()` and `z.nativeEnum(E)`;
  - `z.object(shape)` with its default unknown-key policy, which strips keys
    the shape does not declare.

  `safeParse` either returns the parsed object or the list of issues, each
  with a path, an issue code and a message. A string failing its type check
  reports one issue and runs no checks; otherwise every check runs and each
  failing one adds an issue. Custom messages are `ErrorMessages` members; the
  library's own default texts are kept opaque as `LibraryDefault`.
 */
module Zod {
  import opened Wrappers
  import opened JsStrings
  import opened ErrorsMetadata
  import PasswordPatterns

  /** A JavaScript value as it arrives in a request body. */
  datatype JsValue =
    | JUndefined
    | JNull
    | JString(s: JsString)
    /** A number; no schema here looks at its value. */
    | JNumber
    /** Booleans, arrays and everything else no schema here tells apart. */
    | JOther
    | JObject(fields: map<string, JsValue>)

  /**
    The grammars behind `.email()` and `.url()`. Their definitions belong to
    the library and are not part of this model, so every result below holds
    for any choice of them.
   */
  datatype Grammars = Grammars(isEmail: JsString -> bool, isUrl: JsString -> bool)

  /** The regular expressions of `passwordPatterns`. */
  datatype Pattern = MiddleStrengthPattern

  /** `re.test(s)`. */
  predicate PatternTest(p: Pattern, s: JsString) {
    match p
    case MiddleStrengthPattern => PasswordPatterns.MiddleStrength(s)
  }

  /** A check chained on `z.string()`, with its custom message if one was given. */
  datatype Check =
    | Max(limit: nat, message: Option<ErrorMessage>)
    | Email(message: Option<ErrorMessage>)
    | Url(message: Option<ErrorMessage>)
    | Regex(pattern: Pattern, message: Option<ErrorMessage>)

  /** A field schema. `Str`'s `requiredError` is the `required_error` parameter. */
  datatype Schema =
    | Str(requiredError: Option<ErrorMessage>, checks: seq<Check>)
    | Optional(inner: Schema)
    | Nullable(inner: Schema)
    | NativeEnum(members: set<JsString>)

  /** The shape of a `z.object`: field names with their schemas, in declaration order. */
  type Shape = seq<(string, Schema)>

  /** zod's issue codes that these schemas can raise. */
  datatype IssueCode = InvalidType | TooBig | InvalidString | InvalidEnumValue

  datatype IssueMessage = Custom(message: ErrorMessage) | LibraryDefault

  datatype Issue = Issue(code: IssueCode, message: IssueMessage)

  /** An issue together with the path of the offending value. */
  datatype Violation = Violation(path: seq<string>, issue: Issue)

  /** The result of `safeParse` on an object schema. */
  datatype Outcome = Accepted(record: map<string, JsValue>) | Rejected(violations: seq<Violation>)

  function MessageOr(m: Option<ErrorMessage>): IssueMessage {
    match m
    case Some(e) => Custom(e)
    case None => LibraryDefault
  }

  /** Whether the string `s` passes check `c`; `.max` counts UTF-16 code units. */
  predicate Passes(g: Grammars, c: Check, s: JsString) {
    match c
    case Max(limit, _) => |s| <= limit
    case Email(_) => g.isEmail(s)
    case Url(_) => g.isUrl(s)
    case Regex(p, _) => PatternTest(p, s)
  }

  /** The issue a failing check reports. */
  function FailureIssue(c: Check): Issue {
    match c
    case Max(_, m) => Issue(TooBig, MessageOr(m))
    case Email(m) => Issue(InvalidString, MessageOr(m))
    case Url(m) => Issue(InvalidString, MessageOr(m))
    case Regex(_, m) => Issue(InvalidString, MessageOr(m))
  }

  /** Runs every check on `s`, in order, collecting the issues of the failing ones. */
  function CheckIssues(g: Grammars, checks: seq<Check>, s: JsString): (r: seq<Issue>)
    ensures |r| <= |checks|
    ensures r == [] <==> forall i :: 0 <= i < |checks| ==> Passes(g, checks[i], s)
    ensures forall i :: 0 <= i < |checks| && !Passes(g, checks[i], s) ==> FailureIssue(checks[i]) in r
    ensures forall x :: x in r ==> exists i :: 0 <= i < |checks| && !Passes(g, checks[i], s) && x == FailureIssue(checks[i])
  {
    if checks == [] then []
    else
      var rest := CheckIssues(g, checks[1..], s);
      assert forall i :: 1 <= i < |checks| ==> checks[i] == checks[1..][i - 1];
      (if Passes(g, checks[0], s) then [] else [FailureIssue(checks[0])]) + rest
  }

  /** The issues one field's value raises under its schema. */
  function FieldIssues(g: Grammars, schema: Schema, v: JsValue): seq<Issue> {
    match schema
    case Optional(inner) => if v.JUndefined? then [] else FieldIssues(g, inner, v)
    case Nullable(inner) => if v.JNull? then [] else FieldIssues(g, inner, v)
    case NativeEnum(members) =>
      if v.JString? then (if v.s in members then [] else [Issue(InvalidEnumValue, LibraryDefault)])
      else if v.JNumber? then [Issue(InvalidEnumValue, LibraryDefault)]
      else [Issue(InvalidType, LibraryDefault)]
    case Str(requiredError, checks) =>
      if v.JUndefined? then [Issue(InvalidType, MessageOr(requiredError))]
      else if v.JString? then CheckIssues(g, checks, v.s)
      else [Issue(InvalidType, LibraryDefault)]
  }

  /** Reading a missing key gives `undefined`. */
  function Lookup(fields: map<string, JsValue>, key: string): JsValue {
    if key in fields then fields[key] else JUndefined
  }

  /** The issues `issues`, each reported at the path `[key]`. */
  function AtKey(key: string, issues: seq<Issue>): (r: seq<Violation>)
    ensures |r| == |issues|
    ensures forall i :: 0 <= i < |r| ==> r[i].path == [key] && r[i].issue == issues[i]
  {
    seq(|issues|, i requires 0 <= i < |issues| => Violation([key], issues[i]))
  }

  /** Running a list of checks is running its two halves one after the other. */
  lemma {:induction false} CheckIssuesAppend(g: Grammars, a: seq<Check>, b: seq<Check>, s: JsString)
    ensures CheckIssues(g, a + b, s) == CheckIssues(g, a, s) + CheckIssues(g, b, s)
  {
    if a == [] {
      assert a + b == b;
    } else {
      var head := if Passes(g, a[0], s) then [] else [FailureIssue(a[0])];
      assert (a + b)[0] == a[0];
      assert (a + b)[1..] == a[1..] + b;
      CheckIssuesAppend(g, a[1..], b, s);
      calc {
        CheckIssues(g, a + b, s);
        head + CheckIssues(g, a[1..] + b, s);
        head + (CheckIssues(g, a[1..], s) + CheckIssues(g, b, s));
        (head + CheckIssues(g, a[1..], s)) + CheckIssues(g, b, s);
        CheckIssues(g, a, s) + CheckIssues(g, b, s);
      }
    }
  }

  /** The field names a shape declares. */
  function DeclaredKeys(shape: Shape): set<string> {
    set i | 0 <= i < |shape| :: shape[i].0
  }

  /** Every declared field's issues, field by field in declaration order. */
  function ShapeViolations(g: Grammars, shape: Shape, fields: map<string, JsValue>): (r: seq<Violation>)
    ensures r == [] <==> forall i :: 0 <= i < |shape| ==> FieldIssues(g, shape[i].1, Lookup(fields, shape[i].0)) == []
    ensures forall x :: x in r ==> |x.path| == 1 && x.path[0] in DeclaredKeys(shape)
  {
    if shape == [] then []
    else
      var rest := ShapeViolations(g, shape[1..], fields);
      assert forall i :: 1 <= i < |shape| ==> shape[i] == shape[1..][i - 1];
      assert DeclaredKeys(shape[1..]) <= DeclaredKeys(shape) by {
        forall k | k in DeclaredKeys(shape[1..])
          ensures k in DeclaredKeys(shape)
        {
          var i :| 0 <= i < |shape[1..]| && shape[1..][i].0 == k;
          assert shape[i + 1].0 == k;
        }
      }
      AtKey(shape[0].0, FieldIssues(g, shape[0].1, Lookup(fields, shape[0].0))) + rest
  }

  /** The input restricted to the declared keys: `z.object` drops the others. */
  function Strip(shape: Shape, fields: map<string, JsValue>): (r: map<string, JsValue>)
    ensures r.Keys == fields.Keys * DeclaredKeys(shape)
    ensures forall k :: k in r ==> r[k] == fields[k]
  {
    map k | k in fields && k in DeclaredKeys(shape) :: fields[k]
  }

  /** Stripping an already stripped record changes nothing. */
  lemma StripIdempotent(shape: Shape, fields: map<string, JsValue>)
    ensures Strip(shape, Strip(shape, fields)) == Strip(shape, fields)
  {
  }

  /** Stripping forgets any undeclared key, whatever its value. */
  lemma StripIgnoresUndeclared(shape: Shape, fields: map<string, JsValue>, k: string, v: JsValue)
    requires k !in DeclaredKeys(shape)
    ensures Strip(shape, fields[k := v]) == Strip(shape, fields)
    ensures Strip(shape, fields - {k}) == Strip(shape, fields)
  {
  }

  /** Stripping keeps a declared key's new value. */
  lemma StripKeepsDeclared(shape: Shape, fields: map<string, JsValue>, k: string, v: JsValue)
    requires k in DeclaredKeys(shape)
    ensures Strip(shape, fields[k := v]) == Strip(shape, fields)[k := v]
  {
  }

  /** The violation for an input that is not an object at all. */
  const NotAnObject: Violation := Violation([], Issue(InvalidType, LibraryDefault))

  /** `z.object(shape).safeParse(input)`. */
  function ParseObject(g: Grammars, shape: Shape, input: JsValue): (r: Outcome)
    ensures r.Accepted? <==> input.JObject? && forall i :: 0 <= i < |shape| ==> FieldIssues(g, shape[i].1, Lookup(input.fields, shape[i].0)) == []
    ensures r.Accepted? ==> r.record.Keys == input.fields.Keys * DeclaredKeys(shape)
    ensures r.Accepted? ==> forall k :: k in r.record ==> r.record[k] == input.fields[k]
    ensures r.Rejected? ==> r.violations != []
  {
    if !input.JObject? then Rejected([NotAnObject])
    else
      var vs := ShapeViolations(g, shape, input.fields);
      if vs == [] then Accepted(Strip(shape, input.fields)) else Rejected(vs)
  }

  /** One check reports its issue exactly when it fails. */
  lemma SingleCheck(g: Grammars, c: Check, s: JsString)
    ensures CheckIssues(g, [c], s) == if Passes(g, c, s) then [] else [FailureIssue(c)]
  {
    assert [c][1..] == [];
  }

  /** A one-field shape reports that field's issues. */
  lemma ShapeViolationsOfOne(g: Grammars, shape: Shape, fields: map<string, JsValue>)
    requires |shape| == 1
    ensures ShapeViolations(g, shape, fields) == AtKey(shape[0].0, FieldIssues(g, shape[0].1, Lookup(fields, shape[0].0)))
    ensures DeclaredKeys(shape) == {shape[0].0}
  {
    assert shape[1..] == [];
  }

  /** A three-field shape reports the fields' issues in declaration order. */
  lemma ShapeViolationsOfThree(g: Grammars, shape: Shape, fields: map<string, JsValue>)
    requires |shape| == 3
    ensures ShapeViolations(g, shape, fields)
         == AtKey(shape[0].0, FieldIssues(g, shape[0].1, Lookup(fields, shape[0].0)))
          + AtKey(shape[1].0, FieldIssues(g, shape[1].1, Lookup(fields, shape[1].0)))
          + AtKey(shape[2].0, FieldIssues(g, shape[2].1, Lookup(fields, shape[2].0)))
    ensures DeclaredKeys(shape) == {shape[0].0, shape[1].0, shape[2].0}
  {
    var tail := shape[1..];
    assert tail[0] == shape[1] && tail[1] == shape[2];
    ShapeViolationsOfOne(g, tail[1..], fields);
    assert tail[1..][0] == shape[2];
    assert ShapeViolations(g, tail, fields)
        == AtKey(shape[1].0, FieldIssues(g, shape[1].1, Lookup(fields, shape[1].0))) + ShapeViolations(g, tail[1..], fields);
    DeclaredKeysOfThree(shape);
  }

  lemma DeclaredKeysOfThree(shape: Shape)
    requires |shape| == 3
    ensures DeclaredKeys(shape) == {shape[0].0, shape[1].0, shape[2].0}
  {
    forall k | k in DeclaredKeys(shape)
      ensures k in {shape[0].0, shape[1].0, shape[2].0}
    {
      var i :| 0 <= i < 3 && shape[i].0 == k;
    }
  }

  // ---------------------------------------------------------------------------
  // Reading violations back by field
  // ---------------------------------------------------------------------------

  /** The issues a violation list reports at the path `[key]`, in order. */
  function IssuesAt(vs: seq<Violation>, key: string): seq<Issue> {
    if vs == [] then []
    else (if vs[0].path == [key] then [vs[0].issue] else []) + IssuesAt(vs[1..], key)
  }

  /** The issues an outcome reports for field `key`; none when it is accepted. */
  function Reported(r: Outcome, key: string): seq<Issue> {
    match r
    case Accepted(_) => []
    case Rejected(vs) => IssuesAt(vs, key)
  }

  lemma {:induction false} IssuesAtAppend(a: seq<Violation>, b: seq<Violation>, key: string)
    ensures IssuesAt(a + b, key) == IssuesAt(a, key) + IssuesAt(b, key)
  {
    if a == [] {
      assert a + b == b;
    } else {
      var head := if a[0].path == [key] then [a[0].issue] else [];
      assert (a + b)[0] == a[0];
      assert (a + b)[1..] == a[1..] + b;
      IssuesAtAppend(a[1..], b, key);
      calc {
        IssuesAt(a + b, key);
        head + IssuesAt(a[1..] + b, key);
        head + (IssuesAt(a[1..], key) + IssuesAt(b, key));
        (head + IssuesAt(a[1..], key)) + IssuesAt(b, key);
        IssuesAt(a, key) + IssuesAt(b, key);
      }
    }
  }

  lemma {:induction false} IssuesAtAtKey(key: string, issues: seq<Issue>, other: string)
    ensures IssuesAt(AtKey(key, issues), other) == if key == other then issues else []
  {
    if issues != [] {
      assert AtKey(key, issues)[1..] == AtKey(key, issues[1..]);
      IssuesAtAtKey(key, issues[1..], other);
    }
  }

  /** Three fields' issues, read back by field name. */
  lemma IssuesAtOfThree(k0: string, i0: seq<Issue>, k1: string, i1: seq<Issue>, k2: string, i2: seq<Issue>)
    requires k0 != k1 && k1 != k2 && k0 != k2
    ensures IssuesAt(AtKey(k0, i0) + AtKey(k1, i1) + AtKey(k2, i2), k0) == i0
    ensures IssuesAt(AtKey(k0, i0) + AtKey(k1, i1) + AtKey(k2, i2), k1) == i1
    ensures IssuesAt(AtKey(k0, i0) + AtKey(k1, i1) + AtKey(k2, i2), k2) == i2
  {
    var a, b, c := AtKey(k0, i0), AtKey(k1, i1), AtKey(k2, i2);
    forall key | key in {k0, k1, k2}
      ensures IssuesAt(a + b + c, key) == IssuesAt(a, key) + IssuesAt(b, key) + IssuesAt(c, key)
    {
      IssuesAtAppend(a + b, c, key);
      IssuesAtAppend(a, b, key);
    }
    forall key | key in {k0, k1, k2}
      ensures IssuesAt(a, key) == (if k0 == key then i0 else [])
      ensures IssuesAt(b, key) == (if k1 == key then i1 else [])
      ensures IssuesAt(c, key) == (if k2 == key then i2 else [])
    {
      IssuesAtAtKey(k0, i0, key);
      IssuesAtAtKey(k1, i1, key);
      IssuesAtAtKey(k2, i2, key);
    }
  }

  // ---------------------------------------------------------------------------
  // Properties of object parsing
  // ---------------------------------------------------------------------------

  /** Only the declared keys are read: inputs that agree on them give the same violations. */
  lemma {:induction false} ShapeViolationsAgree(g: Grammars, shape: Shape, f1: map<string, JsValue>, f2: map<string, JsValue>)
    requires forall k :: k in DeclaredKeys(shape) ==> Lookup(f1, k) == Lookup(f2, k)
    ensures ShapeViolations(g, shape, f1) == ShapeViolations(g, shape, f2)
  {
    if shape != [] {
      assert shape[0].0 in DeclaredKeys(shape);
      forall k | k in DeclaredKeys(shape[1..])
        ensures Lookup(f1, k) == Lookup(f2, k)
      {
        var i :| 0 <= i < |shape[1..]| && shape[1..][i].0 == k;
        assert shape[i + 1].0 == k;
      }
      ShapeViolationsAgree(g, shape[1..], f1, f2);
    }
  }

  /** Parsing an accepted record again accepts it unchanged. */
  lemma ParseIdempotent(g: Grammars, shape: Shape, input: JsValue)
    requires ParseObject(g, shape, input).Accepted?
    ensures ParseObject(g, shape, JObject(ParseObject(g, shape, input).record)) == ParseObject(g, shape, input)
  {
    var f := input.fields;
    var r := Strip(shape, f);
    ShapeViolationsAgree(g, shape, r, f);
    StripIdempotent(shape, f);
  }

  /** A key the shape does not declare changes nothing: not the verdict, not the output. */
  lemma UndeclaredKeyIgnored(g: Grammars, shape: Shape, fields: map<string, JsValue>, k: string, v: JsValue)
    requires k !in DeclaredKeys(shape)
    ensures ParseObject(g, shape, JObject(fields[k := v])) == ParseObject(g, shape, JObject(fields))
  {
    ShapeViolationsAgree(g, shape, fields[k := v], fields);
    StripIgnoresUndeclared(shape, fields, k, v);
  }

  /** A key holding `undefined` is judged exactly as a missing key. */
  lemma UndefinedLikeMissing(g: Grammars, shape: Shape, fields: map<string, JsValue>, k: string)
    ensures ParseObject(g, shape, JObject(fields[k := JUndefined])).Accepted?
        <==> ParseObject(g, shape, JObject(fields - {k})).Accepted?
    ensures ParseObject(g, shape, JObject(fields[k := JUndefined])).Rejected? ==>
        ParseObject(g, shape, JObject(fields[k := JUndefined])).violations
        == ParseObject(g, shape, JObject(fields - {k})).violations
  {
    ShapeViolationsAgree(g, shape, fields[k := JUndefined], fields - {k});
  }
}
