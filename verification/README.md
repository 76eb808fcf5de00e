# Input validation and error vocabulary of the ThonLabs services

This project models in Dafny the small pure core that the ThonLabs
authentication services use to judge request bodies and to classify
failures:

- `passwordPatterns.middleStrength`, the regular expression every sign-up
  password must match (`password_patterns.dfy`);
- the zod object schemas `signUpValidator` (`signup_validators.dfy`),
  `createEnvironmentValidator`, `updateAuthSettingsValidator` and
  `updateGeneralSettingsValidator` (`environment_validators.dfy`), together
  with the fragment of zod's semantics they rely on (`zod.dfy`);
- the `StatusCodes`, `ErrorCodes` and `ErrorMessages` enumerations and the
  `exceptionsMapper` table from HTTP status to NestJS exception class
  (`errors_metadata.dfy`).

Strings are JavaScript strings: sequences of UTF-16 code units
(`JsStrings.JsString`). A regular expression without the `u` flag, and
zod's `max`, both count code units, so a character outside the Basic
Multilingual Plane counts twice. `JsStrings.Utf16` turns Dafny text into
such a string for the examples.

The password pattern is given twice:

- `PasswordPatterns.RegexTest` reads the expression literally, following
  section 22.2 of ECMA-262. `^` matches at position 0 only. Each lookahead
  `(?=.*X)` becomes "some position holds an X and no line terminator
  precedes it". `.{8,}$` becomes "eight or more code units, none a line
  terminator, up to the end". `.` excludes LF, CR, U+2028 and U+2029.
- `PasswordPatterns.MiddleStrength` counts instead: at least 8 code units,
  at least one of `A-Z`, `!@#$&*` and `0-9`, at least three of `a-z`, and
  no line terminator.

The two are proved equal. Properties of the pattern are then proved on
the counting form.

The zod schemas are data (`Zod.Schema`, `Zod.Shape`), read by one
interpreter (`Zod.FieldIssues`, `Zod.ParseObject`). The interpreter follows
zod 3:

- a value of the wrong type gives a single `invalid_type` issue;
- `required_error` replaces that issue's message only when the value is
  missing;
- on a string, every check runs and its issues accumulate;
- `optional` lets `undefined` through and `nullable` lets `null` through;
- `nativeEnum` reports a string that is not a member, and any number, as
  `invalid_enum_value`;
- an object schema strips undeclared keys from the accepted record;
- an input that is not an object gives one root `invalid_type` issue.

Each validator also has a reference definition: one rule per field, stated
directly on the field's value (`SignupValidators.EmailIssues`,
`EnvironmentValidators.NameIssues`, …). A lemma proves that the schema as
declared reports exactly those rules, field by field.

## Model

| member | source | states |
|---|---|---|
| PasswordPatterns.RegexTest | libs/utils/src/validators/password-patterns.ts:3 | the pattern read literally under ECMA-262: a match anchored at position 0, where each lookahead finds its class after a run of non-terminators and the body spans eight or more non-terminators to the end |
| PasswordPatterns.MiddleStrength | libs/utils/src/validators/password-patterns.ts:3 | the counting form of the pattern, the test the sign-up `.regex` check runs |
| PasswordPatterns.RegexTestIffMiddleStrength | libs/utils/src/validators/password-patterns.ts:3 | the literal reading of the expression (anchored lookaheads, `.{8,}$`) accepts a string iff it has at least 8 code units, at least one of `A-Z`, `!@#$&*` and `0-9`, at least three of `a-z`, and no line terminator |
| PasswordPatterns.RegexTestImpliesMiddleStrength | libs/utils/src/validators/password-patterns.ts:3 | a string the expression matches meets every counting requirement |
| PasswordPatterns.MiddleStrengthImpliesRegexTest | libs/utils/src/validators/password-patterns.ts:3 | a string meeting every counting requirement is matched at position 0 |
| PasswordPatterns.CountPositiveIffPresent | libs/utils/src/validators/password-patterns.ts:3 | a class occurs at least once iff some position holds a member of it, as a single `.*[X]` lookahead demands |
| PasswordPatterns.CountThreeWitnessed | libs/utils/src/validators/password-patterns.ts:3 | three or more lower-case letters give three increasing positions, as `.*[a-z].*[a-z].*[a-z]` demands |
| PasswordPatterns.ThreeWitnessesCount | libs/utils/src/validators/password-patterns.ts:3 | three increasing positions holding class members mean a count of at least three |
| PasswordPatterns.LineTerminatorRejected | libs/utils/src/validators/password-patterns.ts:3 | a string with LF, CR, U+2028 or U+2029 anywhere is rejected, because the expression has no `s` flag |
| PasswordPatterns.CountPermutation | libs/utils/src/validators/password-patterns.ts:3 | two strings with the same multiset of code units have the same count in every class |
| PasswordPatterns.PermutationInvariant | libs/utils/src/validators/password-patterns.ts:3 | acceptance depends only on the multiset of code units |
| PasswordPatterns.AppendKeepsAccepted | libs/utils/src/validators/password-patterns.ts:3 | appending code units that are not line terminators to an accepted password keeps it accepted |
| PasswordPatterns.LongPassword | libs/utils/src/validators/password-patterns.ts:3 | for every length of at least 8 there is an accepted password of exactly that length |
| PasswordPatterns.NoMaximumLength | libs/utils/src/validators/password-patterns.ts:3 | the expression puts no upper bound on the length |
| PasswordPatterns.ClassesAreAscii | libs/utils/src/validators/password-patterns.ts:3 | every code unit in the four classes is ASCII, because the expression has no `i` or `u` flag |
| PasswordPatterns.AcceptedByWitnesses | libs/utils/src/validators/password-patterns.ts:3 | a string of at least 8 code units with no line terminator, holding an upper-case letter, a symbol, a digit and three lower-case letters at increasing positions, is matched |
| PasswordPatterns.RejectedByAbsence | libs/utils/src/validators/password-patterns.ts:3 | a string with no member of one of the four classes is not matched |
| PasswordPatterns.RejectedByTwoLower | libs/utils/src/validators/password-patterns.ts:3 | a string whose lower-case letters sit at two positions at most is not matched |
| PasswordPatterns.ShortestAccepted | libs/utils/src/validators/password-patterns.ts:3 | `Aa1!aaaa` is matched |
| PasswordPatterns.LowerFirstAccepted | libs/utils/src/validators/password-patterns.ts:3 | `aaaa1!AA` is matched: it has four lower-case letters |
| PasswordPatterns.TooShortRejected | libs/utils/src/validators/password-patterns.ts:3 | `Aa1!aa` is not matched: it has six code units |
| PasswordPatterns.TwoLowerRejected | libs/utils/src/validators/password-patterns.ts:3 | `aaAA1!AA` is not matched: it has two lower-case letters |
| PasswordPatterns.PercentIsNotSymbol | libs/utils/src/validators/password-patterns.ts:3 | `%` does not count as a symbol |
| PasswordPatterns.UnderscoreIsNotSymbol | libs/utils/src/validators/password-patterns.ts:3 | `_` does not count as a symbol |
| PasswordPatterns.AccentedUpperRejected | libs/utils/src/validators/password-patterns.ts:3 | `Á` does not count as an upper-case letter |
| PasswordPatterns.AccentedLowerRejected | libs/utils/src/validators/password-patterns.ts:3 | `à`, `é` and `î` do not count as lower-case letters |
| ErrorsMetadata.StatusCodeOf | libs/utils/src/enums/errors-metadata.ts:11-22 | the status code with a given number, and none exactly when no member has that number |
| ErrorsMetadata.StatusCodeValuesDistinct | libs/utils/src/enums/errors-metadata.ts:11-22 | distinct `StatusCodes` members have distinct numbers |
| ErrorsMetadata.ErrorCodeOf | libs/utils/src/enums/errors-metadata.ts:24-31 | the error code with a given text, and none exactly when no member has that text |
| ErrorsMetadata.ErrorCodeTextRoundTrip | libs/utils/src/enums/errors-metadata.ts:24-31 | looking up an error code's text gives back that code |
| ErrorsMetadata.ErrorCodeTextsDistinct | libs/utils/src/enums/errors-metadata.ts:24-31 | distinct `ErrorCodes` members have distinct texts |
| ErrorsMetadata.AllErrorMessagesComplete | libs/utils/src/enums/errors-metadata.ts:33-60 | the list of the 26 messages holds every `ErrorMessages` member |
| ErrorsMetadata.FindErrorMessage | libs/utils/src/enums/errors-metadata.ts:33-60 | a search of a message list finds a member with the given text, or none when no listed member has it |
| ErrorsMetadata.ErrorMessageOf | libs/utils/src/enums/errors-metadata.ts:33-60 | the message with a given text, and none exactly when no member has that text |
| ErrorsMetadata.TextLengthCorrect | libs/utils/src/enums/errors-metadata.ts:33-60 | the table of message lengths agrees with the message texts |
| ErrorsMetadata.ErrorMessageTextsDistinct | libs/utils/src/enums/errors-metadata.ts:33-60 | distinct `ErrorMessages` members have distinct texts |
| ErrorsMetadata.ErrorMessageTextRoundTrip | libs/utils/src/enums/errors-metadata.ts:33-60 | looking up a message's text gives back that message |
| ErrorsMetadata.ExceptionFor | libs/utils/src/enums/errors-metadata.ts:62-70 | a status code has an exception class iff its number is at least 400; the class found maps back to that code, and any class that maps back to the code is the one found |
| ErrorsMetadata.MapperDomain | libs/utils/src/enums/errors-metadata.ts:62-70 | the keys of `exceptionsMapper` are exactly 400, 401, 403, 404, 406, 409 and 500 |
| ErrorsMetadata.MapperKeysAreErrorCodes | libs/utils/src/enums/errors-metadata.ts:15-21 | a number is a key iff it is the number of some status code and is at least 400 |
| ErrorsMetadata.NonErrorCodesUnmapped | libs/utils/src/enums/errors-metadata.ts:12-14 | `OK`, `Created` and `MovedPermanently` have no exception class |
| ErrorsMetadata.SameNamedExceptions | libs/utils/src/enums/errors-metadata.ts:63-69 | each mapped code gives the exception of the same name: 400 bad request, 401 unauthorized, 403 forbidden, 404 not found, 406 not acceptable, 409 conflict, 500 internal server error |
| ErrorsMetadata.ExceptionForInjective | libs/utils/src/enums/errors-metadata.ts:63-69 | distinct mapped codes give distinct exception classes |
| Zod.CheckIssues | apps/auth-services/src/modules/auth/validators/signup-validators.ts:7-9 | a string's checks report nothing iff every check passes; every failing check's issue is reported and nothing else is |
| Zod.CheckIssuesAppend | apps/auth-services/src/modules/auth/validators/signup-validators.ts:7-9 | the issues of a chain of checks are the issues of its first part followed by those of the rest; with `Zod.SingleCheck` this fixes one issue per failing check, in the order the checks are chained |
| Zod.SingleCheck | apps/auth-services/src/modules/auth/validators/signup-validators.ts:7-9 | one check reports its own issue exactly when it fails, and nothing when it passes |
| Zod.IssuesAtAtKey | apps/auth-services/src/modules/auth/validators/signup-validators.ts:5-15 | reading back the violations a field's issues become gives exactly those issues at that field, and none at any other field |
| Zod.FieldIssues | apps/auth-services/src/modules/auth/validators/signup-validators.ts:6-14 | one field's issues under its schema: `optional` passes `undefined`, `nullable` passes `null`, a missing string reports its `required_error`, a wrong type gives one type issue, a string runs its checks, and `nativeEnum` reports non-members |
| Zod.ShapeViolations | apps/auth-services/src/modules/auth/validators/signup-validators.ts:5-15 | an object's fields report nothing iff every declared field's schema accepts its value, and every violation lies on a declared key |
| Zod.StripIdempotent | apps/auth-services/src/modules/auth/validators/signup-validators.ts:5 | stripping a record a second time changes nothing |
| Zod.StripIgnoresUndeclared | apps/auth-services/src/modules/auth/validators/signup-validators.ts:5 | setting or removing a key the shape does not declare leaves the stripped record unchanged |
| Zod.StripKeepsDeclared | apps/auth-services/src/modules/auth/validators/signup-validators.ts:5 | setting a declared key sets it in the stripped record too |
| Zod.ParseObject | apps/auth-services/src/modules/auth/validators/signup-validators.ts:5-15 | an object is accepted iff every declared field is accepted; the accepted record is the input restricted to the declared keys; a rejection carries at least one violation |
| Zod.ShapeViolationsAgree | apps/auth-services/src/modules/auth/validators/signup-validators.ts:5-15 | two inputs that agree on the declared keys get the same violations |
| Zod.ParseIdempotent | apps/auth-services/src/modules/auth/validators/signup-validators.ts:5-15 | parsing an accepted record again accepts it unchanged |
| Zod.UndeclaredKeyIgnored | apps/auth-services/src/modules/auth/validators/signup-validators.ts:5-15 | adding or changing an undeclared key does not change the outcome |
| Zod.UndefinedLikeMissing | apps/auth-services/src/modules/auth/validators/signup-validators.ts:5-15 | a key set to `undefined` is judged like a missing key |
| SignupValidators.SignUp | apps/auth-services/src/modules/auth/validators/signup-validators.ts:5-15 | a non-object is rejected at the root; an object is accepted iff the field rules report nothing, and is otherwise rejected with exactly those violations; the accepted record holds only `fullName`, `email` and `password` |
| SignupValidators.SignUpShapeMeansRules | apps/auth-services/src/modules/auth/validators/signup-validators.ts:5-15 | the schema as declared reports exactly the three field rules, in declaration order |
| SignupValidators.SignUpReportedByField | apps/auth-services/src/modules/auth/validators/signup-validators.ts:5-15 | each field is reported with exactly the issues of its own rule |
| SignupValidators.FullNameNeverReported | apps/auth-services/src/modules/auth/validators/signup-validators.ts:6 | a missing `fullName`, or any string, is never reported |
| SignupValidators.MissingEmailRequired | apps/auth-services/src/modules/auth/validators/signup-validators.ts:7-8 | a missing `email` rejects the body, and `email` is reported once, with `RequiredField` |
| SignupValidators.MalformedEmailReported | apps/auth-services/src/modules/auth/validators/signup-validators.ts:9 | an `email` outside the email grammar rejects the body, and is reported once, with `InvalidEmail` |
| SignupValidators.AbsentPasswordAccepted | apps/auth-services/src/modules/auth/validators/signup-validators.ts:13-14 | a missing, `undefined` or `null` `password` is never reported |
| SignupValidators.PasswordFollowsPattern | apps/auth-services/src/modules/auth/validators/signup-validators.ts:10-12 | a string `password` is reported iff the middle-strength expression does not match it, and then once, with zod's default message |
| SignupValidators.WellFormedSignUpPasses | apps/auth-services/src/modules/auth/validators/signup-validators.ts:5-15 | a body with a valid email, a strong enough password and an extra `role` key is accepted |
| SignupValidators.AcceptedSignUpDropsRole | apps/auth-services/src/modules/auth/validators/signup-validators.ts:5 | an accepted body with `email`, `password` and `role` comes back with `email` and `password` only |
| SignupValidators.WellFormedSignUpAccepted | apps/auth-services/src/modules/auth/validators/signup-validators.ts:5-15 | a valid email and a matching password are accepted, and an undeclared `role` key is stripped |
| SignupValidators.SignUpExample | apps/auth-services/src/modules/auth/validators/signup-validators.ts:5-15 | a body with the password `Aa1!aaaa` and an extra key is accepted without the extra key |
| EnvironmentValidators.NameRule | apps/auth-services/src/modules/environments/validators/environment-validators.ts:6-8 | the declared `name` schema reports `RequiredField` when missing and `MaxLength` above 25 code units |
| EnvironmentValidators.CreateEnvironmentShapeMeansRules | apps/auth-services/src/modules/environments/validators/environment-validators.ts:5-11 | the schema as declared reports exactly the `name`, `appURL` and `projectId` rules, in declaration order |
| EnvironmentValidators.UpdateAuthSettingsShapeMeansRules | apps/auth-services/src/modules/environments/validators/environment-validators.ts:13-17 | the schema as declared reports exactly the `tokenExpiration`, `refreshTokenExpiration` and `authProvider` rules, in declaration order |
| EnvironmentValidators.UpdateGeneralSettingsShapeMeansRules | apps/auth-services/src/modules/environments/validators/environment-validators.ts:19-23 | the schema as declared reports exactly the `name` rule and declares only `name` |
| EnvironmentValidators.CreateEnvironment | apps/auth-services/src/modules/environments/validators/environment-validators.ts:5-11 | a non-object is rejected at the root; an object is accepted iff the field rules report nothing, and is otherwise rejected with exactly those violations; the accepted record holds only `name`, `appURL` and `projectId` |
| EnvironmentValidators.UpdateAuthSettings | apps/auth-services/src/modules/environments/validators/environment-validators.ts:13-17 | the same, for `tokenExpiration`, `refreshTokenExpiration` and `authProvider` |
| EnvironmentValidators.UpdateGeneralSettings | apps/auth-services/src/modules/environments/validators/environment-validators.ts:19-23 | the same, for `name` alone |
| EnvironmentValidators.CreateEnvironmentReportedByField | apps/auth-services/src/modules/environments/validators/environment-validators.ts:5-11 | each field is reported with exactly the issues of its own rule |
| EnvironmentValidators.UpdateAuthSettingsReportedByField | apps/auth-services/src/modules/environments/validators/environment-validators.ts:13-17 | each field is reported with exactly the issues of its own rule |
| EnvironmentValidators.NameMaxLength | apps/auth-services/src/modules/environments/validators/environment-validators.ts:8 | a string `name` is reported iff it has more than 25 code units, and then once, with `MaxLength` |
| EnvironmentValidators.MissingEnvironmentFieldsRequired | apps/auth-services/src/modules/environments/validators/environment-validators.ts:7-10 | a missing `name`, `appURL` or `projectId` rejects the body, and that field is reported once, with `RequiredField` |
| EnvironmentValidators.ProjectIdAnyString | apps/auth-services/src/modules/environments/validators/environment-validators.ts:10 | a string `projectId` is never reported, the empty string included |
| EnvironmentValidators.AppUrlFollowsGrammar | apps/auth-services/src/modules/environments/validators/environment-validators.ts:9 | a string `appURL` is reported iff it is outside the URL grammar |
| EnvironmentValidators.TokenExpirationRules | apps/auth-services/src/modules/environments/validators/environment-validators.ts:14-15 | a missing or `null` `refreshTokenExpiration` is not reported; `tokenExpiration` is not reported iff it is present and a string |
| EnvironmentValidators.AuthProviderMembership | apps/auth-services/src/modules/environments/validators/environment-validators.ts:16 | a string `authProvider` is accepted iff it names a provider |
| EnvironmentValidators.SameNameRule | apps/auth-services/src/modules/environments/validators/environment-validators.ts:19-23 | the general-settings update reports `name` exactly as environment creation does, and accepts a body iff that report is empty |
| EnvironmentValidators.TwentyFiveLettersAccepted | apps/auth-services/src/modules/environments/validators/environment-validators.ts:22 | a `name` of 25 `a`s is accepted by the general-settings update |
| EnvironmentValidators.BmpNameLimit | apps/auth-services/src/modules/environments/validators/environment-validators.ts:22 | a name made of characters inside the Basic Multilingual Plane, accented letters included, is accepted iff it has at most 25 characters |
| EnvironmentValidators.ThirteenEmojiRejected | apps/auth-services/src/modules/environments/validators/environment-validators.ts:22 | a `name` of 13 emoji, 26 code units, is reported with `MaxLength` |

## Left out

- The email and URL grammars of zod's `.email()` and `.url()` are library code. They enter as the predicates `isEmail` and `isUrl` of a `Zod.Grammars` value, and every result holds for any such predicates.
- The members of Prisma's `AuthProviders` enumeration are not part of this model. They enter as a finite set of strings.
- The NestJS exception classes are tags of `ErrorsMetadata.ExceptionKind`. How they are constructed, thrown or turned into HTTP responses is outside the model.
- zod's own message texts (for a wrong type, a failed `.url()`, a failed `.regex()`, an enum mismatch) are the opaque `LibraryDefault`. Only the `ErrorMessages` payloads are modelled as text.
- zod's other issue details (expected and received types, the limit of a `too_big` issue) are left out. An issue is its code and its message.
- The matching cost of the regular expression is an operational concern and is not modelled. Only which strings match is.
- `signup-validators.ts:2` imports the pattern from `@/utils/validators/patterns`, while the pattern is defined in `password-patterns.ts`. Module resolution is outside the model, which takes `passwordPatterns.middleStrength` to be the pattern in use.
- Numbers and other non-string values carry no contents (`JNumber`, `JOther`). Every validator here rejects them by type alone.
- Object keys are plain Dafny strings, not code-unit sequences. Keys are only compared for equality.

## Notes on the code

In a few places the schemas accept or reject inputs that a reader might not
expect from the field names alone. The model follows the code:

- `aaaa1!AA` matches the password pattern. It has four lower-case letters, and the lookaheads do not care about order (`PasswordPatterns.LowerFirstAccepted`).
- `projectId` accepts the empty string. Nothing in its schema bounds its length (`EnvironmentValidators.ProjectIdAnyString`).
- `fullName` rejects `null`. `z.string().optional()` lets only `undefined` through (`SignupValidators.FullNameIssues`).
- A required string is required to be present, not to be non-empty. An empty `email` is judged by the email grammar alone.
