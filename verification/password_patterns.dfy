/**
  The password-strength pattern `passwordPatterns.middleStrength`:

      ^(?=.*[A-Z])(?=.*[!@#$&*])(?=.*[0-9])(?=.*[a-z].*[a-z].*[a-z]).{8,}$

  compiled without flags. Without `s`, `.` matches every code unit except the
  four line terminators; without `m`, `^` and `$` anchor to the whole string;
  without `i` and `u`, the classes are exactly the ASCII code units listed and
  the string is read as UTF-16 code units (section 22.2 of ECMA-262).

  The module gives two readings of the pattern: `RegexTest`, a literal
  transcription of what the regular expression demands (one existential split
  per `.*X` lookahead), and `MiddleStrength`, a counting predicate that the
  validators use. `RegexTestIffMiddleStrength` proves them equal.
 */
module PasswordPatterns {
  import opened JsStrings

  /** The four character classes of the lookaheads. */
  datatype CharClass = Upper | Symbol | Digit | Lower

  /** `[A-Z]`, `[!@#$&*]`, `[0-9]` and `[a-z]`, on code units. */
  predicate InClass(u: CodeUnit, c: CharClass) {
    match c
    case Upper => 0x41 <= u <= 0x5A
    case Symbol => u == 0x21 || u == 0x40 || u == 0x23 || u == 0x24 || u == 0x26 || u == 0x2A
    case Digit => 0x30 <= u <= 0x39
    case Lower => 0x61 <= u <= 0x7A
  }

  /** The code units `.` does not match: LF, CR, LINE SEPARATOR, PARAGRAPH SEPARATOR. */
  predicate IsLineTerminator(u: CodeUnit) {
    u == 0x0A || u == 0x0D || u == 0x2028 || u == 0x2029
  }

  predicate NoLineTerminator(s: JsString) {
    forall i :: 0 <= i < |s| ==> !IsLineTerminator(s[i])
  }

  /** How many code units of `s` fall in class `c`. */
  function Count(s: JsString, c: CharClass): (n: nat)
    ensures n <= |s|
  {
    if s == [] then 0 else (if InClass(s[0], c) then 1 else 0) + Count(s[1..], c)
  }

  /** The counting reading of `middleStrength`. */
  predicate MiddleStrength(s: JsString) {
    && |s| >= 8
    && Count(s, Upper) >= 1
    && Count(s, Symbol) >= 1
    && Count(s, Digit) >= 1
    && Count(s, Lower) >= 3
    && NoLineTerminator(s)
  }

  // ---------------------------------------------------------------------------
  // The literal reading of the regular expression
  // ---------------------------------------------------------------------------

  /** `.` matches each of `s[from..to]`. */
  ghost predicate Dots(s: JsString, from: int, to: int)
    requires 0 <= from <= to <= |s|
  {
    forall m :: from <= m < to ==> !IsLineTerminator(s[m])
  }

  /** `(?=.*X)` at position `p`, X being class `c`. */
  ghost predicate LookaheadOne(s: JsString, p: int, c: CharClass)
    requires 0 <= p <= |s|
  {
    exists i :: p <= i < |s| && Dots(s, p, i) && InClass(s[i], c)
  }

  /** `(?=.*[a-z].*[a-z].*[a-z])` at position `p`. */
  ghost predicate LookaheadThreeLower(s: JsString, p: int)
    requires 0 <= p <= |s|
  {
    exists i, j, k ::
      && p <= i < j < k < |s|
      && Dots(s, p, i) && InClass(s[i], Lower)
      && Dots(s, i + 1, j) && InClass(s[j], Lower)
      && Dots(s, j + 1, k) && InClass(s[k], Lower)
  }

  /** `.{8,}$` at position `p`: eight or more `.` reaching the end of input. */
  ghost predicate DotsToEnd(s: JsString, p: int)
    requires 0 <= p <= |s|
  {
    exists e :: p + 8 <= e <= |s| && Dots(s, p, e) && e == |s|
  }

  /** The whole pattern matches starting at `p`; `^` without `m` holds only at 0. */
  ghost predicate MatchAt(s: JsString, p: int)
    requires 0 <= p <= |s|
  {
    && p == 0
    && LookaheadOne(s, p, Upper)
    && LookaheadOne(s, p, Symbol)
    && LookaheadOne(s, p, Digit)
    && LookaheadThreeLower(s, p)
    && DotsToEnd(s, p)
  }

  /** `RegExp.prototype.test`: the pattern matches at some start position. */
  ghost predicate RegexTest(s: JsString) {
    exists p :: 0 <= p <= |s| && MatchAt(s, p)
  }

  // ---------------------------------------------------------------------------
  // Counting lemmas
  // ---------------------------------------------------------------------------

  lemma {:induction false} CountAppend(a: JsString, b: JsString, c: CharClass)
    ensures Count(a + b, c) == Count(a, c) + Count(b, c)
  {
    if a == [] {
      assert a + b == b;
    } else {
      assert (a + b)[1..] == a[1..] + b;
      CountAppend(a[1..], b, c);
    }
  }

  lemma {:induction false} CountPositiveIffPresent(s: JsString, c: CharClass)
    ensures Count(s, c) >= 1 <==> exists i :: 0 <= i < |s| && InClass(s[i], c)
  {
    if s != [] {
      CountPositiveIffPresent(s[1..], c);
      if !InClass(s[0], c) && exists i :: 0 <= i < |s| && InClass(s[i], c) {
        var i :| 0 <= i < |s| && InClass(s[i], c);
        assert InClass(s[1..][i - 1], c);
      }
    }
  }

  /** A member of class `c` in `s`, when the count says there is one. */
  lemma {:induction false} OneMember(s: JsString, c: CharClass) returns (i: int)
    requires Count(s, c) >= 1
    ensures 0 <= i < |s| && InClass(s[i], c)
  {
    if InClass(s[0], c) {
      i := 0;
    } else {
      var a := OneMember(s[1..], c);
      i := a + 1;
      assert s[1..][a] == s[i];
    }
  }

  /** Two members of class `c` at increasing positions, when the count says there are two. */
  lemma {:induction false} TwoMembers(s: JsString, c: CharClass) returns (i: int, j: int)
    requires Count(s, c) >= 2
    ensures 0 <= i < j < |s| && InClass(s[i], c) && InClass(s[j], c)
  {
    var t := s[1..];
    if InClass(s[0], c) {
      var b := OneMember(t, c);
      i, j := 0, b + 1;
      assert t[b] == s[j];
    } else {
      var a, b := TwoMembers(t, c);
      i, j := a + 1, b + 1;
      assert t[a] == s[i] && t[b] == s[j];
    }
  }

  /** Three members of class `c` at increasing positions, when the count says there are three. */
  lemma {:induction false} ThreeMembers(s: JsString, c: CharClass) returns (i: int, j: int, k: int)
    requires Count(s, c) >= 3
    ensures 0 <= i < j < k < |s| && InClass(s[i], c) && InClass(s[j], c) && InClass(s[k], c)
  {
    var t := s[1..];
    if InClass(s[0], c) {
      var b, d := TwoMembers(t, c);
      i, j, k := 0, b + 1, d + 1;
      assert t[b] == s[j] && t[d] == s[k];
    } else {
      var a, b, d := ThreeMembers(t, c);
      i, j, k := a + 1, b + 1, d + 1;
      assert t[a] == s[i] && t[b] == s[j] && t[d] == s[k];
    }
  }

  /** A count of three or more is witnessed by three increasing positions. */
  lemma CountThreeWitnessed(s: JsString, c: CharClass)
    requires Count(s, c) >= 3
    ensures exists i, j, k :: 0 <= i < j < k < |s| && InClass(s[i], c) && InClass(s[j], c) && InClass(s[k], c)
  {
    var i, j, k := ThreeMembers(s, c);
  }

  /** Three class members at increasing positions mean a count of three or more. */
  lemma ThreeWitnessesCount(s: JsString, c: CharClass, i: int, j: int, k: int)
    requires 0 <= i < j < k < |s|
    requires InClass(s[i], c) && InClass(s[j], c) && InClass(s[k], c)
    ensures Count(s, c) >= 3
  {
    assert s == s[..j] + s[j..k] + s[k..];
    CountAppend(s[..j] + s[j..k], s[k..], c);
    CountAppend(s[..j], s[j..k], c);
    CountPositiveIffPresent(s[..j], c);
    assert InClass(s[..j][i], c);
    CountPositiveIffPresent(s[j..k], c);
    assert InClass(s[j..k][0], c);
    CountPositiveIffPresent(s[k..], c);
    assert InClass(s[k..][0], c);
  }

  // ---------------------------------------------------------------------------
  // Properties of the pattern
  // ---------------------------------------------------------------------------

  /** Every match of the literal reading meets the counting reading. */
  lemma RegexTestImpliesMiddleStrength(s: JsString)
    requires RegexTest(s)
    ensures MiddleStrength(s)
  {
    var p :| 0 <= p <= |s| && MatchAt(s, p);
    PresenceFromLookahead(s, p, Upper);
    PresenceFromLookahead(s, p, Symbol);
    PresenceFromLookahead(s, p, Digit);
    CountFromLookaheadThree(s, p);
    CleanFromDotsToEnd(s, p);
  }

  lemma PresenceFromLookahead(s: JsString, p: int, c: CharClass)
    requires 0 <= p <= |s| && LookaheadOne(s, p, c)
    ensures Count(s, c) >= 1
  {
    CountPositiveIffPresent(s, c);
  }

  lemma CountFromLookaheadThree(s: JsString, p: int)
    requires 0 <= p <= |s| && LookaheadThreeLower(s, p)
    ensures Count(s, Lower) >= 3
  {
    var i, j, k :|
      && p <= i < j < k < |s|
      && Dots(s, p, i) && InClass(s[i], Lower)
      && Dots(s, i + 1, j) && InClass(s[j], Lower)
      && Dots(s, j + 1, k) && InClass(s[k], Lower);
    ThreeWitnessesCount(s, Lower, i, j, k);
  }

  lemma CleanFromDotsToEnd(s: JsString, p: int)
    requires p == 0 && p <= |s| && DotsToEnd(s, p)
    ensures |s| >= 8 && NoLineTerminator(s)
  {
    var e :| p + 8 <= e <= |s| && Dots(s, p, e) && e == |s|;
  }

  /** Every string meeting the counting reading is matched by the literal reading. */
  lemma MiddleStrengthImpliesRegexTest(s: JsString)
    requires MiddleStrength(s)
    ensures RegexTest(s)
  {
    LookaheadFromPresence(s, Upper);
    LookaheadFromPresence(s, Symbol);
    LookaheadFromPresence(s, Digit);
    LookaheadThreeFromCount(s);
    CleanDots(s, 0, |s|);
    assert DotsToEnd(s, 0);
    assert MatchAt(s, 0);
  }

  lemma CleanDots(s: JsString, from: int, to: int)
    requires NoLineTerminator(s) && 0 <= from <= to <= |s|
    ensures Dots(s, from, to)
  {
  }

  lemma LookaheadFromPresence(s: JsString, c: CharClass)
    requires NoLineTerminator(s) && Count(s, c) >= 1
    ensures LookaheadOne(s, 0, c)
  {
    CountPositiveIffPresent(s, c);
    var u :| 0 <= u < |s| && InClass(s[u], c);
    CleanDots(s, 0, u);
  }

  lemma LookaheadThreeFromCount(s: JsString)
    requires NoLineTerminator(s) && Count(s, Lower) >= 3
    ensures LookaheadThreeLower(s, 0)
  {
    var i, j, k := ThreeMembers(s, Lower);
    CleanDots(s, 0, i);
    CleanDots(s, i + 1, j);
    CleanDots(s, j + 1, k);
    assert
      && 0 <= i < j < k < |s|
      && Dots(s, 0, i) && InClass(s[i], Lower)
      && Dots(s, i + 1, j) && InClass(s[j], Lower)
      && Dots(s, j + 1, k) && InClass(s[k], Lower);
  }

  /** The literal reading of the regular expression and the counting reading agree. */
  lemma RegexTestIffMiddleStrength(s: JsString)
    ensures RegexTest(s) <==> MiddleStrength(s)
  {
    if RegexTest(s) {
      RegexTestImpliesMiddleStrength(s);
    }
    if MiddleStrength(s) {
      MiddleStrengthImpliesRegexTest(s);
    }
  }

  /** A line terminator anywhere makes the pattern fail: `.` does not match it. */
  lemma LineTerminatorRejected(s: JsString, i: int)
    requires 0 <= i < |s| && IsLineTerminator(s[i])
    ensures !RegexTest(s)
  {
    if RegexTest(s) {
      RegexTestImpliesMiddleStrength(s);
    }
  }

  /** Removing position `k` removes one occurrence of `t[k]` from the multiset. */
  lemma MultisetRemoveAt(t: JsString, k: int)
    requires 0 <= k < |t|
    ensures multiset(t[..k] + t[k + 1..]) == multiset(t) - multiset{t[k]}
  {
    assert t == t[..k] + [t[k]] + t[k + 1..];
    assert multiset(t) == multiset(t[..k]) + multiset{t[k]} + multiset(t[k + 1..]);
  }

  /** `Count` at `t` is the count at `t` without position `k`, plus `t[k]`'s share. */
  lemma CountRemoveAt(t: JsString, k: int, c: CharClass)
    requires 0 <= k < |t|
    ensures Count(t, c) == Count(t[..k] + t[k + 1..], c) + (if InClass(t[k], c) then 1 else 0)
  {
    assert t == (t[..k] + [t[k]]) + t[k + 1..];
    CountAppend(t[..k] + [t[k]], t[k + 1..], c);
    CountAppend(t[..k], [t[k]], c);
    CountAppend(t[..k], t[k + 1..], c);
  }

  lemma {:induction false} CountPermutation(s: JsString, t: JsString, c: CharClass)
    requires multiset(s) == multiset(t)
    ensures Count(s, c) == Count(t, c)
  {
    if s == [] {
      assert |t| == |multiset(t)| == 0;
    } else {
      var x := s[0];
      assert x in multiset(s);
      assert x in t;
      var k :| 0 <= k < |t| && t[k] == x;
      var rest := t[..k] + t[k + 1..];
      MultisetRemoveAt(t, k);
      assert s == [x] + s[1..];
      calc {
        multiset(s[1..]);
        multiset(s) - multiset{x};
        multiset(t) - multiset{x};
        multiset(rest);
      }
      CountPermutation(s[1..], rest, c);
      CountRemoveAt(t, k, c);
      CountRemoveAt(s, 0, c);
    }
  }

  /** Acceptance depends only on the multiset of code units. */
  lemma PermutationInvariant(s: JsString, t: JsString)
    requires multiset(s) == multiset(t)
    ensures MiddleStrength(s) <==> MiddleStrength(t)
  {
    CountPermutation(s, t, Upper);
    CountPermutation(s, t, Symbol);
    CountPermutation(s, t, Digit);
    CountPermutation(s, t, Lower);
    assert |s| == |multiset(s)| == |multiset(t)| == |t|;
    forall i | 0 <= i < |t|
      ensures MiddleStrength(s) ==> !IsLineTerminator(t[i])
    {
      assert t[i] in multiset(s);
    }
    forall i | 0 <= i < |s|
      ensures MiddleStrength(t) ==> !IsLineTerminator(s[i])
    {
      assert s[i] in multiset(t);
    }
  }

  /** There is no maximum length: appending terminator-free text keeps a password accepted. */
  lemma AppendKeepsAccepted(s: JsString, t: JsString)
    requires MiddleStrength(s) && NoLineTerminator(t)
    ensures MiddleStrength(s + t)
  {
    CountAppend(s, t, Upper);
    CountAppend(s, t, Symbol);
    CountAppend(s, t, Digit);
    CountAppend(s, t, Lower);
    assert forall i :: |s| <= i < |s + t| ==> (s + t)[i] == t[i - |s|];
  }

  /** `Aa1!aaaa` followed by `n - 8` further `a`s. */
  function LongPassword(n: nat): (r: JsString)
    requires n >= 8
    ensures |r| == n && MiddleStrength(r)
  {
    var base: JsString := [0x41, 0x61, 0x31, 0x21, 0x61, 0x61, 0x61, 0x61];
    BaseAccepted(base);
    var pad := seq(n - 8, _ => 0x61 as CodeUnit);
    assert NoLineTerminator(pad);
    AppendKeepsAccepted(base, pad);
    base + pad
  }

  lemma BaseAccepted(base: JsString)
    requires base == [0x41, 0x61, 0x31, 0x21, 0x61, 0x61, 0x61, 0x61]
    ensures MiddleStrength(base)
  {
    assert InClass(base[0], Upper) && InClass(base[3], Symbol) && InClass(base[2], Digit);
    CountPositiveIffPresent(base, Upper);
    CountPositiveIffPresent(base, Symbol);
    CountPositiveIffPresent(base, Digit);
    ThreeWitnessesCount(base, Lower, 1, 4, 5);
  }

  /** Every length from eight upwards has an accepted password. */
  lemma NoMaximumLength(n: nat)
    requires n >= 8
    ensures exists s :: |s| == n && RegexTest(s)
  {
    var s := LongPassword(n);
    RegexTestIffMiddleStrength(s);
  }

  /** The classes are ASCII only: no non-ASCII code unit satisfies any requirement. */
  lemma ClassesAreAscii(u: CodeUnit, c: CharClass)
    requires InClass(u, c)
    ensures u < 0x80
  {
  }

  /** One witness position per class, none of them a line terminator anywhere, decide a match. */
  lemma AcceptedByWitnesses(s: JsString, u: int, y: int, d: int, i: int, j: int, k: int)
    requires |s| >= 8 && NoLineTerminator(s)
    requires 0 <= u < |s| && InClass(s[u], Upper)
    requires 0 <= y < |s| && InClass(s[y], Symbol)
    requires 0 <= d < |s| && InClass(s[d], Digit)
    requires 0 <= i < j < k < |s| && InClass(s[i], Lower) && InClass(s[j], Lower) && InClass(s[k], Lower)
    ensures RegexTest(s)
  {
    CountPositiveIffPresent(s, Upper);
    CountPositiveIffPresent(s, Symbol);
    CountPositiveIffPresent(s, Digit);
    ThreeWitnessesCount(s, Lower, i, j, k);
    MiddleStrengthImpliesRegexTest(s);
  }

  /** A class with no member in `s` makes the pattern fail. */
  lemma RejectedByAbsence(s: JsString, c: CharClass)
    requires forall m :: 0 <= m < |s| ==> !InClass(s[m], c)
    ensures !RegexTest(s)
  {
    CountPositiveIffPresent(s, c);
    if RegexTest(s) {
      RegexTestImpliesMiddleStrength(s);
    }
  }

  /** Lower-case letters confined to two positions are too few for the pattern. */
  lemma RejectedByTwoLower(s: JsString, a: int, b: int)
    requires forall m :: 0 <= m < |s| && InClass(s[m], Lower) ==> m == a || m == b
    ensures !RegexTest(s)
  {
    if RegexTest(s) {
      RegexTestImpliesMiddleStrength(s);
      var i, j, k := ThreeMembers(s, Lower);
    }
  }

  // Concrete inputs, each decided through the literal reading of the pattern:
  // first on its code units, then on the text they spell.

  lemma ShortestAcceptedUnits()
    ensures RegexTest([0x41, 0x61, 0x31, 0x21, 0x61, 0x61, 0x61, 0x61])
  {
    var s: JsString := [0x41, 0x61, 0x31, 0x21, 0x61, 0x61, 0x61, 0x61];
    AcceptedByWitnesses(s, 0, 3, 2, 1, 4, 5);
  }

  /** Eight code units with every class present are enough. */
  lemma ShortestAccepted()
    ensures RegexTest(Utf16("Aa1!aaaa"))
  {
    assert Utf16("Aa1!aaaa") == [0x41, 0x61, 0x31, 0x21, 0x61, 0x61, 0x61, 0x61];
    ShortestAcceptedUnits();
  }

  lemma LowerFirstAcceptedUnits()
    ensures RegexTest([0x61, 0x61, 0x61, 0x61, 0x31, 0x21, 0x41, 0x41])
  {
    var s: JsString := [0x61, 0x61, 0x61, 0x61, 0x31, 0x21, 0x41, 0x41];
    AcceptedByWitnesses(s, 6, 5, 4, 0, 1, 2);
  }

  /** The classes may appear in any order: four lower-case letters first is fine. */
  lemma LowerFirstAccepted()
    ensures RegexTest(Utf16("aaaa1!AA"))
  {
    assert Utf16("aaaa1!AA") == [0x61, 0x61, 0x61, 0x61, 0x31, 0x21, 0x41, 0x41];
    LowerFirstAcceptedUnits();
  }

  lemma TooShortRejectedUnits()
    ensures !RegexTest([0x41, 0x61, 0x31, 0x21, 0x61, 0x61])
  {
    var s: JsString := [0x41, 0x61, 0x31, 0x21, 0x61, 0x61];
    if RegexTest(s) {
      RegexTestImpliesMiddleStrength(s);
    }
  }

  /** Six code units are too few. */
  lemma TooShortRejected()
    ensures !RegexTest(Utf16("Aa1!aa"))
  {
    assert Utf16("Aa1!aa") == [0x41, 0x61, 0x31, 0x21, 0x61, 0x61];
    TooShortRejectedUnits();
  }

  lemma TwoLowerRejectedUnits()
    ensures !RegexTest([0x61, 0x61, 0x41, 0x41, 0x31, 0x21, 0x41, 0x41])
  {
    var s: JsString := [0x61, 0x61, 0x41, 0x41, 0x31, 0x21, 0x41, 0x41];
    RejectedByTwoLower(s, 0, 1);
  }

  /** Two lower-case letters are too few. */
  lemma TwoLowerRejected()
    ensures !RegexTest(Utf16("aaAA1!AA"))
  {
    assert Utf16("aaAA1!AA") == [0x61, 0x61, 0x41, 0x41, 0x31, 0x21, 0x41, 0x41];
    TwoLowerRejectedUnits();
  }

  lemma PercentIsNotSymbolUnits()
    ensures !RegexTest([0x41, 0x61, 0x31, 0x25, 0x61, 0x61, 0x61, 0x61])
  {
    var s: JsString := [0x41, 0x61, 0x31, 0x25, 0x61, 0x61, 0x61, 0x61];
    RejectedByAbsence(s, Symbol);
  }

  /** `%` is not in `!@#$&*`, so it does not satisfy the symbol lookahead. */
  lemma PercentIsNotSymbol()
    ensures !RegexTest(Utf16("Aa1%aaaa"))
  {
    assert Utf16("Aa1%aaaa") == [0x41, 0x61, 0x31, 0x25, 0x61, 0x61, 0x61, 0x61];
    PercentIsNotSymbolUnits();
  }

  lemma UnderscoreIsNotSymbolUnits()
    ensures !RegexTest([0x41, 0x61, 0x31, 0x5F, 0x61, 0x61, 0x61, 0x61])
  {
    var s: JsString := [0x41, 0x61, 0x31, 0x5F, 0x61, 0x61, 0x61, 0x61];
    RejectedByAbsence(s, Symbol);
  }

  /** `_` is not in `!@#$&*` either. */
  lemma UnderscoreIsNotSymbol()
    ensures !RegexTest(Utf16("Aa1_aaaa"))
  {
    assert Utf16("Aa1_aaaa") == [0x41, 0x61, 0x31, 0x5F, 0x61, 0x61, 0x61, 0x61];
    UnderscoreIsNotSymbolUnits();
  }

  lemma AccentedUpperRejectedUnits()
    ensures !RegexTest([0xC1, 0x61, 0x31, 0x21, 0x61, 0x61, 0x61, 0x61])
  {
    var s: JsString := [0xC1, 0x61, 0x31, 0x21, 0x61, 0x61, 0x61, 0x61];
    RejectedByAbsence(s, Upper);
  }

  /** An accented capital does not satisfy `[A-Z]`. */
  lemma AccentedUpperRejected()
    ensures !RegexTest(Utf16("\U{C1}a1!aaaa"))
  {
    assert Utf16("\U{C1}a1!aaaa") == [0xC1, 0x61, 0x31, 0x21, 0x61, 0x61, 0x61, 0x61];
    AccentedUpperRejectedUnits();
  }

  lemma AccentedLowerRejectedUnits()
    ensures !RegexTest([0x41, 0x61, 0x31, 0x21, 0xE0, 0xE9, 0xEE, 0x61])
  {
    var s: JsString := [0x41, 0x61, 0x31, 0x21, 0xE0, 0xE9, 0xEE, 0x61];
    RejectedByTwoLower(s, 1, 7);
  }

  /** Accented small letters do not count towards the three of `[a-z]`. */
  lemma AccentedLowerRejected()
    ensures !RegexTest(Utf16("Aa1!\U{E0}\U{E9}\U{EE}a"))
  {
    assert Utf16("Aa1!\U{E0}\U{E9}\U{EE}a") == [0x41, 0x61, 0x31, 0x21, 0xE0, 0xE9, 0xEE, 0x61];
    AccentedLowerRejectedUnits();
  }
}
