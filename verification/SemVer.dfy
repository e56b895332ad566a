/**
 Version precedence (`SemVer`, doctor.py), after Semantic Versioning 2.0.0.
 */
module SemVer {
  import opened Numerals

  /** Build metadata only survives in the text. */
  datatype Version = Version(major: nat, minor: nat, patch: nat, pre: seq<string>, build: seq<string>)

  predicate IsDigit(c: char) {
    '0' <= c <= '9'
  }

  /** `str.isdigit` on ASCII text. */
  predicate Numeric(s: string) {
    s != "" && forall i :: 0 <= i < |s| ==> IsDigit(s[i])
  }

  predicate IsIdentifierChar(c: char) {
    IsDigit(c) || 'A' <= c <= 'Z' || 'a' <= c <= 'z' || c == '-'
  }

  predicate Identifier(s: string) {
    s != "" && forall i :: 0 <= i < |s| ==> IsIdentifierChar(s[i])
  }

  predicate NoLeadingZero(s: string)
    requires s != ""
  {
    |s| == 1 || s[0] != '0'
  }

  predicate PreIdentifier(s: string) {
    Identifier(s) && (Numeric(s) ==> NoLeadingZero(s))
  }

  predicate Valid(v: Version) {
    && (forall i :: 0 <= i < |v.pre| ==> PreIdentifier(v.pre[i]))
    && (forall i :: 0 <= i < |v.build| ==> Identifier(v.build[i]))
  }

  // ---------------------------------------------------------------- numbers

  /** `int(s)` */
  function Value(s: string): nat {
    if s == "" || !IsDigit(s[|s| - 1]) then 0
    else 10 * Value(s[..|s| - 1]) + (s[|s| - 1] as nat - '0' as nat)
  }

  lemma {:induction false} DecimalValue(n: nat)
    ensures Numeric(Decimal(n)) && NoLeadingZero(Decimal(n)) && Value(Decimal(n)) == n
    decreases n
  {
    var s := Decimal(n);
    if n < 10 {
      assert s[..0] == "";
    } else {
      DecimalValue(n / 10);
      assert s[..|s| - 1] == Decimal(n / 10);
      LeadingDigit(n / 10);
    }
  }

  lemma {:induction false} LeadingDigit(n: nat)
    requires n > 0
    ensures Decimal(n)[0] != '0'
  {
    if n >= 10 { LeadingDigit(n / 10); }
  }

  lemma TenTimes(n: nat, d: nat)
    requires n > 0 && d < 10
    ensures 10 * n + d >= 10 && (10 * n + d) / 10 == n && (10 * n + d) % 10 == d
  {
  }

  lemma {:induction false} ValueDecimal(s: string)
    requires Numeric(s) && NoLeadingZero(s)
    ensures Decimal(Value(s)) == s && (Value(s) == 0 ==> s == "0")
    decreases |s|
  {
    var n := |s| - 1;
    var front, d := s[..n], s[n] as nat - '0' as nat;
    assert s == front + [s[n]] && Digit(d) == s[n];
    if n == 0 {
      assert front == "";
    } else {
      assert front[0] == s[0];
      ValueDecimal(front);
      TenTimes(Value(front), d);
      assert Value(s) == 10 * Value(front) + d;
    }
  }

  /** Without leading zeros, equal numbers are equal texts. */
  lemma ValueInjective(a: string, b: string)
    requires Numeric(a) && Numeric(b) && NoLeadingZero(a) && NoLeadingZero(b)
    ensures Value(a) == Value(b) <==> a == b
  {
    ValueDecimal(a);
    ValueDecimal(b);
  }

  // ---------------------------------------------------------------- comparison

  /** `left < right` on strings: code point order. */
  predicate TextLess(a: string, b: string) {
    b != "" && (a == "" || a[0] < b[0] || (a[0] == b[0] && TextLess(a[1..], b[1..])))
  }

  predicate IdentifierLess(a: string, b: string) {
    if Numeric(a) && Numeric(b) then Value(a) < Value(b)
    else if Numeric(a) != Numeric(b) then Numeric(a)
    else TextLess(a, b)
  }

  /** The loop of `__lt__` over the identifiers, then the lengths. */
  predicate PreLess(a: seq<string>, b: seq<string>) {
    if a == [] || b == [] then |a| < |b|
    else if a[0] == b[0] then PreLess(a[1..], b[1..])
    else IdentifierLess(a[0], b[0])
  }

  predicate CoreLess(a: Version, b: Version) {
    a.major < b.major || (a.major == b.major && (a.minor < b.minor || (a.minor == b.minor && a.patch < b.patch)))
  }

  predicate SameCore(a: Version, b: Version) {
    a.major == b.major && a.minor == b.minor && a.patch == b.patch
  }

  /** `__lt__` */
  predicate Less(a: Version, b: Version) {
    if !SameCore(a, b) then CoreLess(a, b)
    else if a.pre == [] || b.pre == [] then a.pre != [] && b.pre == []
    else PreLess(a.pre, b.pre)
  }

  /** `__eq__` */
  predicate Equal(a: Version, b: Version) {
    SameCore(a, b) && a.pre == b.pre
  }

  // ---------------------------------------------------------------- a strict total order

  lemma {:induction false} TextTrichotomy(a: string, b: string)
    ensures !(TextLess(a, b) && TextLess(b, a)) && (a == b ==> !TextLess(a, b))
    ensures a == b || TextLess(a, b) || TextLess(b, a)
    decreases |a|
  {
    if a != "" && b != "" {
      TextTrichotomy(a[1..], b[1..]);
      assert a == [a[0]] + a[1..] && b == [b[0]] + b[1..];
    }
  }

  lemma {:induction false} TextTransitive(a: string, b: string, c: string)
    requires TextLess(a, b) && TextLess(b, c)
    ensures TextLess(a, c)
    decreases |a|
  {
    if a != "" && a[0] == b[0] == c[0] { TextTransitive(a[1..], b[1..], c[1..]); }
  }

  lemma IdentifierTrichotomy(a: string, b: string)
    requires PreIdentifier(a) && PreIdentifier(b)
    ensures !(IdentifierLess(a, b) && IdentifierLess(b, a)) && (a == b ==> !IdentifierLess(a, b))
    ensures a == b || IdentifierLess(a, b) || IdentifierLess(b, a)
  {
    if Numeric(a) && Numeric(b) {
      ValueInjective(a, b);
    } else {
      TextTrichotomy(a, b);
    }
  }

  lemma IdentifierTransitive(a: string, b: string, c: string)
    requires IdentifierLess(a, b) && IdentifierLess(b, c)
    ensures IdentifierLess(a, c)
  {
    if !Numeric(a) && !Numeric(b) && !Numeric(c) { TextTransitive(a, b, c); }
  }

  predicate PreIdentifiers(xs: seq<string>) {
    forall i :: 0 <= i < |xs| ==> PreIdentifier(xs[i])
  }

  lemma {:induction false} PreTrichotomy(a: seq<string>, b: seq<string>)
    requires PreIdentifiers(a) && PreIdentifiers(b)
    ensures !(PreLess(a, b) && PreLess(b, a)) && (a == b ==> !PreLess(a, b))
    ensures a == b || PreLess(a, b) || PreLess(b, a)
    decreases |a|
  {
    if a != [] && b != [] {
      if a[0] == b[0] {
        PreTrichotomy(a[1..], b[1..]);
        assert a == [a[0]] + a[1..] && b == [b[0]] + b[1..];
      } else {
        IdentifierTrichotomy(a[0], b[0]);
      }
    }
  }

  lemma {:induction false} PreTransitive(a: seq<string>, b: seq<string>, c: seq<string>)
    requires PreIdentifiers(a) && PreIdentifiers(b) && PreIdentifiers(c) && PreLess(a, b) && PreLess(b, c)
    ensures PreLess(a, c)
    decreases |a|
  {
    if a != [] && b != [] && c != [] {
      if a[0] == b[0] == c[0] {
        PreTransitive(a[1..], b[1..], c[1..]);
      } else if a[0] != b[0] && b[0] != c[0] {
        IdentifierTransitive(a[0], b[0], c[0]);
        IdentifierTrichotomy(a[0], b[0]);
      }
    }
  }

  /** Exactly one of less, equal and greater; so irreflexive and asymmetric. */
  lemma Trichotomy(a: Version, b: Version)
    requires Valid(a) && Valid(b)
    ensures Less(a, b) <==> !Equal(a, b) && !Less(b, a)
    ensures Equal(a, b) <==> !Less(a, b) && !Less(b, a)
  {
    PreTrichotomy(a.pre, b.pre);
  }

  lemma Transitive(a: Version, b: Version, c: Version)
    requires Valid(a) && Valid(b) && Valid(c) && Less(a, b) && Less(b, c)
    ensures Less(a, c)
  {
    if SameCore(a, b) && SameCore(b, c) && a.pre != [] && b.pre != [] && c.pre != [] {
      PreTransitive(a.pre, b.pre, c.pre);
    }
  }

  /** Equal versions compare alike with every other, and build metadata is never looked at. */
  lemma EqualIsCongruent(a: Version, b: Version, c: Version, build: seq<string>)
    requires Equal(a, b)
    ensures (Less(a, c) <==> Less(b, c)) && (Less(c, a) <==> Less(c, b))
    ensures Equal(a, a.(build := build)) && (Less(a, c) <==> Less(a.(build := build), c))
  {
  }

  // ---------------------------------------------------------------- section 11 of SemVer 2.0.0

  /** Two identifiers that do not differ: the same number, or the same text. */
  predicate SameIdentifier(a: string, b: string) {
    if Numeric(a) && Numeric(b) then Value(a) == Value(b) else a == b
  }

  /** 11.4.1 numerically, 11.4.2 in ASCII order, 11.4.3 numbers below the rest. */
  ghost predicate LowerIdentifier(a: string, b: string) {
    || (Numeric(a) && Numeric(b) && Value(a) < Value(b))
    || (!Numeric(a) && !Numeric(b) && AsciiLower(a, b))
    || (Numeric(a) && !Numeric(b))
  }

  ghost predicate AsciiLower(a: string, b: string) {
    exists i :: 0 <= i <= |a| && i < |b| && a[..i] == b[..i] && (i == |a| || a[i] < b[i])
  }

  /** 11.4: the first difference decides, or (11.4.4) the shorter of two that agree. */
  ghost predicate LowerPre(a: seq<string>, b: seq<string>) {
    exists i :: 0 <= i <= |a| && i < |b| && Agree(a, b, i) && (i == |a| || LowerIdentifier(a[i], b[i]))
  }

  ghost predicate Agree(a: seq<string>, b: seq<string>, n: nat) {
    n <= |a| && n <= |b| && forall k :: 0 <= k < n ==> SameIdentifier(a[k], b[k])
  }

  /** 11.2: major, minor and patch numerically; 11.3: a pre-release below the release; 11.4 otherwise. */
  ghost predicate Lower(a: Version, b: Version) {
    || a.major < b.major
    || (a.major == b.major && a.minor < b.minor)
    || (a.major == b.major && a.minor == b.minor && a.patch < b.patch)
    || (SameCore(a, b) && a.pre != [] && b.pre == [])
    || (SameCore(a, b) && a.pre != [] && b.pre != [] && LowerPre(a.pre, b.pre))
  }

  lemma {:induction false} TextLessIsAscii(a: string, b: string)
    ensures TextLess(a, b) <==> AsciiLower(a, b)
    decreases |a|
  {
    if a == "" {
      if b != "" { assert a[..0] == b[..0]; }
    } else if b != "" {
      TextLessIsAscii(a[1..], b[1..]);
      if TextLess(a, b) {
        if a[0] < b[0] {
          assert a[..0] == b[..0];
        } else {
          var i :| 0 <= i <= |a[1..]| && i < |b[1..]| && a[1..][..i] == b[1..][..i]
                   && (i == |a[1..]| || a[1..][i] < b[1..][i]);
          assert a[..i + 1] == [a[0]] + a[1..][..i] && b[..i + 1] == [b[0]] + b[1..][..i];
        }
      }
      if AsciiLower(a, b) {
        var i :| 0 <= i <= |a| && i < |b| && a[..i] == b[..i] && (i == |a| || a[i] < b[i]);
        if i > 0 {
          assert a[..i][0] == b[..i][0];
          assert a[1..][..i - 1] == a[..i][1..] && b[1..][..i - 1] == b[..i][1..];
        }
      }
    }
  }

  lemma SameIdentifierIff(a: string, b: string)
    requires PreIdentifier(a) && PreIdentifier(b)
    ensures SameIdentifier(a, b) <==> a == b
    ensures LowerIdentifier(a, b) <==> IdentifierLess(a, b)
  {
    if Numeric(a) && Numeric(b) { ValueInjective(a, b); }
    TextLessIsAscii(a, b);
  }

  lemma {:induction false} PreLessIsLower(a: seq<string>, b: seq<string>)
    requires PreIdentifiers(a) && PreIdentifiers(b)
    ensures PreLess(a, b) <==> LowerPre(a, b)
    decreases |a|
  {
    if a == [] {
      if b != [] { assert Agree(a, b, 0); }
    } else if b != [] {
      SameIdentifierIff(a[0], b[0]);
      IdentifierTrichotomy(a[0], b[0]);
      PreLessIsLower(a[1..], b[1..]);
      if PreLess(a, b) {
        if a[0] != b[0] {
          assert Agree(a, b, 0);
        } else {
          var i :| 0 <= i <= |a[1..]| && i < |b[1..]| && Agree(a[1..], b[1..], i)
                   && (i == |a[1..]| || LowerIdentifier(a[1..][i], b[1..][i]));
          AgreeNext(a, b, i);
        }
      }
      if LowerPre(a, b) {
        var i :| 0 <= i <= |a| && i < |b| && Agree(a, b, i) && (i == |a| || LowerIdentifier(a[i], b[i]));
        if i > 0 {
          assert SameIdentifier(a[0], b[0]);
          AgreeRest(a, b, i);
        }
      }
    }
  }

  lemma AgreeNext(a: seq<string>, b: seq<string>, i: nat)
    requires a != [] && b != [] && a[0] == b[0] && Agree(a[1..], b[1..], i)
    ensures Agree(a, b, i + 1)
  {
  }

  lemma AgreeRest(a: seq<string>, b: seq<string>, i: nat)
    requires a != [] && b != [] && i > 0 && Agree(a, b, i)
    ensures Agree(a[1..], b[1..], i - 1)
  {
  }

  /** The comparison is the precedence of section 11. */
  lemma LessIsPrecedence(a: Version, b: Version)
    requires Valid(a) && Valid(b)
    ensures Less(a, b) <==> Lower(a, b)
  {
    PreLessIsLower(a.pre, b.pre);
  }

  /** What the constructor's last check is for: these identifiers differ but neither is less. */
  lemma LeadingZeroExample()
    ensures var a, b := Version(1, 0, 0, ["01"], []), Version(1, 0, 0, ["1"], []);
            !Equal(a, b) && !Less(a, b) && !Less(b, a) && !Valid(a)
  {
  }
}
