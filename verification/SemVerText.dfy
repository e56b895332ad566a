/**
 Reading and printing versions (the constructor of `SemVer`, doctor.py): the pattern accepts exactly
 the texts that print a valid version.
 */
module SemVerText {
  import opened Alphabets
  import opened Wrappers
  import opened Numerals
  import opened SemVer

  // ---------------------------------------------------------------- splitting

  /** The index of the first `c`, or the length. */
  function IndexOf(s: string, c: char): (i: nat)
    ensures i <= |s| && (i < |s| ==> s[i] == c) && c !in s[..i]
  {
    if s == "" || s[0] == c then 0 else
      var i := 1 + IndexOf(s[1..], c);
      assert s[..i] == [s[0]] + s[1..][..i - 1];
      i
  }

  lemma {:induction false} IndexOfFirst(head: string, c: char, tail: string)
    requires c !in head
    ensures IndexOf(head + [c] + tail, c) == |head|
  {
    var s := head + [c] + tail;
    if head != "" {
      IndexOfFirst(head[1..], c, tail);
      assert s[1..] == head[1..] + [c] + tail;
    }
  }

  lemma {:induction false} IndexOfNone(s: string, c: char)
    requires c !in s
    ensures IndexOf(s, c) == |s|
  {
  }

  function Split(s: string, c: char): (parts: seq<string>)
    ensures parts != [] && forall i :: 0 <= i < |parts| ==> c !in parts[i]
    decreases |s|
  {
    var i := IndexOf(s, c);
    if i == |s| then assert s[..i] == s; [s] else [s[..i]] + Split(s[i + 1..], c)
  }

  function Join(parts: seq<string>, c: char): string
    requires parts != []
  {
    if |parts| == 1 then parts[0] else parts[0] + [c] + Join(parts[1..], c)
  }

  lemma JoinPrepend(head: string, rest: seq<string>, c: char)
    requires rest != []
    ensures Join([head] + rest, c) == head + [c] + Join(rest, c)
  {
    assert ([head] + rest)[1..] == rest;
  }

  lemma SplitPrepend(head: string, tail: string, c: char)
    requires c !in head
    ensures Split(head + [c] + tail, c) == [head] + Split(tail, c)
  {
    var s := head + [c] + tail;
    IndexOfFirst(head, c, tail);
    assert s[..|head|] == head && s[|head| + 1..] == tail;
  }

  lemma SplitNone(s: string, c: char)
    requires c !in s
    ensures Split(s, c) == [s]
  {
    IndexOfNone(s, c);
  }

  lemma {:induction false} JoinSplit(s: string, c: char)
    ensures Join(Split(s, c), c) == s
    decreases |s|
  {
    hide Split, IndexOf;
    var i := IndexOf(s, c);
    if i == |s| {
      assert s[..i] == s;
      SplitNone(s, c);
    } else {
      hide Join;
      var tail := s[i + 1..];
      assert s == s[..i] + [c] + tail;
      SplitPrepend(s[..i], tail, c);
      JoinPrepend(s[..i], Split(tail, c), c);
      JoinSplit(tail, c);
    }
  }

  lemma {:induction false} SplitJoin(parts: seq<string>, c: char)
    requires parts != [] && forall i :: 0 <= i < |parts| ==> c !in parts[i]
    ensures Split(Join(parts, c), c) == parts
    decreases |parts|
  {
    hide Split;
    if |parts| == 1 {
      SplitNone(parts[0], c);
    } else {
      SplitJoin(parts[1..], c);
      SplitPrepend(parts[0], Join(parts[1..], c), c);
      assert parts == [parts[0]] + parts[1..];
    }
  }

  lemma {:induction false} JoinChars(parts: seq<string>, c: char, other: char)
    requires parts != [] && other != c && forall i :: 0 <= i < |parts| ==> other !in parts[i]
    ensures other !in Join(parts, c)
    decreases |parts|
  {
    if |parts| > 1 { JoinChars(parts[1..], c, other); }
  }

  // ---------------------------------------------------------------- reading

  predicate CoreNumber(s: string) {
    Numeric(s) && NoLeadingZero(s)
  }

  predicate All(parts: seq<string>, build: bool) {
    forall i :: 0 <= i < |parts| ==> if build then Identifier(parts[i]) else PreIdentifier(parts[i])
  }

  /** `-a.b` or `+a.b`: the part after a mark, if the mark is there. */
  function Tail(s: string, mark: char): seq<string> {
    var i := IndexOf(s, mark);
    if i == |s| then [] else Split(s[i + 1..], '.')
  }

  function Head(s: string, mark: char): string {
    s[..IndexOf(s, mark)]
  }

  /** The constructor; None is its ValueError. */
  function Parse(text: string): Option<Version> {
    var build := Tail(text, '+');
    var left := Head(text, '+');
    var pre := Tail(left, '-');
    var core := Split(Head(left, '-'), '.');
    if |core| == 3 && CoreNumber(core[0]) && CoreNumber(core[1]) && CoreNumber(core[2])
       && All(pre, false) && All(build, true)
    then Some(Version(Value(core[0]), Value(core[1]), Value(core[2]), pre, build)) else None
  }

  // ---------------------------------------------------------------- printing

  function CoreParts(v: Version): seq<string> {
    [Decimal(v.major), Decimal(v.minor), Decimal(v.patch)]
  }

  function Marked(mark: char, parts: seq<string>): string {
    if parts == [] then "" else [mark] + Join(parts, '.')
  }

  function Print(v: Version): string {
    Join(CoreParts(v), '.') + Marked('-', v.pre) + Marked('+', v.build)
  }

  lemma MarkedRoundTrip(head: string, mark: char, parts: seq<string>)
    requires mark !in head && forall i :: 0 <= i < |parts| ==> '.' !in parts[i]
    ensures Head(head + Marked(mark, parts), mark) == head && Tail(head + Marked(mark, parts), mark) == parts
  {
    var s := head + Marked(mark, parts);
    if parts == [] {
      assert s == head;
      IndexOfNone(s, mark);
    } else {
      assert s == head + [mark] + Join(parts, '.');
      IndexOfFirst(head, mark, Join(parts, '.'));
      SplitJoin(parts, '.');
      assert s[|head| + 1..] == Join(parts, '.');
    }
  }

  lemma CutAt(s: string, i: nat, mark: char)
    requires i < |s| && s[i] == mark
    ensures s == s[..i] + ([mark] + s[i + 1..])
  {
  }

  lemma HeadTail(s: string, mark: char)
    ensures s == Head(s, mark) + Marked(mark, Tail(s, mark))
  {
    var i := IndexOf(s, mark);
    if i < |s| {
      JoinSplit(s[i + 1..], '.');
      CutAt(s, i, mark);
      assert Marked(mark, Tail(s, mark)) == [mark] + s[i + 1..];
    } else {
      assert s[..i] + "" == s;
    }
  }

  lemma NumericChars(s: string, c: char)
    requires Numeric(s) && !IsDigit(c)
    ensures c !in s
  {
  }

  lemma CoreChars(v: Version, c: char)
    requires !IsDigit(c)
    ensures forall i :: 0 <= i < 3 ==> c !in CoreParts(v)[i]
    ensures c != '.' ==> c !in Join(CoreParts(v), '.')
  {
    forall i | 0 <= i < 3 ensures c !in CoreParts(v)[i] {
      DecimalValue(v.major); DecimalValue(v.minor); DecimalValue(v.patch);
      NumericChars(CoreParts(v)[i], c);
    }
    if c != '.' { JoinChars(CoreParts(v), '.', c); }
  }

  lemma IdentifierChars(parts: seq<string>, c: char)
    requires (forall i :: 0 <= i < |parts| ==> Identifier(parts[i])) && !IsIdentifierChar(c)
    ensures forall i :: 0 <= i < |parts| ==> c !in parts[i]
    ensures c != '.' && c != '-' ==> c !in Marked('-', parts)
  {
    forall i | 0 <= i < |parts| ensures c !in parts[i] {
      assert Identifier(parts[i]);
    }
    if parts != [] && c != '.' { JoinChars(parts, '.', c); }
  }

  /** Every valid version is read back from its text. */
  lemma ParsePrint(v: Version)
    requires Valid(v)
    ensures Parse(Print(v)) == Some(v)
  {
    var core := Join(CoreParts(v), '.');
    var left := core + Marked('-', v.pre);
    CoreChars(v, '.');
    CoreChars(v, '+');
    CoreChars(v, '-');
    IdentifierChars(v.pre, '.');
    IdentifierChars(v.pre, '+');
    IdentifierChars(v.build, '.');
    MarkedRoundTrip(left, '+', v.build);
    MarkedRoundTrip(core, '-', v.pre);
    SplitJoin(CoreParts(v), '.');
    DecimalValue(v.major);
    DecimalValue(v.minor);
    DecimalValue(v.patch);
  }

  /** And a text that is read is the print of the valid version it is read as. */
  lemma PrintParse(text: string)
    requires Parse(text).Some?
    ensures Valid(Parse(text).value) && Print(Parse(text).value) == text
  {
    var left := Head(text, '+');
    var core := Split(Head(left, '-'), '.');
    HeadTail(text, '+');
    HeadTail(left, '-');
    JoinSplit(Head(left, '-'), '.');
    ValueDecimal(core[0]);
    ValueDecimal(core[1]);
    ValueDecimal(core[2]);
    var v := Parse(text).value;
    assert CoreParts(v) == core;
    assert All(v.pre, false) && All(v.build, true);
  }

  /** So the constructor accepts exactly the texts of valid versions, and no text has two readings. */
  lemma AcceptedIff(text: string)
    ensures Parse(text).Some? <==> exists v: Version :: Valid(v) && Print(v) == text
  {
    if Parse(text).Some? { PrintParse(text); }
    if v: Version :| Valid(v) && Print(v) == text { ParsePrint(v); }
  }

  // ---------------------------------------------------------------- which identifiers are valid

  /** Letters, digits and hyphens, at least one. */
  lemma IdentifierIff(s: string)
    ensures Identifier(s) <==>
            s != "" && forall c :: c in s ==> c in Alphabet('A') || c in Alphabet('a') || c in DIGITS || c == '-'
  {
    hide DIGITS;
    EveryLetter();
    if Identifier(s) {
      forall c | c in s ensures IsIdentifierChar(c) {
        var i :| 0 <= i < |s| && s[i] == c;
      }
    } else if s != "" {
      var i :| 0 <= i < |s| && !IsIdentifierChar(s[i]);
      assert s[i] in s;
    }
  }

  /** Before the release, a number has no leading zero either. */
  lemma PreIdentifierIff(s: string)
    ensures PreIdentifier(s) <==>
            Identifier(s) && !((forall c :: c in s ==> c in DIGITS) && |s| > 1 && s[0] == '0')
  {
    hide DIGITS;
    EveryLetter();
    if s != "" && forall c :: c in s ==> c in DIGITS {
      forall i | 0 <= i < |s| ensures IsDigit(s[i]) {
        assert s[i] in s;
      }
    }
    if s != "" && Numeric(s) {
      forall c | c in s ensures c in DIGITS {
        var i :| 0 <= i < |s| && s[i] == c;
      }
    }
  }
}
