/**
 What environment expansion makes of text that is not a template (`Config._expand_env_string`, config.py):
 which names are taken, and how a first expression that never closes, has no name or is already being
 expanded is refused.
 */
module Malformed {
  import opened Alphabets
  import opened Wrappers
  import opened Expansion

  /** A letter or an underscore, and then letters, underscores and digits. */
  ghost predicate IsName(name: string) {
    && name != ""
    && (name[0] in Alphabet('A') || name[0] in Alphabet('a') || name[0] == '_')
    && forall c :: c in name ==> c in Alphabet('A') || c in Alphabet('a') || c == '_' || c in DIGITS
  }

  lemma ValidNameIff(name: string)
    ensures ValidName(name) <==> IsName(name)
  {
    hide DIGITS;
    EveryLetter();
    if ValidName(name) {
      forall c | c in name ensures NameChar(c) {
        var i :| 0 <= i < |name| && name[i] == c;
      }
    }
    if IsName(name) {
      forall i | 0 <= i < |name| ensures NameChar(name[i]) {
        assert name[i] in name;
      }
    }
  }

  // ---------------------------------------------------------------- the first expression of a text

  ghost predicate FirstOpens(value: string, i: nat) {
    Opens(value, i) && forall k: nat :: k < i ==> !Opens(value, k)
  }

  /** The expression whose body starts at i closes at c: there the braces balance for the first time. */
  ghost predicate ClosesAt(value: string, i: nat, c: nat) {
    && i <= c < |value| && value[c] == '}' && Balance(value, i, c) == 0
    && forall j :: i <= j <= c ==> Balance(value, i, j) >= 0
  }

  /** The name of a body is what stands before its first `:-` outside every expression in it. */
  ghost predicate NameOf(body: string, name: string) {
    && name <= body
    && (|name| == |body| || (Separates(body, |name|) && Balance(body, 0, |name|) == 0))
    && forall j :: 0 <= j < |name| ==> !(Separates(body, j) && Balance(body, 0, j) == 0)
  }

  lemma {:induction false} FindsFirst(value: string, from: nat, i: nat)
    requires from <= i && FirstOpens(value, i)
    ensures FindOpen(value, from) == i
    decreases i - from
  {
    if from < i { FindsFirst(value, from + 1, i); }
  }

  /** The scanner closes an expression exactly where it closes. */
  lemma ClosesIff(value: string, i: nat, c: nat)
    requires i <= |value|
    ensures ClosesAt(value, i, c) <==> CloseBrace(value, i, 1) == Some(c)
  {
    CloseBraceIsFirstBalanced(value, i, 1);
    var r := CloseBrace(value, i, 1);
    var end := if r.Some? then r.value else |value|;
    if r.Some? { assert Balance(value, i, end + 1) == Balance(value, i, end) - 1; }
    if ClosesAt(value, i, c) {
      assert Balance(value, i, c + 1) == Balance(value, i, c) - 1;
    }
  }

  /** A body is balanced like the text it is cut from. */
  lemma {:induction false} BodyBalance(value: string, i: nat, c: nat, j: nat)
    requires i <= c < |value| && value[c] == '}' && j <= c - i
    ensures Balance(value[i..c], 0, j) == Balance(value, i, i + j)
    decreases j
  {
    if j > 0 {
      BodyBalance(value, i, c, j - 1);
      assert value[i..c][j - 1] == value[i + j - 1];
      if j < c - i { assert value[i..c][j] == value[i + j]; }
    }
  }

  /** The separator search cuts a closed body after its name. */
  lemma NameIff(value: string, i: nat, c: nat, name: string)
    requires ClosesAt(value, i, c)
    ensures NameOf(value[i..c], name) <==> Split(value[i..c]).0 == name
  {
    var body := value[i..c];
    forall j | 0 <= j <= |body| ensures Balance(body, 0, j) >= 0 { BodyBalance(value, i, c, j); }
    SeparatorIsFirstTopLevel(body, 0, 0);
    var r := Separator(body, 0, 0);
    var end := if r.Some? then r.value else |body|;
    assert Split(body).0 == body[..end];
    if NameOf(body, name) {
      assert name == body[..|name|];
    }
  }

  lemma ExpandsFirst(env: Env, home: string -> string, value: string, i: nat, depth: nat, stack: seq<string>)
    requires depth <= MAX_DEPTH && FirstOpens(value, i)
    ensures CloseBrace(value, i + 2, 1).None? ==> Expand(env, home, value, depth, stack) == Err(Unterminated)
    ensures CloseBrace(value, i + 2, 1).Some? ==>
              var inner := ExpandBody(env, home, value[i + 2..CloseBrace(value, i + 2, 1).value], depth, stack);
              inner.Err? ==> Expand(env, home, value, depth, stack) == Err(inner.error)
  {
    FindsFirst(value, 0, i);
    hide ExpandBody, CloseBrace;
  }

  /**
   The first expression of any text, with its body at i: if its braces never balance the expansion is refused
   as unterminated; if they do, a name that is none is refused, and so is one that is being expanded already.
   */
  lemma FirstExpressionDecides(env: Env, home: string -> string, value: string, i: nat, depth: nat,
                               stack: seq<string>)
    requires depth <= 16 && i >= 2 && FirstOpens(value, i - 2)
    ensures (forall c: nat :: !ClosesAt(value, i, c)) ==> Expand(env, home, value, depth, stack) == Err(Unterminated)
    ensures forall c: nat, name :: ClosesAt(value, i, c) && NameOf(value[i..c], name) ==>
              && (!IsName(name) ==> Expand(env, home, value, depth, stack) == Err(InvalidName(name)))
              && (IsName(name) && name in stack ==>
                    Expand(env, home, value, depth, stack) == Err(Cyclic(stack + [name])))
  {
    ExpandsFirst(env, home, value, i - 2, depth, stack);
    hide Expand, ValidName, IsName, CloseBrace, ClosesAt, NameOf;
    var r := CloseBrace(value, i, 1);
    if r.Some? { ClosesIff(value, i, r.value); }
    forall c: nat, name | ClosesAt(value, i, c) && NameOf(value[i..c], name)
      ensures (!IsName(name) ==> Expand(env, home, value, depth, stack) == Err(InvalidName(name)))
      ensures (IsName(name) && name in stack ==>
                 Expand(env, home, value, depth, stack) == Err(Cyclic(stack + [name])))
    {
      ClosesIff(value, i, c);
      NameIff(value, i, c, name);
      ValidNameIff(name);
    }
  }

  // ---------------------------------------------------------------- an example

  const INNER := Var("B_2", Nil)

  const EXAMPLE := Text("<", VarOr("A", INNER, Text(">", Nil)))

  const TEMPLATES := map["A" := Nil, "B_2" := Text("x", Nil)]

  lemma ExampleWellFormed()
    ensures WellFormed(EXAMPLE, false) && EnvWellFormed(TEMPLATES)
  {
    ValidNameIff("A");
    ValidNameIff("B_2");
    LetterIff('A');
    LetterIff('B');
    LetterIff('2');
    hide ValidName, Alphabet, DIGITS;
    assert forall c :: c in "A" ==> c == 'A';
    assert forall c :: c in "B_2" ==> c == 'B' || c == '_' || c == '2';
    assert WellFormed(INNER, true);
  }

  lemma ExampleText()
    ensures Print(EXAMPLE) == "<${A:-${B_2}}>"
  {
    assert Print(INNER) == "${B_2}";
    assert Print(Text(">", Nil)) == ">";
    assert Print(VarOr("A", INNER, Text(">", Nil))) == "${A:-${B_2}}>";
  }

  lemma ExampleValue(home: string -> string)
    requires forall text :: home(text) == text
    ensures Eval(TEMPLATES, home, EXAMPLE, 0, []) == Ok("<x>")
  {
    var x, end := Text("x", Nil), Text(">", Nil);
    var or := VarOr("A", INNER, end);
    assert Print(Nil) == "" && Print(x) == "x";
    assert EvalPieces(TEMPLATES, home, x, 2, ["A", "B_2"]) == Ok("x");
    assert ["A"] + ["B_2"] == ["A", "B_2"];
    assert Eval(TEMPLATES, home, x, 2, ["A"] + ["B_2"]) == Ok("x");
    assert EvalPieces(TEMPLATES, home, INNER, 1, ["A"]) == Ok("x");
    assert [] + ["A"] == ["A"];
    assert Eval(TEMPLATES, home, INNER, 1, [] + ["A"]) == Ok("x");
    assert ">" + "" == ">" && "x" + ">" == "x>" && "<" + "x>" == "<x>";
    assert EvalPieces(TEMPLATES, home, Nil, 0, []) == Ok("");
    assert EvalPieces(TEMPLATES, home, end, 0, []) == Ok(">");
    assert Chosen(TEMPLATES, "A", Some(INNER)) == INNER;
    assert EvalReference(TEMPLATES, home, "A", Some(INNER), or, end, 0, []) == Ok("x>");
    assert EvalPieces(TEMPLATES, home, or, 0, []) == Ok("x>");
    assert EvalPieces(TEMPLATES, home, EXAMPLE, 0, []) == Ok("<x>");
  }

  lemma ExampleEnv()
    ensures PrintEnv(TEMPLATES) == map["A" := "", "B_2" := "x"]
  {
    assert Print(Nil) == "" && Print(Text("x", Nil)) == "x";
  }

  /** A text with every form of the grammar: the empty value of A gives way to its default, an expression again. */
  lemma NestedExample(home: string -> string)
    requires forall text :: home(text) == text
    ensures Expand(map["A" := "", "B_2" := "x"], home, "<${A:-${B_2}}>", 0, []) == Ok("<x>")
  {
    ExampleWellFormed();
    ExampleText();
    ExampleValue(home);
    ExampleEnv();
    hide Expand, Eval, WellFormed, EnvWellFormed, Print, PrintEnv, EXAMPLE, TEMPLATES;
    ExpandIsEval(TEMPLATES, home, EXAMPLE, 0, []);
  }
}
