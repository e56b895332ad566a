/**
 Environment expansion of configuration strings (`Config._expand_env_string`, config.py):
 `${VAR}` and `${VAR:-default}`, where defaults and environment values are templates again.
 The environment is a parameter, and so is `home`, the effect of `os.path.expanduser`.
 */
module Expansion {
  import opened Wrappers

  const MAX_DEPTH: nat := 16

  datatype Error = TooDeep | Unterminated | InvalidName(name: string) | Cyclic(chain: seq<string>)

  type Env = map<string, string>

  // ---------------------------------------------------------------- the scanners

  predicate Opens(s: string, i: nat) {
    i + 1 < |s| && s[i] == '$' && s[i + 1] == '{'
  }

  predicate Separates(s: string, i: nat) {
    i + 1 < |s| && s[i] == ':' && s[i + 1] == '-'
  }

  /** `s.find("${", from)`, or the length when there is none. */
  function FindOpen(s: string, from: nat): (i: nat)
    requires from <= |s|
    ensures from <= i <= |s|
    ensures i < |s| ==> Opens(s, i)
    decreases |s| - from
  {
    if from == |s| then from else if Opens(s, from) then from else FindOpen(s, from + 1)
  }

  /** The brace scanner: where the expression whose body starts at `i` closes. */
  function CloseBrace(s: string, i: nat, level: nat): (r: Option<nat>)
    requires i <= |s| && level > 0
    ensures r.Some? ==> i <= r.value < |s|
    decreases |s| - i
  {
    if i == |s| then None
    else if Opens(s, i) then CloseBrace(s, i + 2, level + 1)
    else if s[i] == '}' then if level == 1 then Some(i) else CloseBrace(s, i + 1, level - 1)
    else CloseBrace(s, i + 1, level)
  }

  /** The separator search. */
  function Separator(e: string, offset: nat, nested: nat): (r: Option<nat>)
    ensures r.Some? ==> offset <= r.value && Separates(e, r.value)
    decreases |e| - offset
  {
    if offset + 1 >= |e| then None
    else if Opens(e, offset) then Separator(e, offset + 2, nested + 1)
    else if e[offset] == '}' && nested > 0 then Separator(e, offset + 1, nested - 1)
    else if nested == 0 && Separates(e, offset) then Some(offset)
    else Separator(e, offset + 1, nested)
  }

  /** Openings minus closings among the characters i..j. */
  function Balance(s: string, i: nat, j: nat): int
    requires i <= j <= |s|
    decreases j
  {
    if i == j then 0
    else Balance(s, i, j - 1) + (if Opens(s, j - 1) then 1 else 0) - (if s[j - 1] == '}' then 1 else 0)
  }

  lemma {:induction false} BalanceSplit(s: string, i: nat, m: nat, j: nat)
    requires i <= m <= j <= |s|
    ensures Balance(s, i, j) == Balance(s, i, m) + Balance(s, m, j)
    decreases j
  {
    if m < j {
      BalanceSplit(s, i, m, j - 1);
    }
  }

  /** The scanner finds the true matching brace: the first position where the balance returns to zero. */
  lemma {:induction false} CloseBraceIsFirstBalanced(s: string, i: nat, level: nat)
    requires i <= |s| && level > 0
    ensures var r := CloseBrace(s, i, level);
            var end := if r.Some? then r.value else |s|;
            && (forall j :: i <= j <= end ==> level + Balance(s, i, j) > 0)
            && (r.Some? ==> s[end] == '}' && level + Balance(s, i, end + 1) == 0)
    decreases |s| - i
  {
    if i < |s| {
      var r := CloseBrace(s, i, level);
      var end := if r.Some? then r.value else |s|;
      var step := if Opens(s, i) then 2 else 1;
      var next := if Opens(s, i) then level + 1 else if s[i] == '}' then level - 1 else level;
      assert Balance(s, i, i + 1) == (if Opens(s, i) then 1 else 0) - (if s[i] == '}' then 1 else 0);
      assert Opens(s, i) ==> Balance(s, i, i + 2) == Balance(s, i, i + 1);
      if next > 0 {
        CloseBraceIsFirstBalanced(s, i + step, next);
        forall j | i + step <= j <= |s| ensures Balance(s, i, j) == Balance(s, i, i + step) + Balance(s, i + step, j) {
          BalanceSplit(s, i, i + step, j);
        }
      }
    }
  }

  /** In a body whose closings never outrun its openings, the search finds the first top-level `:-`. */
  lemma {:induction false} SeparatorIsFirstTopLevel(e: string, offset: nat, nested: nat)
    requires offset <= |e| && nested == Balance(e, 0, offset)
    requires forall j :: 0 <= j <= |e| ==> Balance(e, 0, j) >= 0
    ensures var r := Separator(e, offset, nested);
            var end := if r.Some? then r.value else |e|;
            && (forall j :: offset <= j < end ==> !(Separates(e, j) && Balance(e, 0, j) == 0))
            && (r.Some? ==> Balance(e, 0, end) == 0)
    decreases |e| - offset
  {
    if offset + 1 < |e| {
      assert Balance(e, 0, offset + 1) ==
             nested + (if Opens(e, offset) then 1 else 0) - (if e[offset] == '}' then 1 else 0);
      if Opens(e, offset) {
        assert Balance(e, 0, offset + 2) == nested + 1;
        SeparatorIsFirstTopLevel(e, offset + 2, nested + 1);
      } else if e[offset] == '}' {
        assert nested > 0;
        SeparatorIsFirstTopLevel(e, offset + 1, nested - 1);
      } else if !(nested == 0 && Separates(e, offset)) {
        SeparatorIsFirstTopLevel(e, offset + 1, nested);
      }
    }
  }

  // ---------------------------------------------------------------- expansion of text

  predicate Letter(c: char) { 'A' <= c <= 'Z' || 'a' <= c <= 'z' || c == '_' }

  predicate NameChar(c: char) { Letter(c) || '0' <= c <= '9' }

  predicate ValidName(name: string) {
    name != "" && Letter(name[0]) && forall i :: 0 <= i < |name| ==> NameChar(name[i])
  }

  /** The name and the default of the expression body. */
  function Split(e: string): (string, Option<string>) {
    match Separator(e, 0, 0)
    case Some(k) => (e[..k], Some(e[k + 2..]))
    case None => (e, None)
  }

  function Selected(env: Env, name: string, default: Option<string>): string {
    if name !in env || (default.Some? && env[name] == "") then
      (if default.Some? then default.value else "")
    else env[name]
  }

  /** Output already produced, in front of what is still to come. */
  function Prepend(text: string, r: Result<string, Error>): Result<string, Error> {
    match r
    case Err(error) => Err(error)
    case Ok(rest) => Ok(text + rest)
  }

  /** What the scanners make of a text: copied text and expression bodies, in order. */
  datatype Tokens =
    | End(text: string)
    | Reference(before: string, body: string, rest: Tokens)
    | Broken(before: string)

  /** The scan of `value` from `cursor` on. */
  function Tokenize(value: string, cursor: nat): Tokens
    requires cursor <= |value|
    decreases |value| - cursor
  {
    var start := FindOpen(value, cursor);
    if start == |value| then End(value[cursor..]) else
      var close := CloseBrace(value, start + 2, 1);
      if close.None? then Broken(value[cursor..start])
      else Reference(value[cursor..start], value[start + 2..close.value], Tokenize(value, close.value + 1))
  }

  /** The text of one expression body. */
  function ExpandBody(env: Env, home: string -> string, body: string, depth: nat,
                      stack: seq<string>): Result<string, Error>
    requires depth <= MAX_DEPTH
    decreases MAX_DEPTH + 1 - depth, 0, End("")
  {
    var (name, default) := Split(body);
    if !ValidName(name) then Err(InvalidName(name))
    else if name in stack then Err(Cyclic(stack + [name]))
    else Expand(env, home, Selected(env, name, default), depth + 1, stack + [name])
  }

  function ExpandTokens(env: Env, home: string -> string, tokens: Tokens, depth: nat, stack: seq<string>)
    : Result<string, Error>
    requires depth <= MAX_DEPTH
    decreases MAX_DEPTH + 1 - depth, 1, tokens
  {
    match tokens
    case End(text) => Ok(text)
    case Broken(_) => Err(Unterminated)
    case Reference(before, body, rest) =>
      var inner := ExpandBody(env, home, body, depth, stack);
      if inner.Err? then inner else Prepend(before + inner.value, ExpandTokens(env, home, rest, depth, stack))
  }

  /** `_expand_env_string` */
  function Expand(env: Env, home: string -> string, value: string, depth: nat,
                  stack: seq<string>): Result<string, Error>
    decreases if depth > MAX_DEPTH then 0 else MAX_DEPTH + 1 - depth, 2, End("")
  {
    if depth > MAX_DEPTH then Err(TooDeep) else
      var text := ExpandTokens(env, home, Tokenize(value, 0), depth, stack);
      if text.Err? then text else Ok(home(text.value))
  }

  // ---------------------------------------------------------------- templates and their meaning

  datatype Template =
    | Nil
    | Text(text: string, rest: Template)
    | Var(name: string, rest: Template)
    | VarOr(name: string, default: Template, rest: Template)

  function Print(t: Template): string {
    match t
    case Nil => ""
    case Text(text, rest) => text + Print(rest)
    case Var(name, rest) => "${" + name + "}" + Print(rest)
    case VarOr(name, default, rest) => "${" + name + ":-" + Print(default) + "}" + Print(rest)
  }

  /** Literal text opens nothing, and inside a default closes nothing; adjacent texts are merged. */
  predicate WellFormed(t: Template, inner: bool) {
    match t
    case Nil => true
    case Text(text, rest) =>
      && (forall i :: 0 <= i < |text| ==> !Opens(text, i) && (inner ==> text[i] != '}'))
      && !rest.Text? && WellFormed(rest, inner)
    case Var(name, rest) => ValidName(name) && WellFormed(rest, inner)
    case VarOr(name, default, rest) => ValidName(name) && WellFormed(default, true) && WellFormed(rest, inner)
  }

  function PrintEnv(tenv: map<string, Template>): Env {
    map name | name in tenv :: Print(tenv[name])
  }

  function Chosen(tenv: map<string, Template>, name: string, default: Option<Template>): Template {
    if name !in tenv || (default.Some? && Print(tenv[name]) == "") then
      (if default.Some? then default.value else Nil)
    else tenv[name]
  }

  function EvalPieces(tenv: map<string, Template>, home: string -> string, t: Template, depth: nat,
                      stack: seq<string>): Result<string, Error>
    requires depth <= MAX_DEPTH
    decreases MAX_DEPTH + 1 - depth, 0, t
  {
    match t
    case Nil => Ok("")
    case Text(text, rest) => Prepend(text, EvalPieces(tenv, home, rest, depth, stack))
    case Var(name, rest) => EvalReference(tenv, home, name, None, t, rest, depth, stack)
    case VarOr(name, default, rest) => EvalReference(tenv, home, name, Some(default), t, rest, depth, stack)
  }

  /** A variable's value, or its default, followed by the rest of the template. */
  function EvalReference(tenv: map<string, Template>, home: string -> string, name: string, default: Option<Template>,
                         whole: Template, rest: Template, depth: nat, stack: seq<string>): Result<string, Error>
    requires depth <= MAX_DEPTH && rest < whole
    decreases MAX_DEPTH + 1 - depth, 0, whole, 0
  {
    if name in stack then Err(Cyclic(stack + [name])) else
      var inner := Eval(tenv, home, Chosen(tenv, name, default), depth + 1, stack + [name]);
      if inner.Err? then inner else Prepend(inner.value, EvalPieces(tenv, home, rest, depth, stack))
  }

  /** The meaning of a template. */
  function Eval(tenv: map<string, Template>, home: string -> string, t: Template, depth: nat,
                stack: seq<string>): Result<string, Error>
    decreases if depth > MAX_DEPTH then 0 else MAX_DEPTH + 1 - depth, 1
  {
    if depth > MAX_DEPTH then Err(TooDeep) else
      var text := EvalPieces(tenv, home, t, depth, stack);
      if text.Err? then text else Ok(home(text.value))
  }

  // ---------------------------------------------------------------- scanning printed templates

  /** `t` occurs in `s` at `i`. */
  predicate Occurs(s: string, i: nat, t: string) {
    i + |t| <= |s| && forall k :: 0 <= k < |t| ==> s[i + k] == t[k]
  }

  lemma OccursSplit(s: string, i: nat, a: string, b: string)
    requires Occurs(s, i, a + b)
    ensures Occurs(s, i, a) && Occurs(s, i + |a|, b)
  {
    forall k | 0 <= k < |a| ensures s[i + k] == a[k] {
      assert (a + b)[k] == a[k];
    }
    forall k | 0 <= k < |b| ensures s[i + |a| + k] == b[k] {
      assert (a + b)[|a| + k] == b[k];
    }
  }

  lemma OccursAt(s: string, i: nat, t: string, k: nat)
    requires Occurs(s, i, t) && k < |t|
    ensures s[i + k] == t[k]
  {
  }

  lemma OccursSlice(s: string, i: nat, t: string)
    requires Occurs(s, i, t)
    ensures s[i..i + |t|] == t
  {
  }

  /** The brace scanner passes over a run of plain characters. */
  lemma {:induction false} ClosePastPlain(s: string, i: nat, n: nat, level: nat)
    requires i + n <= |s| && level > 0
    requires forall k :: i <= k < i + n ==> !Opens(s, k) && s[k] != '}'
    ensures CloseBrace(s, i, level) == CloseBrace(s, i + n, level)
    decreases n
  {
    if n > 0 {
      ClosePastPlain(s, i + 1, n - 1, level);
    }
  }

  lemma ClosePastSeparator(s: string, i: nat, level: nat)
    requires Separates(s, i) && level > 0
    ensures CloseBrace(s, i, level) == CloseBrace(s, i + 2, level)
  {
  }

  lemma NamePlain(s: string, i: nat, name: string)
    requires ValidName(name) && Occurs(s, i, name)
    ensures forall k :: i <= k < i + |name| ==> !Opens(s, k) && s[k] != '}' && !Separates(s, k)
  {
    forall k | i <= k < i + |name| ensures NameChar(s[k]) {
      OccursAt(s, i, name, k - i);
    }
  }

  lemma TextPlain(s: string, i: nat, text: string)
    requires Occurs(s, i, text)
    requires forall k :: 0 <= k < |text| ==> !Opens(text, k)
    requires i + |text| < |s| ==> s[i + |text|] != '{'
    ensures forall k :: i <= k < i + |text| ==> !Opens(s, k) && s[k] == text[k - i]
  {
    forall k | i <= k < i + |text| ensures !Opens(s, k) && s[k] == text[k - i] {
      OccursAt(s, i, text, k - i);
      if k + 1 < i + |text| {
        OccursAt(s, i, text, k + 1 - i);
        assert !Opens(text, k - i);
      }
    }
  }

  lemma PrintStarts(t: Template)
    requires !t.Text?
    ensures Print(t) != "" ==> Print(t)[0] == '$'
  {
  }

  lemma OpenAt(s: string, i: nat)
    requires Occurs(s, i, "${")
    ensures Opens(s, i)
  {
    OccursAt(s, i, "${", 0);
    OccursAt(s, i, "${", 1);
  }

  /** The parts of a printed `${name}rest`. */
  lemma VarParts(s: string, i: nat, name: string, rest: string)
    requires Occurs(s, i, "${" + name + "}" + rest)
    ensures var e := i + 2 + |name|;
            Opens(s, i) && Occurs(s, i + 2, name) && e < |s| && s[e] == '}' && Occurs(s, e + 1, rest)
  {
    OccursSplit(s, i, "${" + name + "}", rest);
    OccursSplit(s, i, "${" + name, "}");
    OccursSplit(s, i, "${", name);
    OpenAt(s, i);
    OccursAt(s, i + 2 + |name|, "}", 0);
  }

  /** The parts of a printed `${name:-default}rest`. */
  lemma VarOrParts(s: string, i: nat, name: string, default: string, rest: string)
    requires Occurs(s, i, "${" + name + ":-" + default + "}" + rest)
    ensures var d := i + 4 + |name|; var e := d + |default|;
            && Opens(s, i) && Occurs(s, i + 2, name) && Separates(s, d - 2) && Occurs(s, d, default)
            && e < |s| && s[e] == '}' && Occurs(s, e + 1, rest)
  {
    var n := i + 2 + |name|;
    OccursSplit(s, i, "${" + name + ":-" + default + "}", rest);
    OccursSplit(s, i, "${" + name + ":-" + default, "}");
    OccursSplit(s, i, "${" + name + ":-", default);
    OccursSplit(s, i, "${" + name, ":-");
    OccursSplit(s, i, "${", name);
    OpenAt(s, i);
    OccursAt(s, n, ":-", 0);
    OccursAt(s, n, ":-", 1);
    OccursAt(s, n + 2 + |default|, "}", 0);
  }

  lemma ClosePastName(s: string, i: nat, name: string, level: nat)
    requires ValidName(name) && Occurs(s, i, name) && level > 0
    ensures CloseBrace(s, i, level) == CloseBrace(s, i + |name|, level)
  {
    NamePlain(s, i, name);
    ClosePastPlain(s, i, |name|, level);
  }

  lemma ClosePastText(s: string, i: nat, text: string, rest: Template, level: nat)
    requires !rest.Text? && Occurs(s, i, text + Print(rest)) && level > 0
    requires forall k :: 0 <= k < |text| ==> !Opens(text, k) && text[k] != '}'
    requires var e := i + |text| + |Print(rest)|; e < |s| && s[e] != '{'
    ensures Occurs(s, i + |text|, Print(rest)) && CloseBrace(s, i, level) == CloseBrace(s, i + |text|, level)
  {
    OccursSplit(s, i, text, Print(rest));
    PrintStarts(rest);
    if Print(rest) != "" { OccursAt(s, i + |text|, Print(rest), 0); }
    TextPlain(s, i, text);
    ClosePastPlain(s, i, |text|, level);
  }

  lemma ClosePastVar(s: string, i: nat, name: string, rest: string, level: nat)
    requires ValidName(name) && level > 0 && Occurs(s, i, "${" + name + "}" + rest)
    ensures var e := i + 2 + |name|; Occurs(s, e + 1, rest) && CloseBrace(s, i, level) == CloseBrace(s, e + 1, level)
  {
    VarParts(s, i, name, rest);
    ClosePastName(s, i + 2, name, level + 1);
  }

  lemma ClosePastVarOr(s: string, i: nat, name: string, default: string, rest: string, level: nat)
    requires ValidName(name) && level > 0 && Occurs(s, i, "${" + name + ":-" + default + "}" + rest)
    requires var d := i + 4 + |name|; CloseBrace(s, d, level + 1) == CloseBrace(s, d + |default|, level + 1)
    ensures var e := i + 4 + |name| + |default|;
            Occurs(s, e + 1, rest) && CloseBrace(s, i, level) == CloseBrace(s, e + 1, level)
  {
    VarOrParts(s, i, name, default, rest);
    ClosePastName(s, i + 2, name, level + 1);
    ClosePastSeparator(s, i + 2 + |name|, level + 1);
  }

  /** The brace scanner passes over a whole printed default, which closes everything it opens. */
  lemma {:induction false} ClosePastTemplate(s: string, i: nat, t: Template, level: nat)
    requires WellFormed(t, true) && Occurs(s, i, Print(t)) && level > 0
    requires i + |Print(t)| < |s| && s[i + |Print(t)|] != '{'
    ensures CloseBrace(s, i, level) == CloseBrace(s, i + |Print(t)|, level)
    decreases t, 1
  {
    hide CloseBrace, Occurs, ValidName, Opens;
    match t
    case Nil =>
    case Text(text, rest) =>
      ClosePastTextAndRest(s, i, text, rest, level);
    case Var(name, rest) =>
      ClosePastVar(s, i, name, Print(rest), level);
      ClosePastTemplate(s, i + 3 + |name|, rest, level);
    case VarOr(name, default, rest) =>
      ClosePastDefault(s, i, t, level);
      ClosePastTemplate(s, i + 5 + |name| + |Print(default)|, rest, level);
  }

  lemma {:induction false} ClosePastTextAndRest(s: string, i: nat, text: string, rest: Template, level: nat)
    requires !rest.Text? && WellFormed(rest, true) && Occurs(s, i, text + Print(rest)) && level > 0
    requires forall k :: 0 <= k < |text| ==> !Opens(text, k) && text[k] != '}'
    requires var e := i + |text| + |Print(rest)|; e < |s| && s[e] != '{'
    ensures CloseBrace(s, i, level) == CloseBrace(s, i + |text| + |Print(rest)|, level)
    decreases rest, 2
  {
    ClosePastText(s, i, text, rest, level);
    ClosePastTemplate(s, i + |text|, rest, level);
  }

  lemma {:induction false} ClosePastDefault(s: string, i: nat, t: Template, level: nat)
    requires t.VarOr? && ValidName(t.name) && WellFormed(t.default, true)
    requires Occurs(s, i, "${" + t.name + ":-" + Print(t.default) + "}" + Print(t.rest)) && level > 0
    ensures var e := i + 4 + |t.name| + |Print(t.default)|;
            Occurs(s, e + 1, Print(t.rest)) && CloseBrace(s, i, level) == CloseBrace(s, e + 1, level)
    decreases t, 0
  {
    var default := Print(t.default);
    VarOrParts(s, i, t.name, default, Print(t.rest));
    ClosePastTemplate(s, i + 4 + |t.name|, t.default, level + 1);
    ClosePastVarOr(s, i, t.name, default, Print(t.rest), level);
  }

  // ---------------------------------------------------------------- main theorem

  lemma {:induction false} NoSeparatorIn(e: string, offset: nat)
    requires forall k :: offset <= k < |e| ==> !Opens(e, k) && e[k] != '}' && !Separates(e, k)
    ensures Separator(e, offset, 0) == None
    decreases |e| - offset
  {
  }

  lemma {:induction false} SeparatorAfterName(e: string, offset: nat, k: nat)
    requires offset <= k && Separates(e, k)
    requires forall j :: offset <= j < k ==> !Opens(e, j) && e[j] != '}' && !Separates(e, j)
    ensures Separator(e, offset, 0) == Some(k)
    decreases k - offset
  {
    if offset < k {
      SeparatorAfterName(e, offset + 1, k);
    }
  }

  /** The body of a printed reference splits into its name and its default. */
  lemma SplitBody(name: string, default: string)
    requires ValidName(name)
    ensures Split(name) == (name, None)
    ensures Split(name + ":-" + default) == (name, Some(default))
  {
    var e := name + ":-" + default;
    assert e == name + (":-" + default);
    assert Occurs(e, 0, name) && Occurs(name, 0, name);
    NamePlain(name, 0, name);
    NamePlain(e, 0, name);
    NoSeparatorIn(name, 0);
    SeparatorAfterName(e, 0, |name|);
    assert e[..|name|] == name && e[|name| + 2..] == default;
  }

  lemma {:induction false} FindPast(v: string, i: nat, n: nat)
    requires i + n <= |v|
    requires forall k :: i <= k < i + n ==> !Opens(v, k)
    ensures FindOpen(v, i) == FindOpen(v, i + n)
    decreases n
  {
    if n > 0 {
      FindPast(v, i + 1, n - 1);
    }
  }

  lemma PrependTwice(a: string, b: string, r: Result<string, Error>)
    ensures Prepend(a, Prepend(b, r)) == Prepend(a + b, r)
  {
    if r.Ok? {
      assert a + (b + r.value) == (a + b) + r.value;
    }
  }

  /** The tokens of a printed template. */
  function TokensOf(t: Template): Tokens {
    match t
    case Nil => End("")
    case Text(text, rest) => AddText(text, TokensOf(rest))
    case Var(name, rest) => Reference("", name, TokensOf(rest))
    case VarOr(name, default, rest) => Reference("", name + ":-" + Print(default), TokensOf(rest))
  }

  function AddText(text: string, tokens: Tokens): Tokens {
    match tokens
    case End(tail) => End(text + tail)
    case Reference(before, body, rest) => Reference(text + before, body, rest)
    case Broken(before) => Broken(text + before)
  }

  lemma NextToken(v: string, cursor: nat, start: nat, close: nat)
    requires cursor <= |v| && FindOpen(v, cursor) == start && start + 2 <= close < |v|
    requires CloseBrace(v, start + 2, 1) == Some(close)
    ensures Tokenize(v, cursor) == Reference(v[cursor..start], v[start + 2..close], Tokenize(v, close + 1))
  {
  }

  lemma LastToken(v: string, cursor: nat, start: nat)
    requires cursor <= |v| && FindOpen(v, cursor) == start
    ensures start == |v| ==> Tokenize(v, cursor) == End(v[cursor..])
    ensures start < |v| && CloseBrace(v, start + 2, 1).None? ==> Tokenize(v, cursor) == Broken(v[cursor..start])
  {
  }

  lemma AddTextToReference(v: string, i: nat, m: nat, start: nat, body: string, tail: Tokens)
    requires i <= m <= start <= |v|
    ensures AddText(v[i..m], Reference(v[m..start], body, tail)) == Reference(v[i..start], body, tail)
    ensures AddText(v[i..m], Broken(v[m..start])) == Broken(v[i..start])
    ensures AddText(v[i..m], End(v[m..])) == End(v[i..])
  {
  }

  lemma CopyReference(v: string, i: nat, m: nat, start: nat, close: nat)
    requires i <= m <= |v| && FindOpen(v, i) == start && FindOpen(v, m) == start
    requires start + 2 <= close < |v| && CloseBrace(v, start + 2, 1) == Some(close)
    ensures Tokenize(v, i) == AddText(v[i..m], Tokenize(v, m))
  {
    NextToken(v, i, start, close);
    NextToken(v, m, start, close);
    AddTextToReference(v, i, m, start, v[start + 2..close], Tokenize(v, close + 1));
  }

  lemma CopyLast(v: string, i: nat, m: nat, start: nat)
    requires i <= m <= |v| && FindOpen(v, i) == start && FindOpen(v, m) == start
    requires start < |v| ==> CloseBrace(v, start + 2, 1).None?
    ensures Tokenize(v, i) == AddText(v[i..m], Tokenize(v, m))
  {
    LastToken(v, i, start);
    LastToken(v, m, start);
    AddTextToReference(v, i, m, start, "", End(""));
  }

  /** Text before the next opening is copied. */
  lemma CopyText(v: string, i: nat, m: nat)
    requires i <= m <= |v|
    requires forall k :: i <= k < m ==> !Opens(v, k)
    ensures Tokenize(v, i) == AddText(v[i..m], Tokenize(v, m))
  {
    FindPast(v, i, m - i);
    var start := FindOpen(v, m);
    if start < |v| && CloseBrace(v, start + 2, 1).Some? {
      CopyReference(v, i, m, start, CloseBrace(v, start + 2, 1).value);
    } else {
      CopyLast(v, i, m, start);
    }
  }

  lemma {:induction false} InnerIsWellFormed(t: Template)
    requires WellFormed(t, true)
    ensures WellFormed(t, false)
  {
    match t
    case Nil =>
    case Text(_, rest) => InnerIsWellFormed(rest);
    case Var(_, rest) => InnerIsWellFormed(rest);
    case VarOr(_, _, rest) => InnerIsWellFormed(rest);
  }

  ghost predicate EnvWellFormed(tenv: map<string, Template>) {
    forall name :: name in tenv ==> WellFormed(tenv[name], false)
  }

  function PrintDefault(default: Option<Template>): Option<string> {
    if default.Some? then Some(Print(default.value)) else None
  }

  lemma ChosenIsSelected(tenv: map<string, Template>, name: string, default: Option<Template>)
    requires EnvWellFormed(tenv) && (default.Some? ==> WellFormed(default.value, true))
    ensures Selected(PrintEnv(tenv), name, PrintDefault(default)) == Print(Chosen(tenv, name, default))
    ensures WellFormed(Chosen(tenv, name, default), false)
  {
    if default.Some? {
      InnerIsWellFormed(default.value);
    }
  }

  lemma VarOrCloses(v: string, i: nat, name: string, e: nat)
    requires ValidName(name) && Occurs(v, i, name) && Separates(v, i + |name|)
    requires i + |name| + 2 <= e < |v| && v[e] == '}'
    requires CloseBrace(v, i + |name| + 2, 1) == CloseBrace(v, e, 1)
    ensures CloseBrace(v, i, 1) == Some(e)
  {
    ClosePastName(v, i, name, 1);
    ClosePastSeparator(v, i + |name|, 1);
  }

  lemma BodyAt(v: string, i: nat, name: string, d: string)
    requires Occurs(v, i, name) && Separates(v, i + |name|) && Occurs(v, i + |name| + 2, d)
    ensures i + |name| + 2 + |d| <= |v| && v[i..i + |name| + 2 + |d|] == name + ":-" + d
  {
  }

  function DefaultOf(t: Template): Option<Template> {
    if t.VarOr? then Some(t.default) else None
  }

  lemma ReferenceTokens(v: string, i: nat, e: nat)
    requires i + 3 <= e <= |v| && Opens(v, i) && CloseBrace(v, i + 2, 1) == Some(e - 1)
    ensures Tokenize(v, i) == Reference("", v[i + 2..e - 1], Tokenize(v, e))
  {
  }

  lemma VarTokens(v: string, i: nat, name: string, rest: string)
    requires ValidName(name) && Occurs(v, i, "${" + name + "}" + rest)
    ensures var e := i + 3 + |name|; Occurs(v, e, rest) && Tokenize(v, i) == Reference("", name, Tokenize(v, e))
  {
    hide Tokenize, Occurs, ValidName;
    VarParts(v, i, name, rest);
    ClosePastName(v, i + 2, name, 1);
    OccursSlice(v, i + 2, name);
    ReferenceTokens(v, i, i + 3 + |name|);
  }

  /** The scans over `${name:-default}`, given where its parts are. */
  lemma DefaultTokens(v: string, i: nat, name: string, d: string)
    requires ValidName(name) && Opens(v, i) && Occurs(v, i + 2, name) && Separates(v, i + 2 + |name|)
    requires Occurs(v, i + 4 + |name|, d)
    requires var e := i + 4 + |name| + |d|;
             e < |v| && v[e] == '}' && CloseBrace(v, i + 4 + |name|, 1) == CloseBrace(v, e, 1)
    ensures Tokenize(v, i) == Reference("", name + ":-" + d, Tokenize(v, i + 5 + |name| + |d|))
  {
    hide Tokenize, CloseBrace, ValidName, Opens;
    VarOrCloses(v, i + 2, name, i + 4 + |name| + |d|);
    BodyAt(v, i + 2, name, d);
    ReferenceTokens(v, i, i + 5 + |name| + |d|);
  }

  lemma VarOrTokens(v: string, i: nat, name: string, default: Template, rest: string)
    requires ValidName(name) && WellFormed(default, true)
    requires Occurs(v, i, "${" + name + ":-" + Print(default) + "}" + rest)
    ensures var e := i + 5 + |name| + |Print(default)|;
            Occurs(v, e, rest) && Tokenize(v, i) == Reference("", name + ":-" + Print(default), Tokenize(v, e))
  {
    hide Tokenize, CloseBrace, Occurs, Print, WellFormed, ValidName, Opens;
    VarOrParts(v, i, name, Print(default), rest);
    ClosePastTemplate(v, i + 4 + |name|, default, 1);
    DefaultTokens(v, i, name, Print(default));
  }

  lemma TextFacts(v: string, i: nat, text: string, rest: string)
    requires Occurs(v, i, text + rest) && i + |text| + |rest| == |v| && (rest != "" ==> rest[0] == '$')
    requires forall k :: 0 <= k < |text| ==> !Opens(text, k)
    ensures Occurs(v, i + |text|, rest) && v[i..i + |text|] == text
    ensures forall k :: i <= k < i + |text| ==> !Opens(v, k)
  {
    OccursSplit(v, i, text, rest);
    if rest != "" { OccursAt(v, i + |text|, rest, 0); }
    TextPlain(v, i, text);
    OccursSlice(v, i, text);
  }

  lemma TextTokens(v: string, i: nat, text: string, rest: string)
    requires Occurs(v, i, text + rest) && i + |text| + |rest| == |v| && (rest != "" ==> rest[0] == '$')
    requires forall k :: 0 <= k < |text| ==> !Opens(text, k)
    ensures Occurs(v, i + |text|, rest) && Tokenize(v, i) == AddText(text, Tokenize(v, i + |text|))
  {
    hide Tokenize, AddText, FindOpen, Occurs, Opens;
    TextFacts(v, i, text, rest);
    CopyText(v, i, i + |text|);
  }

  /** The scanners recover exactly the structure that was printed. */
  lemma {:induction false} TokenizePrinted(v: string, i: nat, t: Template, inner: bool)
    requires WellFormed(t, inner) && i + |Print(t)| == |v| && Occurs(v, i, Print(t))
    ensures Tokenize(v, i) == TokensOf(t)
    decreases t, 1
  {
    match t
    case Nil =>
    case Text(text, rest) => TokenizeText(v, i, text, rest, inner);
    case Var(name, rest) => TokenizeVar(v, i, name, rest, inner);
    case VarOr(name, default, rest) => TokenizeVarOr(v, i, name, default, rest, inner);
  }

  lemma {:induction false} TokenizeText(v: string, i: nat, text: string, rest: Template, inner: bool)
    requires !rest.Text? && WellFormed(rest, inner) && (forall k :: 0 <= k < |text| ==> !Opens(text, k))
    requires i + |text| + |Print(rest)| == |v| && Occurs(v, i, text + Print(rest))
    ensures Tokenize(v, i) == AddText(text, TokensOf(rest))
    decreases rest, 2
  {
    hide Tokenize, Occurs, TokensOf, AddText, Opens, Print;
    PrintStarts(rest);
    TextTokens(v, i, text, Print(rest));
    TokenizePrinted(v, i + |text|, rest, inner);
  }

  lemma {:induction false} TokenizeVar(v: string, i: nat, name: string, rest: Template, inner: bool)
    requires ValidName(name) && WellFormed(rest, inner)
    requires i + 3 + |name| + |Print(rest)| == |v| && Occurs(v, i, "${" + name + "}" + Print(rest))
    ensures Tokenize(v, i) == Reference("", name, TokensOf(rest))
    decreases rest, 2
  {
    hide Tokenize, Occurs, WellFormed, TokensOf;
    VarTokens(v, i, name, Print(rest));
    TokenizePrinted(v, i + 3 + |name|, rest, inner);
  }

  lemma {:induction false} TokenizeVarOr(v: string, i: nat, name: string, default: Template, rest: Template,
                                         inner: bool)
    requires ValidName(name) && WellFormed(default, true) && WellFormed(rest, inner)
    requires i + 5 + |name| + |Print(default)| + |Print(rest)| == |v|
    requires Occurs(v, i, "${" + name + ":-" + Print(default) + "}" + Print(rest))
    ensures Tokenize(v, i) == Reference("", name + ":-" + Print(default), TokensOf(rest))
    decreases rest, 2
  {
    hide Tokenize, Occurs, WellFormed, TokensOf;
    VarOrTokens(v, i, name, default, Print(rest));
    var e := i + 5 + |name| + |Print(default)|;
    assert Tokenize(v, e) == TokensOf(rest) by { TokenizePrinted(v, e, rest, inner); }
  }

  lemma AddTextPrepends(env: Env, home: string -> string, text: string, tokens: Tokens, depth: nat, stack: seq<string>)
    requires depth <= MAX_DEPTH
    ensures ExpandTokens(env, home, AddText(text, tokens), depth, stack) ==
              Prepend(text, ExpandTokens(env, home, tokens, depth, stack))
  {
    if tokens.Reference? {
      var inner := ExpandBody(env, home, tokens.body, depth, stack);
      if inner.Ok? {
        assert text + tokens.before + inner.value == text + (tokens.before + inner.value);
        PrependTwice(text, tokens.before + inner.value, ExpandTokens(env, home, tokens.rest, depth, stack));
      }
    }
  }

  /** Expanding the tokens of a template is evaluating it. */
  lemma {:induction false} TokensAreEvaluated(tenv: map<string, Template>, home: string -> string, t: Template,
                                              inner: bool, depth: nat, stack: seq<string>)
    requires EnvWellFormed(tenv) && WellFormed(t, inner) && depth <= MAX_DEPTH
    ensures ExpandTokens(PrintEnv(tenv), home, TokensOf(t), depth, stack) == EvalPieces(tenv, home, t, depth, stack)
    decreases MAX_DEPTH + 1 - depth, 0, t
  {
    match t
    case Nil =>
    case Text(text, rest) =>
      AddTextPrepends(PrintEnv(tenv), home, text, TokensOf(rest), depth, stack);
      TokensAreEvaluated(tenv, home, rest, inner, depth, stack);
    case _ =>
      TokensAreEvaluated(tenv, home, t.rest, inner, depth, stack);
      BodyIsEvaluated(tenv, home, t, inner, depth, stack);
      ReferenceIsEvaluated(tenv, home, t, depth, stack);
  }

  lemma ReferenceIsEvaluated(tenv: map<string, Template>, home: string -> string, t: Template, depth: nat,
                             stack: seq<string>)
    requires (t.Var? || t.VarOr?) && depth <= MAX_DEPTH
    requires ExpandTokens(PrintEnv(tenv), home, TokensOf(t.rest), depth, stack) ==
               EvalPieces(tenv, home, t.rest, depth, stack)
    requires ExpandBody(PrintEnv(tenv), home, BodyOf(t), depth, stack) ==
             if t.name in stack then Err(Cyclic(stack + [t.name]))
             else Eval(tenv, home, Chosen(tenv, t.name, DefaultOf(t)), depth + 1, stack + [t.name])
    ensures ExpandTokens(PrintEnv(tenv), home, TokensOf(t), depth, stack) == EvalPieces(tenv, home, t, depth, stack)
  {
    assert TokensOf(t) == Reference("", BodyOf(t), TokensOf(t.rest));
    var inner := ExpandBody(PrintEnv(tenv), home, BodyOf(t), depth, stack);
    if inner.Ok? {
      assert "" + inner.value == inner.value;
    }
  }

  function BodyOf(t: Template): string
    requires t.Var? || t.VarOr?
  {
    if t.Var? then t.name else t.name + ":-" + Print(t.default)
  }

  lemma {:induction false} BodyIsEvaluated(tenv: map<string, Template>, home: string -> string, t: Template,
                                           inner: bool, depth: nat, stack: seq<string>)
    requires (t.Var? || t.VarOr?) && EnvWellFormed(tenv) && WellFormed(t, inner) && depth <= MAX_DEPTH
    ensures ExpandBody(PrintEnv(tenv), home, BodyOf(t), depth, stack) ==
            if t.name in stack then Err(Cyclic(stack + [t.name]))
            else Eval(tenv, home, Chosen(tenv, t.name, DefaultOf(t)), depth + 1, stack + [t.name])
    decreases MAX_DEPTH + 1 - depth, 0, t, 0
  {
    hide Eval, Print, EnvWellFormed, ValidName;
    SplitBody(t.name, if t.Var? then "" else Print(t.default));
    ChosenIsSelected(tenv, t.name, DefaultOf(t));
    ExpandIsEval(tenv, home, Chosen(tenv, t.name, DefaultOf(t)), depth + 1, stack + [t.name]);
  }

  lemma PrependNothing(r: Result<string, Error>)
    ensures Prepend("", r) == r
  {
    if r.Ok? {
      assert "" + r.value == r.value;
    }
  }

  /**
   Expanding a printed template is evaluating it, at every depth, under every stack of names and in
   every environment of templates, whether the result is text or an error.
   */
  lemma {:induction false} ExpandIsEval(tenv: map<string, Template>, home: string -> string, t: Template, depth: nat,
                                        stack: seq<string>)
    requires EnvWellFormed(tenv) && WellFormed(t, false)
    ensures Expand(PrintEnv(tenv), home, Print(t), depth, stack) == Eval(tenv, home, t, depth, stack)
    decreases if depth > MAX_DEPTH then 0 else MAX_DEPTH + 1 - depth, 1
  {
    if depth <= MAX_DEPTH {
      TokenizePrinted(Print(t), 0, t, false);
      TokensAreEvaluated(tenv, home, t, false, depth, stack);
    }
  }

  // ---------------------------------------------------------------- the nesting limit

  /** Every variable the template mentions is one of these. */
  ghost predicate Mentions(t: Template, names: set<string>) {
    match t
    case Nil => true
    case Text(_, rest) => Mentions(rest, names)
    case Var(name, rest) => name in names && Mentions(rest, names)
    case VarOr(name, default, rest) => name in names && Mentions(default, names) && Mentions(rest, names)
  }

  /** The names on the stack, one for each level of nesting. */
  ghost predicate Nested(stack: seq<string>, used: set<string>, depth: nat, names: set<string>) {
    && used <= names && |used| == depth && (forall name :: name in stack <==> name in used)
    && |names| <= 16
  }

  ghost predicate EnvMentions(tenv: map<string, Template>, names: set<string>) {
    forall name :: name in tenv ==> Mentions(tenv[name], names)
  }

  lemma NestedOnce(stack: seq<string>, used: set<string>, depth: nat, names: set<string>, name: string)
    requires Nested(stack, used, depth, names) && name in names && name !in stack
    ensures Nested(stack + [name], used + {name}, depth + 1, names)
  {
  }

  lemma NestingBounded(stack: seq<string>, used: set<string>, depth: nat, names: set<string>)
    requires Nested(stack, used, depth, names)
    ensures depth <= MAX_DEPTH
  {
    assert names == used + (names - used);
  }

  lemma {:induction false} PiecesNeverTooDeep(tenv: map<string, Template>, home: string -> string, t: Template,
                                              depth: nat, stack: seq<string>, used: set<string>, names: set<string>)
    requires Mentions(t, names) && EnvMentions(tenv, names) && Nested(stack, used, depth, names) && depth <= MAX_DEPTH
    ensures EvalPieces(tenv, home, t, depth, stack) != Err(TooDeep)
    decreases MAX_DEPTH + 1 - depth, 1, t
  {
    hide Nested;
    match t
    case Nil =>
    case Text(_, rest) => PiecesNeverTooDeep(tenv, home, rest, depth, stack, used, names);
    case Var(name, rest) =>
      PiecesNeverTooDeep(tenv, home, rest, depth, stack, used, names);
      ReferenceNeverTooDeep(tenv, home, name, None, depth, stack, used, names);
    case VarOr(name, default, rest) =>
      PiecesNeverTooDeep(tenv, home, rest, depth, stack, used, names);
      ReferenceNeverTooDeep(tenv, home, name, Some(default), depth, stack, used, names);
  }

  lemma {:induction false} ReferenceNeverTooDeep(tenv: map<string, Template>, home: string -> string, name: string,
                                                 default: Option<Template>, depth: nat, stack: seq<string>,
                                                 used: set<string>, names: set<string>)
    requires name in names && (default.Some? ==> Mentions(default.value, names)) && EnvMentions(tenv, names)
    requires Nested(stack, used, depth, names) && depth <= MAX_DEPTH
    ensures name !in stack ==>
              Eval(tenv, home, Chosen(tenv, name, default), depth + 1, stack + [name]) != Err(TooDeep)
    decreases MAX_DEPTH + 1 - depth, 0, Nil
  {
    hide Nested, Eval;
    if name !in stack {
      NestedOnce(stack, used, depth, names, name);
      NeverTooDeep(tenv, home, Chosen(tenv, name, default), depth + 1, stack + [name], used + {name}, names);
    }
  }

  lemma {:induction false} NeverTooDeep(tenv: map<string, Template>, home: string -> string, t: Template, depth: nat,
                                        stack: seq<string>, used: set<string>, names: set<string>)
    requires Mentions(t, names) && EnvMentions(tenv, names) && Nested(stack, used, depth, names)
    ensures Eval(tenv, home, t, depth, stack) != Err(TooDeep)
    decreases if depth > MAX_DEPTH then 0 else MAX_DEPTH + 1 - depth, 2
  {
    NestingBounded(stack, used, depth, names);
    PiecesNeverTooDeep(tenv, home, t, depth, stack, used, names);
  }

  /** With at most sixteen variables about, no expansion is refused as nested too deeply. */
  lemma FewNamesNeverTooDeep(tenv: map<string, Template>, home: string -> string, t: Template, names: set<string>)
    requires EnvWellFormed(tenv) && WellFormed(t, false)
    requires |names| <= 16 && Mentions(t, names) && EnvMentions(tenv, names)
    ensures Expand(PrintEnv(tenv), home, Print(t), 0, []) != Err(TooDeep)
  {
    ExpandIsEval(tenv, home, t, 0, []);
    NeverTooDeep(tenv, home, t, 0, [], {}, names);
  }

  /** The seventeenth level is the first that is refused. */
  lemma TooDeepIff(env: Env, home: string -> string, text: string, depth: nat, stack: seq<string>)
    requires FindOpen(text, 0) == |text|
    ensures Expand(env, home, text, depth, stack) == Err(TooDeep) <==> depth >= 17
  {
  }

  // ---------------------------------------------------------------- the scanner and the expander as loops

  /** The brace scan of `_expand_env_string`. */
  method FindClose(value: string, start: nat) returns (r: Option<nat>)
    requires start <= |value|
    ensures r == CloseBrace(value, start, 1)
  {
    var level, index := 1, start;
    while index < |value|
      invariant index <= |value| && level > 0
      invariant CloseBrace(value, start, 1) == CloseBrace(value, index, level)
    {
      if Opens(value, index) {
        level := level + 1;
        index := index + 2;
        continue;
      }
      if value[index] == '}' {
        if level == 1 { return Some(index); }
        level := level - 1;
      }
      index := index + 1;
    }
    r := None;
  }

  /** The separator scan of `_expand_env_string`. */
  method FindSeparator(expression: string) returns (r: Option<nat>)
    ensures r == Separator(expression, 0, 0)
  {
    var nested, offset := 0, 0;
    r := None;
    while offset + 1 < |expression|
      invariant r == None && Separator(expression, 0, 0) == Separator(expression, offset, nested)
    {
      if Opens(expression, offset) {
        nested := nested + 1;
        offset := offset + 2;
        continue;
      }
      if expression[offset] == '}' && nested > 0 {
        nested := nested - 1;
      } else if nested == 0 && Separates(expression, offset) {
        return Some(offset);
      }
      offset := offset + 1;
    }
  }

  /** The name and the default of an expression, with the separator scan. */
  method SplitExpression(expression: string) returns (name: string, default: Option<string>)
    ensures (name, default) == Split(expression)
  {
    var separator := FindSeparator(expression);
    if separator.Some? {
      name, default := expression[..separator.value], Some(expression[separator.value + 2..]);
    } else {
      name, default := expression, None;
    }
  }

  /** The expansion of one expression body. */
  method ExpandExpression(env: Env, home: string -> string, body: string, depth: nat, stack: seq<string>)
    returns (r: Result<string, Error>)
    requires depth <= MAX_DEPTH
    ensures r == ExpandBody(env, home, body, depth, stack)
    decreases MAX_DEPTH + 1 - depth, 0
  {
    var name, default := SplitExpression(body);
    if !ValidName(name) {
      return Err(InvalidName(name));
    }
    if name in stack {
      return Err(Cyclic(stack + [name]));
    }
    r := ExpandEnvString(env, home, Selected(env, name, default), depth + 1, stack + [name]);
  }

  lemma ExpandNext(env: Env, home: string -> string, before: string, body: string, rest: Tokens, output: string,
                   depth: nat, stack: seq<string>)
    requires depth <= MAX_DEPTH
    ensures var inner := ExpandBody(env, home, body, depth, stack);
            Prepend(output, ExpandTokens(env, home, Reference(before, body, rest), depth, stack)) ==
            if inner.Err? then inner
            else Prepend(output + (before + inner.value), ExpandTokens(env, home, rest, depth, stack))
  {
    var inner := ExpandBody(env, home, body, depth, stack);
    if inner.Ok? {
      PrependTwice(output, before + inner.value, ExpandTokens(env, home, rest, depth, stack));
    }
  }

  /** What is still to come from `cursor` on, behind the output produced so far. */
  function Pending(env: Env, home: string -> string, value: string, cursor: nat, output: string, depth: nat,
                   stack: seq<string>): Result<string, Error>
    requires cursor <= |value| && depth <= MAX_DEPTH
  {
    Prepend(output, ExpandTokens(env, home, Tokenize(value, cursor), depth, stack))
  }

  lemma PendingAtEnd(env: Env, home: string -> string, value: string, cursor: nat, output: string, depth: nat,
                     stack: seq<string>)
    requires cursor <= |value| && depth <= MAX_DEPTH
    ensures var start := FindOpen(value, cursor);
            && (start == |value| ==>
                  Pending(env, home, value, cursor, output, depth, stack) == Ok(output + value[cursor..]))
            && (start < |value| && CloseBrace(value, start + 2, 1).None? ==>
                  Pending(env, home, value, cursor, output, depth, stack) == Err(Unterminated))
  {
  }

  lemma PendingAtReference(env: Env, home: string -> string, value: string, cursor: nat, start: nat, close: nat,
                           output: string, depth: nat, stack: seq<string>)
    requires cursor <= |value| && depth <= MAX_DEPTH && FindOpen(value, cursor) == start && start + 2 <= close < |value|
    requires CloseBrace(value, start + 2, 1) == Some(close)
    ensures var inner := ExpandBody(env, home, value[start + 2..close], depth, stack);
            Pending(env, home, value, cursor, output, depth, stack) ==
            if inner.Err? then inner
            else Pending(env, home, value, close + 1, output + (value[cursor..start] + inner.value), depth, stack)
  {
    NextToken(value, cursor, start, close);
    ExpandNext(env, home, value[cursor..start], value[start + 2..close], Tokenize(value, close + 1), output, depth,
               stack);
  }

  /** One iteration of the loop of `_expand_env_string`; `done` when it leaves the loop. */
  method Step(env: Env, home: string -> string, value: string, cursor: nat, output: string, depth: nat,
              stack: seq<string>)
    returns (done: bool, r: Result<string, Error>, next: nat)
    requires cursor <= |value| && depth <= MAX_DEPTH
    ensures done ==> r == Pending(env, home, value, cursor, output, depth, stack)
    ensures !done ==> r.Ok? && cursor < next <= |value|
                      && Pending(env, home, value, next, r.value, depth, stack) ==
                           Pending(env, home, value, cursor, output, depth, stack)
    decreases MAX_DEPTH + 1 - depth, 1
  {
    hide Expand, ExpandBody, Pending, CloseBrace, FindOpen;
    next := cursor;
    PendingAtEnd(env, home, value, cursor, output, depth, stack);
    var start := FindOpen(value, cursor);
    if start == |value| {
      return true, Ok(output + value[cursor..]), next;
    }
    var close := FindClose(value, start + 2);
    if close.None? {
      return true, Err(Unterminated), next;
    }
    PendingAtReference(env, home, value, cursor, start, close.value, output, depth, stack);
    var inner := ExpandExpression(env, home, value[start + 2..close.value], depth, stack);
    if inner.Err? {
      return true, inner, next;
    }
    return false, Ok(output + (value[cursor..start] + inner.value)), close.value + 1;
  }

  /** `_expand_env_string` */
  method ExpandEnvString(env: Env, home: string -> string, value: string, depth: nat, stack: seq<string>)
    returns (r: Result<string, Error>)
    ensures r == Expand(env, home, value, depth, stack)
    decreases if depth > MAX_DEPTH then 0 else MAX_DEPTH + 1 - depth, 2
  {
    if depth > MAX_DEPTH {
      return Err(TooDeep);
    }
    var output, cursor := "", 0;
    PrependNothing(ExpandTokens(env, home, Tokenize(value, 0), depth, stack));
    while true
      invariant cursor <= |value|
      invariant Pending(env, home, value, 0, "", depth, stack) ==
                  Pending(env, home, value, cursor, output, depth, stack)
      decreases |value| - cursor
    {
      var done, text, next := Step(env, home, value, cursor, output, depth, stack);
      if done {
        r := if text.Err? then text else Ok(home(text.value));
        return;
      }
      output, cursor := text.value, next;
    }
  }
}
