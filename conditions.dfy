/** The decision-condition evaluator (`evaluateCondition`): after variable
    substitution a condition is accepted in exactly two shapes, both an
    equality test against a double-quoted literal; anything else is
    unsupported. */
module Conditions {
  import opened Wrappers
  import opened JsonValue
  import opened Variables

  /** JavaScript's `\s` class: the ECMAScript white space and line
      terminator characters. */
  predicate IsJsSpace(c: char) {
    var n := c as int;
    n == 0x09 || n == 0x0A || n == 0x0B || n == 0x0C || n == 0x0D || n == 0x20
    || n == 0xA0 || n == 0x1680 || (0x2000 <= n <= 0x200A) || n == 0x2028 || n == 0x2029
    || n == 0x202F || n == 0x205F || n == 0x3000 || n == 0xFEFF
  }

  /** A character the bare left operand `[^=\s]` may not hold. */
  predicate IsStop(c: char) {
    c == '=' || IsJsSpace(c)
  }

  /** A legal left operand of the bare shape: `[^=\s]+`. */
  predicate IsBareOperand(a: string) {
    a != [] && forall x :: 0 <= x < |a| ==> !IsStop(a[x])
  }

  /** The text between the two operands: ` == "`. */
  const Separator: string := " == \""

  /** The first position at or after `j` holding a stop character. */
  function StopFrom(t: string, j: nat): (r: Option<nat>)
    requires j <= |t|
    ensures r.Some? ==> j <= r.value < |t| && IsStop(t[r.value])
    decreases |t| - j
  {
    if j == |t| then None else if IsStop(t[j]) then Some(j) else StopFrom(t, j + 1)
  }

  /** The closing part shared by both shapes, starting at position `i`: the
      separator, then the right operand free of `"`, then a final `"` that
      ends the text. */
  function RightOperand(t: string, i: nat): Option<string>
    requires i <= |t|
  {
    if i + 5 < |t| && t[i..i + 5] == Separator && t[|t| - 1] == '"' && '"' !in t[i + 5..|t| - 1]
    then Some(t[i + 5..|t| - 1])
    else None
  }

  /** `/^"([^"]*)" == "([^"]*)"$/.exec(t)`: the two captured operands. */
  function QuotedOperands(t: string): Option<(string, string)> {
    if t != [] && t[0] == '"' then
      match IndexFrom(t, '"', 1)
      case None => None
      case Some(j) => (
        match RightOperand(t, j + 1)
        case None => None
        case Some(b) => Some((t[1..j], b)))
    else None
  }

  /** `/^([^=\s]+) == "([^"]*)"$/.exec(t)`: the two captured operands. */
  function BareOperands(t: string): Option<(string, string)> {
    match StopFrom(t, 0)
    case None => None
    case Some(j) =>
      if j == 0 then None
      else (
        match RightOperand(t, j)
        case None => None
        case Some(b) => Some((t[..j], b)))
  }

  /** The verdict on a condition after substitution: the quoted shape is
      tried first, then the bare one; `None` is an unsupported condition. */
  function Compare(t: string): Option<bool> {
    match QuotedOperands(t)
    case Some(ab) => Some(ab.0 == ab.1)
    case None => (
      match BareOperands(t)
      case Some(ab) => Some(ab.0 == ab.1)
      case None => None)
  }

  /** The common ending of both shapes: the separator, then the literal `b`
      in double quotes. */
  function Closing(b: string): string {
    Separator + b + "\""
  }

  /** The quoted shape as a text. */
  function QuotedText(a: string, b: string): string {
    "\"" + a + "\"" + Closing(b)
  }

  /** The bare shape as a text. */
  function BareText(a: string, b: string): string {
    a + Closing(b)
  }

  // ---------------------------------------------------------------------
  // Properties

  lemma RightOperandOf(prefix: string, b: string)
    requires '"' !in b
    ensures RightOperand(prefix + Closing(b), |prefix|) == Some(b)
  {
    var t := prefix + Closing(b);
    var i := |prefix|;
    assert t[i..i + 5] == Separator;
    assert t[i + 5..|t| - 1] == b;
  }

  /** The quoted regular expression matches exactly the texts
      `"a" == "b"` with `a` and `b` free of double quotes, and captures
      `a` and `b`. */
  lemma QuotedShape(t: string, a: string, b: string)
    ensures QuotedOperands(t) == Some((a, b)) <==> t == QuotedText(a, b) && '"' !in a && '"' !in b
  {
    if t == QuotedText(a, b) && '"' !in a && '"' !in b {
      QuotedMatches(a, b);
    }
    if QuotedOperands(t) == Some((a, b)) {
      QuotedCaptures(t);
    }
  }

  lemma QuotedMatches(a: string, b: string)
    requires '"' !in a && '"' !in b
    ensures QuotedOperands(QuotedText(a, b)) == Some((a, b))
  {
    var t := QuotedText(a, b);
    var j := |a| + 1;
    assert t[j] == '"';
    assert forall x :: 1 <= x < j ==> t[x] == a[x - 1];
    IndexFromFirst(t, '"', 1, j);
    RightOperandOf("\"" + a + "\"", b);
    assert t[1..j] == a;
  }

  lemma QuotedCaptures(t: string)
    requires QuotedOperands(t).Some?
    ensures var (a, b) := QuotedOperands(t).value;
            t == QuotedText(a, b) && '"' !in a && '"' !in b
  {
    var j := IndexFrom(t, '"', 1).value;
    QuotedPrefixFree(t, j);
    var a := t[1..j];
    var b := t[j + 6..|t| - 1];
    assert t[..1] == "\"" && t[j..j + 1] == "\"" && t[j + 1..j + 6] == Separator && t[|t| - 1..] == "\"";
    Pieces(t, j);
  }

  /** A text cut around position `j` and its last character, in the grouping
      `QuotedText` uses. */
  lemma Pieces<T>(t: seq<T>, j: nat)
    requires 1 <= j && j + 6 <= |t| - 1
    ensures t == ((t[..1] + t[1..j]) + t[j..j + 1]) + ((t[j + 1..j + 6] + t[j + 6..|t| - 1]) + t[|t| - 1..])
  {
  }

  /** What the quoted search skipped holds no double quote. */
  lemma QuotedPrefixFree(t: string, j: nat)
    requires 1 <= |t| && IndexFrom(t, '"', 1) == Some(j)
    ensures '"' !in t[1..j]
  {
    IndexFromSkips(t, '"', 1);
  }

  /** Every position the search passes over differs from the character sought. */
  lemma {:induction false} IndexFromSkips(s: string, c: char, j: nat)
    requires j <= |s|
    ensures IndexFrom(s, c, j).Some? ==> forall x :: j <= x < IndexFrom(s, c, j).value ==> s[x] != c
    decreases |s| - j
  {
    if j < |s| && s[j] != c {
      IndexFromSkips(s, c, j + 1);
    }
  }

  /** Every position the stop search passes over is a legal bare character. */
  lemma {:induction false} StopFromSkips(t: string, j: nat)
    requires j <= |t|
    ensures StopFrom(t, j).Some? ==> forall x :: j <= x < StopFrom(t, j).value ==> !IsStop(t[x])
    ensures StopFrom(t, j).None? ==> forall x :: j <= x < |t| ==> !IsStop(t[x])
    decreases |t| - j
  {
    if j < |t| && !IsStop(t[j]) {
      StopFromSkips(t, j + 1);
    }
  }

  /** The stop search stops at the first stop character. */
  lemma {:induction false} StopFromFirst(t: string, j: nat, m: nat)
    requires j <= m < |t| && IsStop(t[m])
    requires forall x :: j <= x < m ==> !IsStop(t[x])
    ensures StopFrom(t, j) == Some(m)
    decreases m - j
  {
    if j < m {
      StopFromFirst(t, j + 1, m);
    }
  }

  /** The bare regular expression matches exactly the texts `a == "b"` with
      `a` a non-empty run of characters other than `=` and white space and
      `b` free of double quotes, and captures `a` and `b`. */
  lemma BareShape(t: string, a: string, b: string)
    ensures BareOperands(t) == Some((a, b))
        <==> t == BareText(a, b) && IsBareOperand(a) && '"' !in b
  {
    if t == BareText(a, b) && IsBareOperand(a) && '"' !in b {
      BareMatches(a, b);
    }
    if BareOperands(t) == Some((a, b)) {
      BareCaptures(t);
    }
  }

  lemma BareMatches(a: string, b: string)
    requires IsBareOperand(a) && '"' !in b
    ensures BareOperands(BareText(a, b)) == Some((a, b))
  {
    var t := BareText(a, b);
    var j := |a|;
    assert t[j] == ' ';
    assert forall x :: 0 <= x < j ==> t[x] == a[x];
    StopFromFirst(t, 0, j);
    RightOperandOf(a, b);
    assert t[..j] == a;
  }

  lemma BareCaptures(t: string)
    requires BareOperands(t).Some?
    ensures var (a, b) := BareOperands(t).value;
            t == BareText(a, b) && IsBareOperand(a) && '"' !in b
  {
    var j := StopFrom(t, 0).value;
    StopFromSkips(t, 0);
    var a := t[..j];
    var b := t[j + 5..|t| - 1];
    assert t == a + t[j..j + 5] + b + [t[|t| - 1]];
  }

  /** A quoted-shape condition compares its two literals. */
  lemma CompareQuoted(a: string, b: string)
    requires '"' !in a && '"' !in b
    ensures Compare(QuotedText(a, b)) == Some(a == b)
  {
    QuotedShape(QuotedText(a, b), a, b);
  }

  /** A bare-shape condition whose left operand does not open with a double
      quote compares its left operand with the literal. */
  lemma CompareBare(a: string, b: string)
    requires IsBareOperand(a) && a[0] != '"' && '"' !in b
    ensures Compare(BareText(a, b)) == Some(a == b)
  {
    var t := BareText(a, b);
    assert t[0] == a[0];
    BareShape(t, a, b);
  }

  /** A condition made of one token and a closing part: the token is
      replaced and the closing part is kept. */
  lemma SubstitutedCondition(token: string, b: string, resolve: string -> string)
    requires token != [] && '}' !in token && '{' !in b
    ensures Substitute("{" + token + "}" + Closing(b), resolve) == resolve(token) + Closing(b)
  {
    SubstituteToken(token, Closing(b), resolve);
    NoTokenUnchanged(Closing(b), resolve);
  }

  /** The condition a decision rule usually carries, `{id.f1...fn} == "b"`:
      when the path leads to a string `v`, the substituted text is the quoted
      shape and the rule holds exactly when `v` equals `b`. */
  lemma StringFieldCondition(id: string, path: seq<string>, b: string, outputs: map<string, Value>, v: string)
    requires IsPath(id, path) && id in outputs && Truthy(outputs[id])
    requires Walk(outputs[id], path) == Some(Str(v))
    requires '"' !in v && '"' !in b && '{' !in b
    ensures Compare(Substitute("{" + JoinOn([id] + path, '.') + "}" + Closing(b), Resolver(outputs)))
         == Some(v == b)
  {
    PathResolved(id, path, outputs, Str(v));
    SubstitutedCondition(JoinOn([id] + path, '.'), b, Resolver(outputs));
    CompareQuoted(v, b);
  }

  /** The same condition on a path that leads to an integer `n`: the
      substituted text is the bare shape, and the rule holds exactly when the
      decimal form of `n` equals `b`. */
  lemma IntFieldCondition(id: string, path: seq<string>, b: string, outputs: map<string, Value>, n: int)
    requires IsPath(id, path) && id in outputs && Truthy(outputs[id])
    requires Walk(outputs[id], path) == Some(Int(n))
    requires '"' !in b && '{' !in b
    ensures Compare(Substitute("{" + JoinOn([id] + path, '.') + "}" + Closing(b), Resolver(outputs)))
         == Some(IntToString(n) == b)
  {
    PathResolved(id, path, outputs, Int(n));
    SubstitutedCondition(JoinOn([id] + path, '.'), b, Resolver(outputs));
    IntToStringBare(n);
    CompareBare(IntToString(n), b);
  }

  /** The decimal form of an integer is a legal bare operand. */
  lemma IntToStringBare(n: int)
    ensures IsBareOperand(IntToString(n)) && IntToString(n)[0] != '"'
  {
    var a := IntToString(n);
    var digits := NatToString(if n < 0 then -n else n);
    if n < 0 {
      assert a == "-" + digits;
      assert forall x :: 1 <= x < |a| ==> a[x] == digits[x - 1];
    }
  }
}
