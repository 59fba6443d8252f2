/** The variable resolver (`replaceVariables`): every `{token}` span of a text
    is replaced by the value the token names in the store of node outputs, or
    left verbatim when it names nothing. The store is only read. */
module Variables {
  import opened Wrappers
  import opened JsonValue

  /** `s.split(sep)`: the pieces between separators, empty pieces included. */
  function Split(s: string, sep: char): (parts: seq<string>)
    ensures |parts| >= 1
    decreases |s|
  {
    if s == [] then [""]
    else
      var rest := Split(s[1..], sep);
      if s[0] == sep then [""] + rest else [[s[0]] + rest[0]] + rest[1..]
  }

  /** `parts.join(sep)`, the inverse of Split for separator-free pieces. */
  function JoinOn(parts: seq<string>, sep: char): string
    requires |parts| >= 1
  {
    if |parts| == 1 then parts[0] else parts[0] + [sep] + JoinOn(parts[1..], sep)
  }

  /** One step of the path walk: `parts[i] in value ? value[parts[i]] : fail`
      on a value that is a non-null object; arrays answer their indices and
      `length`. */
  function Field(v: Value, key: string): Option<Value> {
    match v
    case Obj(m) => if key in m then Some(m[key]) else None
    case Arr(xs) =>
      if key == "length" then Some(Int(|xs|))
      else (
        match ArrayIndex(key)
        case Some(k) => if k < |xs| then Some(xs[k]) else None
        case None => None)
    case _ => None
  }

  /** The value reached by following `path` from `v`, if every step exists. */
  function Walk(v: Value, path: seq<string>): Option<Value>
    decreases |path|
  {
    if path == [] then Some(v)
    else
      match Field(v, path[0])
      case None => None
      case Some(w) => Walk(w, path[1..])
  }

  /** A resolved value as substituted: a string is wrapped in double quotes
      (no escaping); anything else is its `String()` form. */
  function Rendered(v: Value): string {
    if v.Str? then "\"" + v.s + "\"" else JsString(v)
  }

  /** The replacement of the span `{variable}`. */
  function ResolveToken(variable: string, outputs: map<string, Value>): string {
    var parts := Split(variable, '.');
    if parts[0] in outputs && Truthy(outputs[parts[0]]) && |parts| > 1 then
      match Walk(outputs[parts[0]], parts[1..])
      case Some(v) => Rendered(v)
      case None => "{" + variable + "}"
    else "{" + variable + "}"
  }

  /** The resolver as the callback the scan applies to each token. */
  function Resolver(outputs: map<string, Value>): string -> string {
    variable => ResolveToken(variable, outputs)
  }

  /** The first position at or after `j` where `s` holds `c`. */
  function IndexFrom(s: string, c: char, j: nat): (r: Option<nat>)
    requires j <= |s|
    ensures r.Some? ==> j <= r.value < |s| && s[r.value] == c
    decreases |s| - j
  {
    if j == |s| then None else if s[j] == c then Some(j) else IndexFrom(s, c, j + 1)
  }

  /** The length of the token opening at position `i`: the number of
      characters between the `{` there and the first `}` after it, or 0 when
      no token opens there (no `{`, no closing brace, or `{}`). */
  function TokenAt(text: string, i: nat): (k: nat)
    requires i < |text|
    ensures k > 0 ==> i + k + 1 < |text| && text[i] == '{' && text[i + k + 1] == '}'
  {
    if text[i] == '{' then
      match IndexFrom(text, '}', i + 1)
      case Some(j) => j - i - 1
      case None => 0
    else 0
  }

  /** `text.replace(/\{([^}]+)\}/g, resolve)`: scanning left to right, a `{`
      followed by at least one character and then the first `}` is a token,
      replaced by `resolve` of the characters in between; any other character,
      a `{` without such a closing brace included, is copied and scanning
      moves on by one. The replacement is never rescanned. */
  function Substitute(text: string, resolve: string -> string): string
    decreases |text|
  {
    if text == [] then ""
    else
      var k := TokenAt(text, 0);
      if k > 0 then resolve(text[1..k + 1]) + Substitute(text[k + 2..], resolve)
      else [text[0]] + Substitute(text[1..], resolve)
  }

  /** The replacement callback: split the token on dots, look the first piece
      up in the store and walk the remaining pieces one at a time. */
  method ResolveVariable(variable: string, outputs: map<string, Value>) returns (r: string)
    ensures r == ResolveToken(variable, outputs)
  {
    var parts := Split(variable, '.');
    var nodeId := parts[0];
    if nodeId in outputs && Truthy(outputs[nodeId]) && |parts| > 1 {
      var value := outputs[nodeId];
      var i := 1;
      while i < |parts|
        invariant 1 <= i <= |parts|
        invariant Walk(outputs[nodeId], parts[1..]) == Walk(value, parts[i..])
      {
        assert parts[i..][1..] == parts[i + 1..];
        var next := Field(value, parts[i]);
        if next.None? {
          return "{" + variable + "}";
        }
        value := next.value;
        i := i + 1;
      }
      return Rendered(value);
    }
    return "{" + variable + "}";
  }

  /** Visits the token matches of `text` from left to right and replaces each. */
  method ReplaceVariables(text: string, outputs: map<string, Value>) returns (r: string)
    ensures r == Substitute(text, Resolver(outputs))
  {
    ghost var resolve := Resolver(outputs);
    r := "";
    var rest := text;
    while rest != []
      invariant r + Substitute(rest, resolve) == Substitute(text, resolve)
      decreases |rest|
    {
      var k := TokenAt(rest, 0);
      if k > 0 {
        var replacement := ResolveVariable(rest[1..k + 1], outputs);
        TokenStep(text, r, rest, outputs, replacement);
        r := r + replacement;
        rest := rest[k + 2..];
      } else {
        CharStep(text, r, rest, resolve);
        r := r + [rest[0]];
        rest := rest[1..];
      }
    }
    assert r == r + Substitute(rest, resolve);
  }

  /** A loop step that replaces the token at the head of `rest`. */
  lemma TokenStep(text: string, r: string, rest: string, outputs: map<string, Value>, replacement: string)
    requires rest != [] && TokenAt(rest, 0) > 0
    requires r + Substitute(rest, Resolver(outputs)) == Substitute(text, Resolver(outputs))
    requires replacement == ResolveToken(rest[1..TokenAt(rest, 0) + 1], outputs)
    ensures (r + replacement) + Substitute(rest[TokenAt(rest, 0) + 2..], Resolver(outputs)) == Substitute(text, Resolver(outputs))
  {
    var k := TokenAt(rest, 0);
    var resolve := Resolver(outputs);
    ResolverApplies(rest[1..k + 1], outputs, replacement);
    assert Substitute(rest, resolve) == replacement + Substitute(rest[k + 2..], resolve);
    Regroup(Substitute(text, resolve), r, Substitute(rest, resolve), replacement, Substitute(rest[k + 2..], resolve));
  }

  /** A loop step that copies the character at the head of `rest`. */
  lemma CharStep(text: string, r: string, rest: string, resolve: string -> string)
    requires rest != [] && TokenAt(rest, 0) == 0
    requires r + Substitute(rest, resolve) == Substitute(text, resolve)
    ensures (r + [rest[0]]) + Substitute(rest[1..], resolve) == Substitute(text, resolve)
  {
    assert Substitute(rest, resolve) == [rest[0]] + Substitute(rest[1..], resolve);
    Regroup(Substitute(text, resolve), r, Substitute(rest, resolve), [rest[0]], Substitute(rest[1..], resolve));
  }

  lemma ResolverApplies(variable: string, outputs: map<string, Value>, r: string)
    requires r == ResolveToken(variable, outputs)
    ensures r == Resolver(outputs)(variable)
  {
  }

  lemma Regroup(whole: string, r: string, x: string, head: string, tail: string)
    requires r + x == whole && x == head + tail
    ensures (r + head) + tail == whole
  {
  }

  // ---------------------------------------------------------------------
  // Properties of the scan

  /** The search stops at the first occurrence. */
  lemma {:induction false} IndexFromFirst(s: string, c: char, j: nat, m: nat)
    requires j <= m < |s| && s[m] == c
    requires forall x :: j <= x < m ==> s[x] != c
    ensures IndexFrom(s, c, j) == Some(m)
    decreases m - j
  {
    if j < m {
      IndexFromFirst(s, c, j + 1, m);
    }
  }

  // ---------------------------------------------------------------------
  // Properties of the resolver

  lemma {:induction false} SplitPrefix(p: string, tail: string, sep: char)
    requires sep !in p
    ensures Split(p + tail, sep) == [p + Split(tail, sep)[0]] + Split(tail, sep)[1..]
    decreases |p|
  {
    if p != [] {
      var whole := p + tail;
      assert whole[0] == p[0] && whole[0] != sep;
      assert whole[1..] == p[1..] + tail;
      SplitPrefix(p[1..], tail, sep);
      var rest := Split(whole[1..], sep);
      assert Split(whole, sep) == [[p[0]] + rest[0]] + rest[1..];
      assert rest[0] == p[1..] + Split(tail, sep)[0];
      assert [p[0]] + (p[1..] + Split(tail, sep)[0]) == p + Split(tail, sep)[0];
    } else {
      assert p + tail == tail;
      assert p + Split(tail, sep)[0] == Split(tail, sep)[0];
    }
  }

  /** Splitting a joined path gives back its pieces. */
  lemma {:induction false} SplitJoin(parts: seq<string>, sep: char)
    requires |parts| >= 1
    requires forall k :: 0 <= k < |parts| ==> sep !in parts[k]
    ensures Split(JoinOn(parts, sep), sep) == parts
    decreases |parts|
  {
    if |parts| == 1 {
      SplitPrefix(parts[0], "", sep);
      assert parts[0] + "" == parts[0];
      assert Split("", sep) == [""];
    } else {
      var rest := JoinOn(parts[1..], sep);
      SplitJoin(parts[1..], sep);
      var tail := [sep] + rest;
      SplitPrefix(parts[0], tail, sep);
      assert tail[0] == sep && tail[1..] == rest;
      assert Split(tail, sep) == [""] + Split(rest, sep);
      assert parts[0] + [sep] + rest == parts[0] + tail;
      assert Split(JoinOn(parts, sep), sep) == [parts[0] + ""] + parts[1..];
      assert parts[0] + "" == parts[0];
    }
  }

  /** Text before the first `{` is copied unchanged. */
  lemma {:induction false} SubstitutePlain(plain: string, rest: string, resolve: string -> string)
    requires '{' !in plain
    ensures Substitute(plain + rest, resolve) == plain + Substitute(rest, resolve)
    decreases |plain|
  {
    if plain != [] {
      var text := plain + rest;
      assert text[0] == plain[0] && TokenAt(text, 0) == 0;
      assert text[1..] == plain[1..] + rest;
      SubstitutePlain(plain[1..], rest, resolve);
      assert [plain[0]] + (plain[1..] + Substitute(rest, resolve)) == plain + Substitute(rest, resolve);
    } else {
      assert plain + rest == rest;
    }
  }

  /** A span `{token}` with a non-empty token free of `}` is one match: it is
      replaced by the token's resolution and scanning resumes after it. */
  lemma SubstituteToken(token: string, rest: string, resolve: string -> string)
    requires token != [] && '}' !in token
    ensures Substitute("{" + token + "}" + rest, resolve) == resolve(token) + Substitute(rest, resolve)
  {
    var text := "{" + token + "}" + rest;
    var k := |token|;
    assert text[k + 1] == '}';
    assert forall x :: 1 <= x < k + 1 ==> text[x] == token[x - 1];
    IndexFromFirst(text, '}', 1, k + 1);
    assert TokenAt(text, 0) == k;
    assert text[1..k + 1] == token;
    assert text[k + 2..] == rest;
  }

  /** A text without `{` is left as it is. */
  lemma NoTokenUnchanged(text: string, resolve: string -> string)
    requires '{' !in text
    ensures Substitute(text, resolve) == text
  {
    SubstitutePlain(text, "", resolve);
    assert text + "" == text;
  }

  /** A token `{id.f1...fn}` whose node has a (truthy) stored output and whose
      path exists is replaced by the rendered value: `"v"` for a string v, the
      `String()` form otherwise. */
  /** A token `id.f1...fn` written from a node id and at least one field
      name, none of them holding `.` or `}`. */
  predicate IsPath(id: string, path: seq<string>) {
    |path| >= 1 && '.' !in id && '}' !in id
    && forall k :: 0 <= k < |path| ==> '.' !in path[k] && '}' !in path[k]
  }

  /** The token `id.f1...fn` of a path whose node has a truthy stored output
      and whose fields exist resolves to the rendered value. */
  lemma PathResolved(id: string, path: seq<string>, outputs: map<string, Value>, v: Value)
    requires IsPath(id, path) && id in outputs && Truthy(outputs[id])
    requires Walk(outputs[id], path) == Some(v)
    ensures var token := JoinOn([id] + path, '.');
            token != [] && '}' !in token && ResolveToken(token, outputs) == Rendered(v)
  {
    var parts := [id] + path;
    SplitJoin(parts, '.');
    assert parts[1..] == path;
    var token := JoinOn(parts, '.');
    assert token != [] by { assert token == id + ['.'] + JoinOn(path, '.'); }
    assert '}' !in token by { NoBraceInJoin(parts); }
  }

  /** In a text, such a token is replaced by `"v"` for a string v and by the
      `String()` form of any other value. */
  lemma TokenResolved(id: string, path: seq<string>, rest: string, outputs: map<string, Value>, v: Value)
    requires IsPath(id, path) && id in outputs && Truthy(outputs[id])
    requires Walk(outputs[id], path) == Some(v)
    ensures Substitute("{" + JoinOn([id] + path, '.') + "}" + rest, Resolver(outputs))
         == (if v.Str? then "\"" + v.s + "\"" else JsString(v)) + Substitute(rest, Resolver(outputs))
  {
    PathResolved(id, path, outputs, v);
    SubstituteToken(JoinOn([id] + path, '.'), rest, Resolver(outputs));
  }

  lemma {:induction false} NoBraceInJoin(parts: seq<string>)
    requires |parts| >= 1
    requires forall k :: 0 <= k < |parts| ==> '}' !in parts[k]
    ensures '}' !in JoinOn(parts, '.')
    decreases |parts|
  {
    if |parts| > 1 {
      NoBraceInJoin(parts[1..]);
    }
  }

  /** A token stays verbatim when its node has no stored output or a falsy
      one, when it has no `.` segment, or when a step of its path is missing
      or meets a value that is not an array or object. */
  lemma TokenVerbatim(variable: string, outputs: map<string, Value>)
    requires variable != [] && '}' !in variable
    requires var parts := Split(variable, '.');
             || parts[0] !in outputs
             || !Truthy(outputs[parts[0]])
             || '.' !in variable
             || Walk(outputs[parts[0]], parts[1..]).None?
    ensures Substitute("{" + variable + "}", Resolver(outputs)) == "{" + variable + "}"
  {
    SubstituteToken(variable, "", Resolver(outputs));
    assert "{" + variable + "}" + "" == "{" + variable + "}";
    if '.' !in variable {
      SplitPrefix(variable, "", '.');
      assert variable + "" == variable;
    }
  }
}
