/** How the exporter prepares catalog text for Docker Compose, and what Compose
    makes of that text later (internal/compose/compose.go, and the
    "Interpolation" section of the Compose Specification). */
module Interpolation {
  import opened Common

  type Bindings = map<string, string>

  // ---------------------------------------------------------------------
  // Compose's side: expanding a scalar of the file from the .env bindings.
  // ---------------------------------------------------------------------

  predicate NameStart(c: char) {
    'a' <= c <= 'z' || 'A' <= c <= 'Z' || c == '_'
  }

  predicate NameChar(c: char) {
    NameStart(c) || '0' <= c <= '9'
  }

  const SMALL := "abcdefghijklmnopqrstuvwxyz"
  const LARGE := "ABCDEFGHIJKLMNOPQRSTUVWXYZ"
  const DIGITS := "0123456789"

  lemma SmallAt(k: nat)
    requires k < 26
    ensures SMALL[k] as int == 97 + k
  {
  }

  lemma LargeAt(k: nat)
    requires k < 26
    ensures LARGE[k] as int == 65 + k
  {
  }

  lemma DigitAt(k: nat)
    requires k < 10
    ensures DIGITS[k] as int == 48 + k
  {
  }

  lemma InAlphabet(c: char, alphabet: string, first: char)
    requires forall k :: 0 <= k < |alphabet| ==> alphabet[k] as int == first as int + k
    ensures c in alphabet <==> first <= c && c as int < first as int + |alphabet|
  {
    if first <= c && c as int < first as int + |alphabet| {
      assert alphabet[c as int - first as int] == c;
    }
  }

  /** What a variable name is made of (the "Interpolation" section of the Compose Specification). */
  lemma NamesAreMadeOf(c: char)
    ensures NameStart(c) <==> c == '_' || c in SMALL || c in LARGE
    ensures NameChar(c) <==> NameStart(c) || c in DIGITS
  {
    forall k | 0 <= k < 26
      ensures SMALL[k] as int == 97 + k && LARGE[k] as int == 65 + k
    {
      SmallAt(k);
      LargeAt(k);
    }
    forall k | 0 <= k < 10
      ensures DIGITS[k] as int == 48 + k
    {
      DigitAt(k);
    }
    InAlphabet(c, SMALL, 'a');
    InAlphabet(c, LARGE, 'A');
    InAlphabet(c, DIGITS, '0');
  }

  /** How many leading characters belong to a variable name. */
  function NameLength(s: string): (n: nat)
    ensures n <= |s|
    ensures forall k :: 0 <= k < n ==> NameChar(s[k])
    ensures n < |s| ==> !NameChar(s[n])
  {
    if s != "" && NameChar(s[0]) then 1 + NameLength(s[1..]) else 0
  }

  predicate IsName(s: string) {
    s != "" && NameStart(s[0]) && forall c :: c in s ==> NameChar(c)
  }

  function Lookup(name: string, dotenv: Bindings): string {
    if name in dotenv then dotenv[name] else ""
  }

  predicate Filled(name: string, dotenv: Bindings) {
    Lookup(name, dotenv) != ""
  }

  /** The value of `${name rest}`; None when Compose refuses the file. */
  function Evaluate(name: string, rest: string, dotenv: Bindings): Option<string> {
    if !IsName(name) then None
    else if rest == "" then Some(Lookup(name, dotenv))
    else if rest[0] == '-' then Some(if name in dotenv then dotenv[name] else rest[1..])
    else if rest[0] == '?' then if name in dotenv then Some(dotenv[name]) else None
    else if rest[0] == '+' then Some(if name in dotenv then rest[1..] else "")
    else if |rest| < 2 || rest[0] != ':' then None
    else if rest[1] == '-' then Some(if Filled(name, dotenv) then dotenv[name] else rest[2..])
    else if rest[1] == '?' then if Filled(name, dotenv) then Some(dotenv[name]) else None
    else if rest[1] == '+' then Some(if Filled(name, dotenv) then rest[2..] else "")
    else None
  }

  /** The value of the text between `${` and `}`. */
  function Braced(body: string, dotenv: Bindings): Option<string> {
    Evaluate(body[..NameLength(body)], body[NameLength(body)..], dotenv)
  }

  function Append(a: Option<string>, b: Option<string>): Option<string> {
    if a.Some? && b.Some? then Some(a.value + b.value) else None
  }

  /** How Compose reads the start of a scalar. */
  datatype Form = Literal | Escaped | Expression | Bare | Malformed

  function HeadForm(s: string): Form
    requires s != ""
  {
    if s[0] != '$' then Literal
    else if |s| >= 2 && s[1] == '$' then Escaped
    else if |s| >= 2 && s[1] == '{' && IndexOf(s, '}') < |s| then Expression
    else if |s| >= 2 && NameStart(s[1]) then Bare
    else Malformed
  }

  function HeadLength(s: string): (n: nat)
    requires s != ""
    ensures 0 < n <= |s|
  {
    match HeadForm(s)
    case Literal => 1
    case Escaped => 2
    case Expression => IndexOf(s, '}') + 1
    case Bare => 1 + NameLength(s[1..])
    case Malformed => |s|
  }

  function HeadValue(s: string, dotenv: Bindings): Option<string>
    requires s != ""
  {
    match HeadForm(s)
    case Literal => Some([s[0]])
    case Escaped => Some("$")
    case Expression => Braced(s[2..IndexOf(s, '}')], dotenv)
    case Bare => Some(Lookup(s[1..1 + NameLength(s[1..])], dotenv))
    case Malformed => None
  }

  function HeadNames(s: string): set<string>
    requires s != ""
  {
    match HeadForm(s)
    case Expression => var body := s[2..IndexOf(s, '}')]; {body[..NameLength(body)]}
    case Bare => {s[1..1 + NameLength(s[1..])]}
    case _ => {}
  }

  /** The whole scalar as the container receives it; None when Compose refuses it. */
  function Expand(s: string, dotenv: Bindings): Option<string>
    decreases |s|
  {
    if s == "" then Some("")
    else Append(HeadValue(s, dotenv), Expand(s[HeadLength(s)..], dotenv))
  }

  /** The variables Compose looks up while expanding `s`. */
  function LookedUp(s: string): set<string>
    decreases |s|
  {
    if s == "" then {} else HeadNames(s) + LookedUp(s[HeadLength(s)..])
  }

  /** Text whose reading cannot be changed by what follows it: every `$` in it
      starts `$$` or a closed `${...}`. */
  predicate Closed(s: string)
    decreases |s|
  {
    s == "" || (!HeadForm(s).Bare? && !HeadForm(s).Malformed? && Closed(s[HeadLength(s)..]))
  }

  ghost predicate Agree(names: set<string>, d: Bindings, e: Bindings) {
    forall k :: k in names ==> (k in d <==> k in e) && (k in d ==> d[k] == e[k])
  }

  lemma HeadDepends(s: string, d: Bindings, e: Bindings)
    requires s != "" && Agree(HeadNames(s), d, e)
    ensures HeadValue(s, d) == HeadValue(s, e)
  {
    if HeadForm(s).Bare? {
      assert s[1..1 + NameLength(s[1..])] in HeadNames(s);
    }
  }

  /** Expansion only sees the bindings of the variables it looks up. */
  lemma {:induction false} ExpandDependsOnLookedUp(s: string, d: Bindings, e: Bindings)
    requires Agree(LookedUp(s), d, e)
    ensures Expand(s, d) == Expand(s, e)
    decreases |s|
  {
    if s != "" {
      HeadDepends(s, d, e);
      ExpandDependsOnLookedUp(s[HeadLength(s)..], d, e);
    }
  }

  lemma {:induction false} HeadConcat(a: string, b: string)
    requires a != "" && Closed(a)
    ensures HeadForm(a + b) == HeadForm(a) && HeadLength(a + b) == HeadLength(a)
    ensures HeadNames(a + b) == HeadNames(a)
    ensures forall d :: HeadValue(a + b, d) == HeadValue(a, d)
    ensures (a + b)[HeadLength(a)..] == a[HeadLength(a)..] + b
  {
    IndexOfConcat(a, b, '}');
    if HeadForm(a).Expression? {
      assert (a + b)[2..IndexOf(a, '}')] == a[2..IndexOf(a, '}')];
    }
  }

  lemma {:induction false} AppendAssociates(x: Option<string>, y: Option<string>, z: Option<string>)
    ensures Append(Append(x, y), z) == Append(x, Append(y, z))
  {
    if x.Some? && y.Some? && z.Some? {
      assert (x.value + y.value) + z.value == x.value + (y.value + z.value);
    }
  }

  /** Closed text expands on its own, whatever stands behind it. */
  lemma {:induction false} ExpandConcat(a: string, b: string, dotenv: Bindings)
    requires Closed(a)
    ensures Expand(a + b, dotenv) == Append(Expand(a, dotenv), Expand(b, dotenv))
    decreases |a|
  {
    if a == "" {
      assert a + b == b;
      assert Expand(b, dotenv).Some? ==> "" + Expand(b, dotenv).value == Expand(b, dotenv).value;
    } else {
      var rest := a[HeadLength(a)..];
      HeadConcat(a, b);
      ExpandConcat(rest, b, dotenv);
      AppendAssociates(HeadValue(a, dotenv), Expand(rest, dotenv), Expand(b, dotenv));
    }
  }

  lemma {:induction false} LookedUpConcat(a: string, b: string)
    requires Closed(a)
    ensures LookedUp(a + b) == LookedUp(a) + LookedUp(b)
    ensures Closed(b) ==> Closed(a + b)
    decreases |a|
  {
    if a == "" {
      assert a + b == b;
    } else {
      HeadConcat(a, b);
      LookedUpConcat(a[HeadLength(a)..], b);
    }
  }

  /** Text with no dollar sign is closed and stands for itself. */
  lemma {:induction false} PlainText(s: string, dotenv: Bindings)
    requires '$' !in s
    ensures Closed(s) && Expand(s, dotenv) == Some(s) && LookedUp(s) == {}
  {
    if s != "" {
      PlainText(s[1..], dotenv);
      assert [s[0]] + s[1..] == s;
    }
  }

  lemma {:induction false} NameLengthAll(name: string, rest: string)
    requires forall c :: c in name ==> NameChar(c)
    requires rest == "" || !NameChar(rest[0])
    ensures NameLength(name + rest) == |name|
  {
    if name == "" {
      assert name + rest == rest;
    } else {
      assert (name + rest)[1..] == name[1..] + rest;
      NameLengthAll(name[1..], rest);
    }
  }

  lemma {:induction false} BracedHead(body: string)
    requires '}' !in body
    ensures var s := "${" + body + "}";
      HeadForm(s).Expression? && HeadLength(s) == |s| && s[2..IndexOf(s, '}')] == body && s[HeadLength(s)..] == ""
  {
    assert '}' !in "${" + body;
    IndexOfConcat("${" + body, "}", '}');
  }

  /** One `${NAME...}` expression, read whole. `rest` is what follows the name. */
  lemma {:induction false} BracedExpression(name: string, rest: string, dotenv: Bindings)
    requires IsName(name) && '}' !in rest && (rest == "" || !NameChar(rest[0]))
    ensures Closed("${" + name + rest + "}")
    ensures Expand("${" + name + rest + "}", dotenv) == Evaluate(name, rest, dotenv)
    ensures LookedUp("${" + name + rest + "}") == {name}
  {
    var body := name + rest;
    assert "${" + name + rest + "}" == "${" + body + "}";
    BracedHead(body);
    NameLengthAll(name, rest);
    assert body[..|name|] == name && body[|name|..] == rest;
    AppendNothing(Evaluate(name, rest, dotenv));
  }

  lemma AppendNothing(x: Option<string>)
    ensures Append(x, Some("")) == x
  {
    if x.Some? {
      assert x.value + "" == x.value;
    }
  }

  // ---------------------------------------------------------------------
  // The exporter's side.
  // ---------------------------------------------------------------------

  /** Doubles every dollar sign (escapeValue). */
  function EscapeValue(value: string): string {
    if value == "" then ""
    else (if value[0] == '$' then "$$" else [value[0]]) + EscapeValue(value[1..])
  }

  /** An escaped value looks nothing up and expands back to itself: the entrypoint
      round trip. */
  lemma {:induction false} EscapedRoundTrip(value: string, dotenv: Bindings)
    ensures Closed(EscapeValue(value)) && LookedUp(EscapeValue(value)) == {}
    ensures Expand(EscapeValue(value), dotenv) == Some(value)
  {
    if value != "" {
      var rest := EscapeValue(value[1..]);
      EscapedRoundTrip(value[1..], dotenv);
      var e := EscapeValue(value);
      if value[0] == '$' {
        assert e[2..] == rest;
      } else {
        assert e[1..] == rest;
      }
      assert [value[0]] + value[1..] == value;
    }
  }

  /** What the exporter writes for one `${key}`. */
  function Replacement(token: string, key: string, env: Bindings): string {
    if key !in env then "$" + token
    else if env[key] == token then token
    else env[key]
  }

  /** Where the closed `${...}` that starts at `i` ends; `i` when none starts there. */
  function TokenEnd(s: string, i: nat): (e: nat)
    requires i <= |s|
    ensures e == i || i + 3 <= e <= |s|
  {
    if i + 1 < |s| && s[i] == '$' && s[i + 1] == '{' && IndexFrom(s, '}', i) < |s|
    then IndexFrom(s, '}', i) + 1
    else i
  }

  /** One turn of the scan: where it ends, and what it writes. */
  function TurnEnd(s: string, i: nat): (e: nat)
    requires i < |s|
    ensures i < e <= |s|
  {
    if TokenEnd(s, i) > i then TokenEnd(s, i) else i + 1
  }

  function TurnText(s: string, i: nat, env: Bindings): string
    requires i < |s|
  {
    var e := TokenEnd(s, i);
    if e > i then Replacement(s[i..e], s[i + 2..e - 1], env) else [s[i]]
  }

  function InterpolatedFrom(value: string, i: nat, env: Bindings): string
    requires i <= |value|
    decreases |value| - i
  {
    if i == |value| then ""
    else TurnText(value, i, env) + InterpolatedFrom(value, TurnEnd(value, i), env)
  }

  function Interpolated(value: string, env: Bindings): string {
    InterpolatedFrom(value, 0, env)
  }

  lemma Regroup(a: string, b: string, c: string)
    ensures a + (b + c) == (a + b) + c
  {
  }

  /** One turn of the scan: a closed token, or one character. */
  method ScanTurn(value: string, i: nat, env: Bindings) returns (text: string, e: nat)
    requires i < |value|
    ensures e == TurnEnd(value, i) && text == TurnText(value, i, env)
  {
    e := TokenEnd(value, i);
    if e == i {
      return [value[i]], i + 1;
    }
    var token := value[i..e];
    var key := value[i + 2..e - 1];
    if key !in env {
      text := "$" + token;
    } else if env[key] == token {
      text := token;
    } else {
      text := env[key];
    }
  }

  lemma OneTurn(s: string, i: nat, env: Bindings, out: string)
    requires i < |s|
    ensures out + InterpolatedFrom(s, i, env)
            == (out + TurnText(s, i, env)) + InterpolatedFrom(s, TurnEnd(s, i), env)
  {
    Regroup(out, TurnText(s, i, env), InterpolatedFrom(s, TurnEnd(s, i), env));
  }

  /** The exporter's scan: an index into the value and a growing output. */
  method Interpolate(value: string, env: Bindings) returns (out: string)
    ensures out == Interpolated(value, env)
  {
    out := "";
    var i := 0;
    while i < |value|
      invariant 0 <= i <= |value|
      invariant out + InterpolatedFrom(value, i, env) == Interpolated(value, env)
    {
      var text, e := ScanTurn(value, i, env);
      OneTurn(value, i, env, out);
      out, i := out + text, e;
    }
  }

  // ---------------------------------------------------------------------
  // Export preserves meaning.
  // ---------------------------------------------------------------------

  /** A catalog string, read as its author means it: literal characters and references
      to this service's variables. */
  datatype Template = Done | Char(c: char, rest: Template) | Ref(key: string, rest: Template)

  predicate Valid(t: Template) {
    match t
    case Done => true
    case Char(c, rest) => c != '$' && Valid(rest)
    case Ref(key, rest) => '$' !in key && '}' !in key && Valid(rest)
  }

  function Token(key: string): string {
    "${" + key + "}"
  }

  function Render(t: Template): string {
    match t
    case Done => ""
    case Char(c, rest) => [c] + Render(rest)
    case Ref(key, rest) => Token(key) + Render(rest)
  }

  /** What the container is meant to receive: each declared variable has the value
      its own environment entry expands to, an undeclared one stays as written. */
  function Meaning(t: Template, env: Bindings, dotenv: Bindings): Option<string> {
    match t
    case Done => Some("")
    case Char(c, rest) => Append(Some([c]), Meaning(rest, env, dotenv))
    case Ref(key, rest) =>
      Append(if key in env then Expand(env[key], dotenv) else Some(Token(key)), Meaning(rest, env, dotenv))
  }

  /** What the exporter's scan writes for a template. */
  function Output(t: Template, env: Bindings): string {
    match t
    case Done => ""
    case Char(c, rest) => [c] + Output(rest, env)
    case Ref(key, rest) => Replacement(Token(key), key, env) + Output(rest, env)
  }

  // ---------------------------------------------------------------------
  // Which strings are well formed, and how they read.
  // ---------------------------------------------------------------------

  /** From `i` on, every `$` starts a closed `${NAME}` whose NAME holds no further `$`. */
  predicate WellFormedFrom(s: string, i: nat)
    requires i <= |s|
    decreases |s| - i
  {
    if i == |s| then true
    else if s[i] != '$' then WellFormedFrom(s, i + 1)
    else var e := TokenEnd(s, i); e > i && '$' !in s[i + 2..e - 1] && WellFormedFrom(s, e)
  }

  predicate WellFormed(s: string) {
    WellFormedFrom(s, 0)
  }

  function ParsedFrom(s: string, i: nat): Template
    requires i <= |s| && WellFormedFrom(s, i)
    decreases |s| - i
  {
    if i == |s| then Done
    else if s[i] != '$' then Char(s[i], ParsedFrom(s, i + 1))
    else var e := TokenEnd(s, i); Ref(s[i + 2..e - 1], ParsedFrom(s, e))
  }

  function Parsed(s: string): Template
    requires WellFormed(s)
  {
    ParsedFrom(s, 0)
  }

  /** A closed token is `${`, its name and `}`. */
  lemma TokenSlice(s: string, i: nat)
    requires i < |s| && TokenEnd(s, i) > i
    ensures var e := TokenEnd(s, i);
            s[i..e] == Token(s[i + 2..e - 1]) && '}' !in s[i + 2..e - 1]
  {
    var e := TokenEnd(s, i);
    var key := s[i + 2..e - 1];
    forall k | 0 <= k < |key|
      ensures key[k] != '}'
    {
      assert key[k] == s[i + 2 + k];
    }
  }

  /** The template of a well-formed string renders to it. */
  lemma {:induction false} ParsedRenders(s: string, i: nat)
    requires i <= |s| && WellFormedFrom(s, i)
    ensures Valid(ParsedFrom(s, i)) && Render(ParsedFrom(s, i)) == s[i..]
    decreases |s| - i
  {
    if i < |s| {
      if s[i] != '$' {
        ParsedRenders(s, i + 1);
        assert [s[i]] + s[i + 1..] == s[i..];
      } else {
        var e := TokenEnd(s, i);
        ParsedRenders(s, e);
        TokenSlice(s, i);
        assert s[i..e] + s[e..] == s[i..];
      }
    }
  }

  /** The scan writes a well-formed string piece by piece. */
  lemma {:induction false} ScanIsOutput(s: string, i: nat, env: Bindings)
    requires i <= |s| && WellFormedFrom(s, i)
    ensures InterpolatedFrom(s, i, env) == Output(ParsedFrom(s, i), env)
    decreases |s| - i
  {
    if i < |s| {
      ScanIsOutput(s, TurnEnd(s, i), env);
      if s[i] == '$' {
        TokenSlice(s, i);
      }
    }
  }

  lemma {:induction false} EscapePlain(t: string)
    requires '$' !in t
    ensures EscapeValue(t) == t
  {
    if t != "" {
      EscapePlain(t[1..]);
    }
  }

  /** An undeclared `$${key}` is left visible: it is what escaping `${key}` gives. */
  lemma UndeclaredStaysVisible(k: string, dotenv: Bindings)
    requires '$' !in k
    ensures Closed("$" + Token(k)) && LookedUp("$" + Token(k)) == {}
    ensures Expand("$" + Token(k), dotenv) == Some(Token(k))
  {
    var tail := "{" + k + "}";
    EscapePlain(tail);
    assert Token(k)[1..] == tail;
    assert EscapeValue(Token(k)) == "$$" + tail;
    assert "$" + Token(k) == "$$" + tail;
    EscapedRoundTrip(Token(k), dotenv);
  }

  /** EXPORT PRESERVES MEANING. For every well-formed catalog string and every .env
      file, Compose's expansion of the exported text is the string with each
      declared variable replaced by the value the environment block gives it and
      each undeclared one left as written; one is refused exactly when the other is. */
  lemma ExportPreservesMeaning(s: string, env: Bindings, dotenv: Bindings)
    requires WellFormed(s)
    requires forall k :: k in env ==> Closed(env[k])
    ensures Expand(Interpolated(s, env), dotenv) == Meaning(Parsed(s), env, dotenv)
  {
    ScanIsOutput(s, 0, env);
    ParsedRenders(s, 0);
    OutputExpands(Parsed(s), env, dotenv);
  }

  lemma {:induction false} OutputExpands(t: Template, env: Bindings, dotenv: Bindings)
    requires Valid(t)
    requires forall k :: k in env ==> Closed(env[k])
    ensures Expand(Output(t, env), dotenv) == Meaning(t, env, dotenv)
    decreases t
  {
    match t
    case Done =>
    case Char(c, rest) =>
      OutputExpands(rest, env, dotenv);
      PlainText([c], dotenv);
      ExpandConcat([c], Output(rest, env), dotenv);
    case Ref(key, rest) =>
      OutputExpands(rest, env, dotenv);
      UndeclaredStaysVisible(key, dotenv);
      ExpandConcat(Replacement(Token(key), key, env), Output(rest, env), dotenv);
  }

  /** The exported text looks up nothing beyond what the environment entries of its
      own declared variables look up. */
  lemma ExportLooksUpOnlyDeclared(s: string, env: Bindings, known: set<string>)
    requires WellFormed(s)
    requires forall k :: k in env ==> Closed(env[k]) && LookedUp(env[k]) <= known
    ensures LookedUp(Interpolated(s, env)) <= known
  {
    ScanIsOutput(s, 0, env);
    ParsedRenders(s, 0);
    OutputLooksUp(Parsed(s), env, known);
  }

  lemma {:induction false} OutputLooksUp(t: Template, env: Bindings, known: set<string>)
    requires Valid(t)
    requires forall k :: k in env ==> Closed(env[k]) && LookedUp(env[k]) <= known
    ensures LookedUp(Output(t, env)) <= known
    decreases t
  {
    match t
    case Done =>
    case Char(c, rest) =>
      OutputLooksUp(rest, env, known);
      PlainText([c], map[]);
      LookedUpConcat([c], Output(rest, env));
    case Ref(key, rest) =>
      OutputLooksUp(rest, env, known);
      UndeclaredStaysVisible(key, map[]);
      LookedUpConcat(Replacement(Token(key), key, env), Output(rest, env));
  }

  // ---------------------------------------------------------------------
  // Every template is some well-formed string's.
  // ---------------------------------------------------------------------

  lemma FrontToken(s: string, i: nat, key: string, tail: string) returns (e: nat)
    requires i <= |s| && s[i..] == Token(key) + tail && '}' !in key
    ensures && i < e <= |s| && s[i] == '$' && TokenEnd(s, i) == e && s[i + 2..e - 1] == key && s[e..] == tail
  {
    var rest := s[i..];
    e := i + |key| + 3;
    assert |rest| == |key| + 3 + |tail|;
    assert s[i] == rest[0] == '$' && s[i + 1] == rest[1] == '{' && s[e - 1] == rest[|key| + 2] == '}';
    forall k | i <= k < e - 1
      ensures s[k] != '}'
    {
      assert s[k] == rest[k - i];
      assert k >= i + 2 ==> rest[k - i] == key[k - i - 2];
    }
    assert IndexFrom(s, '}', i) == e - 1;
    forall k | 0 <= k < |key|
      ensures s[i + 2 + k] == key[k]
    {
      assert s[i + 2 + k] == rest[2 + k];
    }
    forall k | 0 <= k < |tail|
      ensures s[e + k] == tail[k]
    {
      assert s[e + k] == rest[|key| + 3 + k];
    }
    assert s[i + 2..e - 1] == key;
    assert s[e..] == tail;
  }

  /** Reading back a rendered template gives the template. */
  lemma {:induction false} RenderParses(s: string, i: nat, t: Template)
    requires i <= |s| && Valid(t) && s[i..] == Render(t)
    ensures WellFormedFrom(s, i) && ParsedFrom(s, i) == t
    decreases t
  {
    match t
    case Done =>
      assert |s[i..]| == 0;
    case Char(c, rest) =>
      RenderParses(s, i + 1, rest);
    case Ref(key, rest) =>
      var e := FrontToken(s, i, key, Render(rest));
      RenderParses(s, e, rest);
  }
}
