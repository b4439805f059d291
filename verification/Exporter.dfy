/** The exported compose file: its environment blocks, commands, volumes and the
    header that tells the user what to set (internal/compose/compose.go). */
module Exporter {
  import opened Common
  import opened Interpolation

  /** One variable a catalog entry declares. */
  datatype EnvVar = EnvVar(key: string, default: string, required: bool, secret: bool)

  /** A value the file already carries and the user may change. */
  datatype Setting = Setting(key: string, value: string, fromMachine: bool)

  datatype Block = Block(env: Bindings, placeholders: seq<string>, settings: seq<Setting>)

  const HOSTNAME := "{hostname}"

  /** Go's strings.ReplaceAll for the one pattern the exporter replaces. */
  function ReplaceHostname(value: string, hostname: string): string {
    if |value| < |HOSTNAME| then value
    else if value[..|HOSTNAME|] == HOSTNAME then hostname + ReplaceHostname(value[|HOSTNAME|..], hostname)
    else [value[0]] + ReplaceHostname(value[1..], hostname)
  }

  predicate ContainsHostname(value: string) {
    |value| >= |HOSTNAME| && (value[..|HOSTNAME|] == HOSTNAME || ContainsHostname(value[1..]))
  }

  function SubstituteHostname(value: string, hostname: string): string {
    if hostname == "" then value else ReplaceHostname(value, hostname)
  }

  /** A text cut at every place where the pattern stood. */
  datatype Pieces = Last(text: string) | Piece(text: string, rest: Pieces)

  function Joined(p: Pieces, glue: string): string {
    match p
    case Last(text) => text
    case Piece(text, rest) => text + (glue + Joined(rest, glue))
  }

  ghost predicate CutEverywhere(p: Pieces) {
    !Contains(p.text, "{hostname}") && (p.Piece? ==> CutEverywhere(p.rest))
  }

  lemma HostnameShape(k: nat)
    requires 0 < k < |HOSTNAME|
    ensures HOSTNAME[0] == '{' && HOSTNAME[k] != '{'
  {
  }

  /** The pattern cannot begin inside a piece, not even to run over its end. */
  lemma NotInPiece(t: string, rest: string)
    requires t != "" && !Contains(t, HOSTNAME) && (rest == "" || HOSTNAME <= rest)
    ensures |t + rest| >= |HOSTNAME| ==> (t + rest)[..|HOSTNAME|] != HOSTNAME
  {
    var value := t + rest;
    if |t| >= |HOSTNAME| {
      assert !StandsAt(t, 0, HOSTNAME);
      assert value[..|HOSTNAME|] == t[..|HOSTNAME|];
    } else if rest != "" {
      HostnameShape(|t|);
      assert value[|t|] == rest[0] == HOSTNAME[0];
      assert value[..|HOSTNAME|][|t|] != HOSTNAME[|t|];
    }
  }

  lemma {:induction false} ReplacePiece(t: string, rest: string, hostname: string)
    requires !Contains(t, HOSTNAME) && (rest == "" || HOSTNAME <= rest)
    ensures ReplaceHostname(t + rest, hostname) == t + ReplaceHostname(rest, hostname)
  {
    var value := t + rest;
    if t == "" {
      assert value == rest;
    } else {
      NotInPiece(t, rest);
      TailContains(t, HOSTNAME);
      ReplacePiece(t[1..], rest, hostname);
      assert value[1..] == t[1..] + rest;
      assert [t[0]] + (t[1..] + ReplaceHostname(rest, hostname)) == t + ReplaceHostname(rest, hostname);
    }
  }

  /** EVERY OCCURRENCE, AND NOTHING ELSE. Whatever stands between the places of the pattern
      stays, and each place gets the machine's name. */
  lemma {:induction false} ReplaceIsJoin(p: Pieces, hostname: string)
    requires CutEverywhere(p)
    ensures ReplaceHostname(Joined(p, "{hostname}"), hostname) == Joined(p, hostname)
    decreases p
  {
    match p
    case Last(text) =>
      ReplacePiece(text, "", hostname);
      assert text + "" == text;
    case Piece(text, rest) =>
      var tail := HOSTNAME + Joined(rest, HOSTNAME);
      ReplacePiece(text, tail, hostname);
      ReplaceIsJoin(rest, hostname);
      assert tail[..|HOSTNAME|] == HOSTNAME && tail[|HOSTNAME|..] == Joined(rest, HOSTNAME);
  }

  /** Every text is such pieces. */
  lemma {:induction false} CutAtHostname(value: string) returns (p: Pieces)
    ensures CutEverywhere(p) && Joined(p, "{hostname}") == value
  {
    if |value| < |HOSTNAME| {
      p := Last(value);
    } else if value[..|HOSTNAME|] == HOSTNAME {
      var rest := CutAtHostname(value[|HOSTNAME|..]);
      p := Piece("", rest);
      assert "" + (HOSTNAME + value[|HOSTNAME|..]) == value;
    } else {
      var rest := CutAtHostname(value[1..]);
      p := rest.(text := [value[0]] + rest.text);
      assert Joined(p, HOSTNAME) == [value[0]] + value[1..] == value;
      FirstPieceIsFree(value, rest);
    }
  }

  lemma FirstPieceIsFree(value: string, rest: Pieces)
    requires |value| >= |HOSTNAME| && value[..|HOSTNAME|] != HOSTNAME
    requires CutEverywhere(rest) && Joined(rest, HOSTNAME) == value[1..]
    ensures !Contains([value[0]] + rest.text, HOSTNAME)
  {
    var t := [value[0]] + rest.text;
    assert rest.text <= value[1..];
    forall i
      ensures !StandsAt(t, i, HOSTNAME)
    {
      if i == 0 {
        assert |t| >= |HOSTNAME| ==> t[0..|HOSTNAME|] == value[..|HOSTNAME|];
      } else {
        assert !StandsAt(rest.text, i - 1, HOSTNAME);
        assert 0 < i <= |t| - |HOSTNAME| ==> t[i..i + |HOSTNAME|] == rest.text[i - 1..i - 1 + |HOSTNAME|];
      }
    }
  }

  lemma {:induction false} ContainsHostnameIs(value: string)
    ensures ContainsHostname(value) <==> Contains(value, HOSTNAME)
  {
    if |value| >= |HOSTNAME| {
      if value[..|HOSTNAME|] == HOSTNAME {
        assert StandsAt(value, 0, HOSTNAME);
      } else {
        ContainsHostnameIs(value[1..]);
        ContainsLater(value, HOSTNAME);
      }
    }
  }

  function Overridable(key: string, value: string): string {
    "${" + key + ":-" + value + "}"
  }

  function Required(key: string, message: string): string {
    "${" + key + ":?" + message + "}"
  }

  const HINT_WHAT := " to a host directory"
  const HINT_FILE := " in the .env file"
  const HINT_WHERE := " beside this one"
  const HINT := HINT_WHAT + HINT_FILE + HINT_WHERE

  function RequiredPath(key: string): string {
    Required(key, "set " + key + HINT)
  }

  // ---------------------------------------------------------------------
  // The environment block.
  // ---------------------------------------------------------------------

  /** How the file carries one declared variable. */
  datatype Carried = Unwritten | Placeholder | Fixed(value: string) | Default(value: string)

  datatype Declaration = Declaration(key: string, carried: Carried, fromMachine: bool)

  function Declared(item: EnvVar, hostname: string): Declaration {
    var key, def := TrimSpace(item.key), TrimSpace(item.default);
    if key == "" then Declaration(key, Unwritten, false)
    else if def != "" && !item.secret then
      var value := SubstituteHostname(def, hostname);
      if '$' in value then Declaration(key, Fixed(value), false)
      else Declaration(key, Default(value), hostname != "" && ContainsHostname(def))
    else Declaration(key, if item.required || item.secret then Placeholder else Unwritten, false)
  }

  function Declarations(vars: seq<EnvVar>, hostname: string): seq<Declaration> {
    seq(|vars|, i requires 0 <= i < |vars| => Declared(vars[i], hostname))
  }

  function Form(key: string, c: Carried): string
    requires c != Unwritten
  {
    match c
    case Placeholder => Token(key)
    case Fixed(v) => EscapeValue(v)
    case Default(v) => Overridable(key, v)
  }

  /** What the first `n` declarations make of `key`: the last one that writes it decides. */
  function CarriedBy(ds: seq<Declaration>, n: nat, key: string): Carried
    requires n <= |ds|
  {
    if n == 0 then Unwritten
    else if ds[n - 1].key == key && ds[n - 1].carried != Unwritten then ds[n - 1].carried
    else CarriedBy(ds, n - 1, key)
  }

  lemma {:induction false} CarriedIsDeclared(ds: seq<Declaration>, n: nat, key: string) returns (i: nat)
    requires n <= |ds| && CarriedBy(ds, n, key) != Unwritten
    ensures i < n && ds[i].key == key && ds[i].carried == CarriedBy(ds, n, key)
  {
    i := n - 1;
    if ds[i].key != key || ds[i].carried == Unwritten {
      i := CarriedIsDeclared(ds, n - 1, key);
    }
  }

  /** The keys the user has to supply, in declaration order. */
  function PlaceholderKeys(ds: seq<Declaration>, n: nat): seq<string>
    requires n <= |ds|
  {
    if n == 0 then []
    else PlaceholderKeys(ds, n - 1) + DeclaredKeys(ds[n - 1])
  }

  /** The values the file carries, in declaration order. */
  function CarriedSettings(ds: seq<Declaration>, n: nat): seq<Setting>
    requires n <= |ds|
  {
    if n == 0 then []
    else CarriedSettings(ds, n - 1) + DeclaredSettings(ds[n - 1])
  }

  function DeclaredSettings(d: Declaration): seq<Setting> {
    if d.carried.Default? then [Setting(d.key, d.carried.value, d.fromMachine)] else []
  }

  function DeclaredKeys(d: Declaration): seq<string> {
    if d.carried == Placeholder then [d.key] else []
  }

  /** The environment block says of every key what its last declaration says. */
  ghost predicate Carries(env: Bindings, ds: seq<Declaration>, n: nat)
    requires n <= |ds|
  {
    forall key :: CarriesKey(env, ds, n, key)
  }

  ghost predicate CarriesKey(env: Bindings, ds: seq<Declaration>, n: nat, key: string)
    requires n <= |ds|
  {
    var c := CarriedBy(ds, n, key);
    && (key in env <==> c != Unwritten)
    && (key in env ==> env[key] == Form(key, c))
  }

  function Written(env: Bindings, d: Declaration): Bindings {
    if d.carried == Unwritten then env else env[d.key := Form(d.key, d.carried)]
  }

  /** The block after the first `n` declarations. */
  function EnvOf(ds: seq<Declaration>, n: nat): Bindings
    requires n <= |ds|
  {
    if n == 0 then map[] else Written(EnvOf(ds, n - 1), ds[n - 1])
  }

  lemma {:induction false} EnvCarries(ds: seq<Declaration>, n: nat)
    requires n <= |ds|
    ensures Carries(EnvOf(ds, n), ds, n)
  {
    if n > 0 {
      EnvCarries(ds, n - 1);
      CarriesStep(EnvOf(ds, n - 1), ds, n - 1);
    }
  }

  lemma CarriesStep(env: Bindings, ds: seq<Declaration>, n: nat)
    requires n < |ds| && Carries(env, ds, n)
    ensures Carries(Written(env, ds[n]), ds, n + 1)
  {
    var m, next := n + 1, Written(env, ds[n]);
    forall k
      ensures CarriesKey(next, ds, m, k)
    {
      assert CarriesKey(env, ds, n, k);
    }
  }

  /** One declared variable: what it writes into the block. */
  method CarryOne(item: EnvVar, hostname: string, env: Bindings)
    returns (next: Bindings, keys: seq<string>, changed: seq<Setting>)
    ensures next == Written(env, Declared(item, hostname))
    ensures keys == DeclaredKeys(Declared(item, hostname))
    ensures changed == DeclaredSettings(Declared(item, hostname))
  {
    next, keys, changed := env, [], [];
    var key := TrimSpace(item.key);
    if key == "" {
      return;
    }
    var def := TrimSpace(item.default);
    if def != "" && !item.secret {
      var value := SubstituteHostname(def, hostname);
      if '$' in value {
        next := env[key := EscapeValue(value)];
        return;
      }
      next := env[key := Overridable(key, value)];
      changed := [Setting(key, value, hostname != "" && ContainsHostname(def))];
    } else if item.required || item.secret {
      next := env[key := Token(key)];
      keys := [key];
    }
  }

  ghost predicate IsBlock(block: Block, ds: seq<Declaration>) {
    && Carries(block.env, ds, |ds|)
    && block.placeholders == PlaceholderKeys(ds, |ds|)
    && block.settings == CarriedSettings(ds, |ds|)
  }

  /** The block after `n` declarations. */
  ghost predicate UpTo(block: Block, ds: seq<Declaration>, n: nat)
    requires n <= |ds|
  {
    && block.env == EnvOf(ds, n)
    && block.placeholders == PlaceholderKeys(ds, n)
    && block.settings == CarriedSettings(ds, n)
  }

  lemma OneMoreDeclared(block: Block, ds: seq<Declaration>, n: nat)
    requires n < |ds| && UpTo(block, ds, n)
    ensures UpTo(Block(Written(block.env, ds[n]), block.placeholders + DeclaredKeys(ds[n]),
                       block.settings + DeclaredSettings(ds[n])), ds, n + 1)
  {
  }

  /** The source's loop over the declared variables. */
  method Environment(vars: seq<EnvVar>, hostname: string) returns (block: Block)
    ensures IsBlock(block, Declarations(vars, hostname))
  {
    var env: Bindings := map[];
    var placeholders: seq<string> := [];
    var settings: seq<Setting> := [];
    ghost var ds := Declarations(vars, hostname);
    for n := 0 to |vars|
      invariant UpTo(Block(env, placeholders, settings), ds, n)
    {
      var next, keys, changed := CarryOne(vars[n], hostname, env);
      OneMoreDeclared(Block(env, placeholders, settings), ds, n);
      env := next;
      placeholders := placeholders + keys;
      settings := settings + changed;
    }
    EnvCarries(ds, |ds|);
    block := Block(env, placeholders, settings);
  }

  // ---------------------------------------------------------------------
  // What Compose makes of each form.
  // ---------------------------------------------------------------------

  /** What the container gets for a variable the file carries as `c`. */
  function CarriedValue(key: string, c: Carried, dotenv: Bindings): string
    requires c != Unwritten
  {
    match c
    case Placeholder => Lookup(key, dotenv)
    case Fixed(v) => v
    case Default(v) => if Filled(key, dotenv) then dotenv[key] else v
  }

  predicate WellFormedCarried(key: string, c: Carried) {
    match c
    case Unwritten => true
    case Placeholder => IsName(key)
    case Fixed(_) => true
    case Default(v) => IsName(key) && '}' !in v
  }

  lemma {:induction false} PlaceholderExpands(key: string, dotenv: Bindings)
    requires IsName(key)
    ensures Closed(Token(key)) && LookedUp(Token(key)) == {key}
    ensures Expand(Token(key), dotenv) == Some(Lookup(key, dotenv))
  {
    BracedExpression(key, "", dotenv);
    assert "${" + key + "" + "}" == Token(key);
  }

  lemma Reassociated(key: string, mark: string, text: string)
    ensures "${" + key + mark + text + "}" == "${" + key + (mark + text) + "}"
  {
  }

  lemma EvaluateMarked(key: string, text: string, dotenv: Bindings)
    requires IsName(key)
    ensures Evaluate(key, ":-" + text, dotenv) == Some(if Filled(key, dotenv) then dotenv[key] else text)
    ensures Evaluate(key, ":?" + text, dotenv) == if Filled(key, dotenv) then Some(dotenv[key]) else None
  {
    assert (":-" + text)[2..] == text;
  }

  lemma {:induction false} DefaultExpands(key: string, value: string, dotenv: Bindings)
    requires IsName(key) && '}' !in value
    ensures Closed(Overridable(key, value)) && LookedUp(Overridable(key, value)) == {key}
    ensures Expand(Overridable(key, value), dotenv) == Some(if Filled(key, dotenv) then dotenv[key] else value)
  {
    Reassociated(key, ":-", value);
    EvaluateMarked(key, value, dotenv);
    BracedExpression(key, ":-" + value, dotenv);
  }

  lemma {:induction false} RequiredExpands(key: string, message: string, dotenv: Bindings)
    requires IsName(key) && '}' !in message
    ensures Closed(Required(key, message)) && LookedUp(Required(key, message)) == {key}
    ensures Expand(Required(key, message), dotenv) == if Filled(key, dotenv) then Some(dotenv[key]) else None
  {
    Reassociated(key, ":?", message);
    EvaluateMarked(key, message, dotenv);
    BracedExpression(key, ":?" + message, dotenv);
  }

  /** A host path the user has to supply is refused by Compose until it is set. */
  lemma {:induction false} RequiredPathExpands(key: string, dotenv: Bindings)
    requires IsName(key)
    ensures Closed(RequiredPath(key)) && LookedUp(RequiredPath(key)) == {key}
    ensures Expand(RequiredPath(key), dotenv) == if Filled(key, dotenv) then Some(dotenv[key]) else None
  {
    assert '}' !in HINT_WHAT;
    assert '}' !in HINT_FILE;
    assert '}' !in HINT_WHERE;
    RequiredExpands(key, "set " + key + HINT, dotenv);
  }

  /** A credential is asked of the .env file, a default yields to it, and a value
      with a dollar sign stands for itself. */
  lemma {:induction false} FormExpands(key: string, c: Carried, dotenv: Bindings)
    requires c != Unwritten && WellFormedCarried(key, c)
    ensures Closed(Form(key, c))
    ensures LookedUp(Form(key, c)) == (if c.Fixed? then {} else {key})
    ensures Expand(Form(key, c), dotenv) == Some(CarriedValue(key, c, dotenv))
  {
    match c {
      case Fixed(v) => EscapedRoundTrip(v, dotenv);
      case Placeholder => PlaceholderExpands(key, dotenv);
      case Default(v) => DefaultExpands(key, v, dotenv);
    }
  }

  // ---------------------------------------------------------------------
  // One service's block.
  // ---------------------------------------------------------------------

  /** The part of a catalog entry whose text ends up in the file. `verbatim` stands
      for every scalar copied as it is: image, names, labels, ports, devices, limits. */
  datatype Entry = Entry(
    vars: seq<EnvVar>, volumes: seq<string>, entrypoint: seq<string>, command: string, verbatim: seq<string>)

  datatype Exported = Exported(
    block: Block, volumes: seq<string>, entrypoint: seq<string>, command: string, verbatim: seq<string>)

  /** The environment volumes are written from: a key the user has to supply is
      required rather than blanked. */
  function RequirePaths(env: Bindings, keys: seq<string>): Bindings {
    if keys == [] then env
    else RequirePaths(env, keys[..|keys| - 1])[keys[|keys| - 1] := RequiredPath(keys[|keys| - 1])]
  }

  function VolumeEnv(block: Block): Bindings {
    RequirePaths(block.env, block.placeholders)
  }

  lemma {:induction false} RequirePathsAt(env: Bindings, keys: seq<string>, k: string)
    ensures k in RequirePaths(env, keys) <==> k in env || k in keys
    ensures k in keys ==> RequirePaths(env, keys)[k] == RequiredPath(k)
    ensures k !in keys && k in env ==> RequirePaths(env, keys)[k] == env[k]
  {
    if keys != [] {
      RequirePathsAt(env, keys[..|keys| - 1], k);
      assert keys == keys[..|keys| - 1] + [keys[|keys| - 1]];
    }
  }

  ghost predicate IsExport(e: Exported, entry: Entry, hostname: string) {
    && IsBlock(e.block, Declarations(entry.vars, hostname))
    && e.volumes == InterpolatedAll(entry.volumes, VolumeEnv(e.block))
    && e.entrypoint == EscapedAll(entry.entrypoint)
    && e.command == Interpolated(entry.command, e.block.env)
    && e.verbatim == entry.verbatim
  }

  function InterpolatedAll(values: seq<string>, env: Bindings): seq<string> {
    seq(|values|, i requires 0 <= i < |values| => Interpolated(values[i], env))
  }

  function EscapedAll(values: seq<string>): seq<string> {
    seq(|values|, i requires 0 <= i < |values| => EscapeValue(values[i]))
  }

  /** The source's copy of the environment with every host path made required. */
  method VolumeEnvironment(block: Block) returns (volumeEnv: Bindings)
    ensures volumeEnv == VolumeEnv(block)
  {
    volumeEnv := block.env;
    var keys := block.placeholders;
    for i := 0 to |keys|
      invariant volumeEnv == RequirePaths(block.env, keys[..i])
    {
      assert keys[..i + 1][..i] == keys[..i];
      volumeEnv := volumeEnv[keys[i] := RequiredPath(keys[i])];
    }
    assert keys[..|keys|] == keys;
  }

  method InterpolateAll(values: seq<string>, env: Bindings) returns (out: seq<string>)
    ensures out == InterpolatedAll(values, env)
  {
    out := [];
    for i := 0 to |values|
      invariant |out| == i && forall k :: 0 <= k < i ==> out[k] == Interpolated(values[k], env)
    {
      var text := Interpolate(values[i], env);
      out := out + [text];
    }
  }

  method EscapeAll(values: seq<string>) returns (out: seq<string>)
    ensures out == EscapedAll(values)
  {
    out := [];
    for i := 0 to |values|
      invariant |out| == i && forall k :: 0 <= k < i ==> out[k] == EscapeValue(values[k])
    {
      out := out + [EscapeValue(values[i])];
    }
  }

  method ServiceBlock(entry: Entry, hostname: string) returns (e: Exported)
    ensures IsExport(e, entry, hostname)
  {
    var block := Environment(entry.vars, hostname);
    var volumeEnv := VolumeEnvironment(block);
    var volumes := InterpolateAll(entry.volumes, volumeEnv);
    var entrypoint := EscapeAll(entry.entrypoint);
    var command := "";
    if entry.command != "" {
      command := Interpolate(entry.command, block.env);
    }
    e := Exported(block, volumes, entrypoint, command, entry.verbatim);
  }

  /** What the exporter expects of a catalog entry's text. */
  predicate WellFormedEntry(entry: Entry, hostname: string) {
    && (forall d :: d in Declarations(entry.vars, hostname) ==> WellFormedCarried(d.key, d.carried))
    && (forall v :: v in entry.volumes ==> WellFormed(v))
    && WellFormed(entry.command)
    && (forall v :: v in entry.verbatim ==> '$' !in v)
  }

  function SettingKeys(settings: seq<Setting>): set<string> {
    set s | s in settings :: s.key
  }

  /** The keys a block's header lines name. */
  function Named(block: Block): set<string> {
    (set k | k in block.placeholders) + SettingKeys(block.settings)
  }

  /** A key the file leaves to .env is asked for or announced as changeable. */
  lemma {:induction false} CarriedIsNamed(ds: seq<Declaration>, n: nat, key: string)
    requires n <= |ds|
    ensures CarriedBy(ds, n, key) == Placeholder ==> key in PlaceholderKeys(ds, n)
    ensures CarriedBy(ds, n, key).Default? ==> key in SettingKeys(CarriedSettings(ds, n))
  {
    if n > 0 {
      CarriedIsNamed(ds, n - 1, key);
      assert forall s :: s in CarriedSettings(ds, n - 1) ==> s in CarriedSettings(ds, n);
      var d := ds[n - 1];
      if d.key == key && d.carried.Default? {
        assert Setting(key, d.carried.value, d.fromMachine) in CarriedSettings(ds, n);
      }
    }
  }

  /** A key is asked for only when some declaration asks for it, and then the block carries it. */
  lemma {:induction false} PlaceholdersAreDeclared(ds: seq<Declaration>, n: nat, key: string)
    requires n <= |ds| && key in PlaceholderKeys(ds, n)
    ensures exists d :: d in ds && d.key == key && d.carried == Placeholder
    ensures CarriedBy(ds, n, key) != Unwritten
  {
    if key in PlaceholderKeys(ds, n - 1) {
      PlaceholdersAreDeclared(ds, n - 1, key);
    } else {
      assert ds[n - 1] in ds;
    }
  }

  /** Every entry of the environment block expands to what its declaration says,
      looking up only keys the header names. */
  lemma {:induction false} EnvironmentExpands(e: Exported, entry: Entry, hostname: string, key: string, dotenv: Bindings)
    requires IsExport(e, entry, hostname) && WellFormedEntry(entry, hostname) && key in e.block.env
    ensures
      var ds := Declarations(entry.vars, hostname);
      var c := CarriedBy(ds, |ds|, key);
      && c != Unwritten
      && Closed(e.block.env[key])
      && LookedUp(e.block.env[key]) <= Named(e.block)
      && Expand(e.block.env[key], dotenv) == Some(CarriedValue(key, c, dotenv))
  {
    var ds := Declarations(entry.vars, hostname);
    assert CarriesKey(e.block.env, ds, |ds|, key);
    var c := CarriedBy(ds, |ds|, key);
    var i := CarriedIsDeclared(ds, |ds|, key);
    assert ds[i] in ds;
    FormExpands(key, c, dotenv);
    CarriedIsNamed(ds, |ds|, key);
  }

  // ---------------------------------------------------------------------
  // The export gives the container what the catalog entry means.
  // ---------------------------------------------------------------------

  /** The environment the container runs with, once Compose has expanded the block. */
  function ContainerEnv(e: Exported, dotenv: Bindings): Bindings {
    map k | k in e.block.env && Expand(e.block.env[k], dotenv).Some? :: Expand(e.block.env[k], dotenv).value
  }

  /** The template with every variable the service declares replaced by its value,
      and every other reference left as written. */
  function Substituted(t: Template, values: Bindings): string {
    match t
    case Done => ""
    case Char(c, rest) => [c] + Substituted(rest, values)
    case Ref(key, rest) => (if key in values then values[key] else Token(key)) + Substituted(rest, values)
  }

  /** The names a template refers to. */
  function Refs(t: Template): set<string> {
    match t
    case Done => {}
    case Char(_, rest) => Refs(rest)
    case Ref(key, rest) => {key} + Refs(rest)
  }

  lemma {:induction false} MeaningIsSubstitution(t: Template, env: Bindings, dotenv: Bindings, values: Bindings)
    requires values.Keys == env.Keys
    requires forall k :: k in Refs(t) && k in env ==> Expand(env[k], dotenv) == Some(values[k])
    ensures Meaning(t, env, dotenv) == Some(Substituted(t, values))
    decreases t
  {
    if t != Done {
      MeaningIsSubstitution(t.rest, env, dotenv, values);
    }
  }

  lemma ContainerEnvIsWhole(e: Exported, entry: Entry, hostname: string, dotenv: Bindings)
    requires IsExport(e, entry, hostname) && WellFormedEntry(entry, hostname)
    ensures ContainerEnv(e, dotenv).Keys == e.block.env.Keys
    ensures forall k :: k in e.block.env ==>
              Closed(e.block.env[k]) && Expand(e.block.env[k], dotenv) == Some(ContainerEnv(e, dotenv)[k])
  {
    forall k | k in e.block.env
      ensures Closed(e.block.env[k]) && Expand(e.block.env[k], dotenv).Some?
    {
      EnvironmentExpands(e, entry, hostname, k, dotenv);
    }
  }

  // ---------------------------------------------------------------------
  // What the container gets, by the variables the catalog declares.
  // ---------------------------------------------------------------------

  /** A variable writes a key when it has a default to write, or has to be supplied. */
  predicate WritesKey(v: EnvVar, key: string) {
    key != "" && TrimSpace(v.key) == key && ((TrimSpace(v.default) != "" && !v.secret) || v.required || v.secret)
  }

  ghost predicate LastWriter(vars: seq<EnvVar>, n: nat, i: nat, key: string) {
    i < n <= |vars| && WritesKey(vars[i], key) && forall j :: i < j < n ==> !WritesKey(vars[j], key)
  }

  /** What the container is to get for it: the supplied value, or the default, which only a
      filled key overrides and only when it holds no dollar sign. */
  function Given(v: EnvVar, key: string, hostname: string, dotenv: Bindings): string {
    var def := TrimSpace(v.default);
    var text := if hostname == "" then def else ReplaceHostname(def, hostname);
    if v.secret || def == "" then Lookup(key, dotenv)
    else if '$' in text || !Filled(key, dotenv) then text
    else dotenv[key]
  }

  lemma DeclaredWrites(v: EnvVar, hostname: string, key: string)
    ensures var d := Declared(v, hostname); (d.key == key && d.carried != Unwritten) <==> WritesKey(v, key)
  {
  }

  predicate Writes(d: Declaration, key: string) {
    d.key == key && d.carried != Unwritten
  }

  lemma {:induction false} CarriedIsLast(ds: seq<Declaration>, n: nat, key: string)
    requires n <= |ds|
    ensures CarriedBy(ds, n, key) == Unwritten <==> forall i :: 0 <= i < n ==> !Writes(ds[i], key)
    ensures forall i :: 0 <= i < n && Writes(ds[i], key) && (forall j :: i < j < n ==> !Writes(ds[j], key)) ==>
              CarriedBy(ds, n, key) == ds[i].carried
  {
    if n > 0 {
      CarriedIsLast(ds, n - 1, key);
    }
  }

  lemma WritersAre(vars: seq<EnvVar>, hostname: string, key: string)
    ensures var ds := Declarations(vars, hostname);
            forall i :: 0 <= i < |vars| ==> (Writes(ds[i], key) <==> WritesKey(vars[i], key))
  {
    forall i | 0 <= i < |vars|
      ensures Writes(Declarations(vars, hostname)[i], key) <==> WritesKey(vars[i], key)
    {
      DeclaredWrites(vars[i], hostname, key);
    }
  }

  lemma DeclaredGives(v: EnvVar, key: string, hostname: string, dotenv: Bindings)
    requires WritesKey(v, key)
    ensures Declared(v, hostname).carried != Unwritten
    ensures CarriedValue(key, Declared(v, hostname).carried, dotenv) == Given(v, key, hostname, dotenv)
  {
  }

  lemma BlockGets(e: Exported, entry: Entry, hostname: string, dotenv: Bindings, key: string)
    requires IsExport(e, entry, hostname) && WellFormedEntry(entry, hostname)
    ensures var ds := Declarations(entry.vars, hostname);
            var c := CarriedBy(ds, |ds|, key);
            && (key !in ContainerEnv(e, dotenv) <==> c == Unwritten)
            && (c != Unwritten ==> key in ContainerEnv(e, dotenv) && ContainerEnv(e, dotenv)[key] == CarriedValue(key, c, dotenv))
  {
    var ds := Declarations(entry.vars, hostname);
    assert CarriesKey(e.block.env, ds, |ds|, key);
    if key in e.block.env {
      EnvironmentExpands(e, entry, hostname, key, dotenv);
    }
  }

  /** The container has exactly the keys some variable writes. */
  lemma ContainerHas(e: Exported, entry: Entry, hostname: string, dotenv: Bindings, key: string)
    requires IsExport(e, entry, hostname) && WellFormedEntry(entry, hostname)
    ensures key in ContainerEnv(e, dotenv) <==> exists i :: 0 <= i < |entry.vars| && WritesKey(entry.vars[i], key)
  {
    CarriedIsLast(Declarations(entry.vars, hostname), |entry.vars|, key);
    WritersAre(entry.vars, hostname, key);
    BlockGets(e, entry, hostname, dotenv, key);
  }

  lemma LastWriterCarried(vars: seq<EnvVar>, hostname: string, key: string, i: nat)
    requires LastWriter(vars, |vars|, i, key)
    ensures CarriedBy(Declarations(vars, hostname), |vars|, key) == Declared(vars[i], hostname).carried
  {
    CarriedIsLast(Declarations(vars, hostname), |vars|, key);
    WritersAre(vars, hostname, key);
  }

  /** WHAT THE CONTAINER GETS. For every .env, a key has the value that the last variable to
      write it is to give it. */
  lemma ContainerGets(e: Exported, entry: Entry, hostname: string, dotenv: Bindings, key: string, i: nat)
    requires IsExport(e, entry, hostname) && WellFormedEntry(entry, hostname)
    requires LastWriter(entry.vars, |entry.vars|, i, key)
    ensures key in ContainerEnv(e, dotenv)
    ensures ContainerEnv(e, dotenv)[key] == Given(entry.vars[i], key, hostname, dotenv)
  {
    LastWriterCarried(entry.vars, hostname, key, i);
    DeclaredGives(entry.vars[i], key, hostname, dotenv);
    BlockGets(e, entry, hostname, dotenv, key);
  }

  predicate AsksFor(v: EnvVar, key: string) {
    key != "" && TrimSpace(v.key) == key && (v.secret || (v.required && TrimSpace(v.default) == ""))
  }

  ghost predicate Offers(v: EnvVar, hostname: string, s: Setting) {
    && s.key != "" && TrimSpace(v.key) == s.key && !v.secret && TrimSpace(v.default) != ""
    && s.value == (if hostname == "" then TrimSpace(v.default) else ReplaceHostname(TrimSpace(v.default), hostname))
    && '$' !in s.value
    && s.fromMachine == (hostname != "" && Contains(TrimSpace(v.default), "{hostname}"))
  }

  lemma {:induction false} AskedIn(ds: seq<Declaration>, n: nat, key: string)
    requires n <= |ds|
    ensures key in PlaceholderKeys(ds, n) <==> exists i :: 0 <= i < n && key in DeclaredKeys(ds[i])
  {
    if n > 0 {
      AskedIn(ds, n - 1, key);
    }
  }

  /** The header is told the keys that have to be supplied. */
  lemma AskedKeysAreTold(vars: seq<EnvVar>, hostname: string, key: string)
    ensures key in PlaceholderKeys(Declarations(vars, hostname), |vars|) <==> exists i :: 0 <= i < |vars| && AsksFor(vars[i], key)
  {
    var ds := Declarations(vars, hostname);
    AskedIn(ds, |vars|, key);
    forall i | 0 <= i < |vars|
      ensures key in DeclaredKeys(ds[i]) <==> AsksFor(vars[i], key)
    {
      DeclaredAsks(vars[i], hostname, key);
    }
  }

  lemma DeclaredAsks(v: EnvVar, hostname: string, key: string)
    ensures key in DeclaredKeys(Declared(v, hostname)) <==> AsksFor(v, key)
  {
  }

  lemma {:induction false} OfferedIn(ds: seq<Declaration>, n: nat, s: Setting)
    requires n <= |ds|
    ensures s in CarriedSettings(ds, n) <==> exists i :: 0 <= i < n && s in DeclaredSettings(ds[i])
  {
    if n > 0 {
      OfferedIn(ds, n - 1, s);
    }
  }

  /** It is told each default that can be changed, marked when it holds this machine's name. */
  lemma DefaultsAreTold(vars: seq<EnvVar>, hostname: string, s: Setting)
    ensures s in CarriedSettings(Declarations(vars, hostname), |vars|) <==> exists i :: 0 <= i < |vars| && Offers(vars[i], hostname, s)
  {
    var ds := Declarations(vars, hostname);
    OfferedIn(ds, |vars|, s);
    forall i | 0 <= i < |vars|
      ensures s in DeclaredSettings(ds[i]) <==> Offers(vars[i], hostname, s)
    {
      DeclaredOffers(vars[i], hostname, s);
    }
  }

  lemma DeclaredOffers(v: EnvVar, hostname: string, s: Setting)
    ensures s in DeclaredSettings(Declared(v, hostname)) <==> Offers(v, hostname, s)
  {
    ContainsHostnameIs(TrimSpace(v.default));
  }

  /** The command, after Compose has expanded it, is the catalog's command with each
      variable replaced by what the container's own environment holds. */
  lemma {:induction false} CommandMeansWhatTheCatalogSays(e: Exported, entry: Entry, hostname: string, dotenv: Bindings)
    requires IsExport(e, entry, hostname) && WellFormedEntry(entry, hostname)
    ensures Expand(e.command, dotenv) == Some(Substituted(Parsed(entry.command), ContainerEnv(e, dotenv)))
  {
    ContainerEnvIsWhole(e, entry, hostname, dotenv);
    ExportPreservesMeaning(entry.command, e.block.env, dotenv);
    MeaningIsSubstitution(Parsed(entry.command), e.block.env, dotenv, ContainerEnv(e, dotenv));
  }

  /** Every shell word of the entrypoint reaches the container untouched. */
  lemma EntrypointIsUntouched(e: Exported, entry: Entry, hostname: string, dotenv: Bindings, i: nat)
    requires IsExport(e, entry, hostname) && i < |e.entrypoint|
    ensures |e.entrypoint| == |entry.entrypoint|
    ensures Expand(e.entrypoint[i], dotenv) == Some(entry.entrypoint[i])
  {
    EscapedRoundTrip(entry.entrypoint[i], dotenv);
  }

  ghost predicate AllFilled(keys: seq<string>, dotenv: Bindings) {
    forall k :: k in keys ==> Filled(k, dotenv)
  }

  /** A key that is asked for, and also pinned to a text with a dollar sign by a later
      declaration of the same key. */
  predicate Clashes(entry: Entry, hostname: string, key: string) {
    var ds := Declarations(entry.vars, hostname);
    key in PlaceholderKeys(ds, |ds|) && CarriedBy(ds, |ds|, key).Fixed?
  }

  lemma VolumeEnvExpands(e: Exported, entry: Entry, hostname: string, key: string, dotenv: Bindings)
    requires IsExport(e, entry, hostname) && WellFormedEntry(entry, hostname) && key in VolumeEnv(e.block)
    ensures key in e.block.env
    ensures Closed(VolumeEnv(e.block)[key]) && LookedUp(VolumeEnv(e.block)[key]) <= Named(e.block)
    ensures Expand(VolumeEnv(e.block)[key], dotenv)
         == if key in e.block.placeholders && !Filled(key, dotenv) then None
            else if key in e.block.placeholders then Some(dotenv[key])
            else Expand(e.block.env[key], dotenv)
  {
    var ds := Declarations(entry.vars, hostname);
    RequirePathsAt(e.block.env, e.block.placeholders, key);
    assert CarriesKey(e.block.env, ds, |ds|, key);
    if key in e.block.placeholders {
      PlaceholdersAreDeclared(ds, |ds|, key);
      RequiredPathExpands(key, dotenv);
    } else {
      EnvironmentExpands(e, entry, hostname, key, dotenv);
    }
  }

  /** A volume expands to the catalog's volume with the values the environment holds. */
  predicate VolumeAgrees(e: Exported, entry: Entry, i: nat, dotenv: Bindings)
    requires i < |e.volumes| && i < |entry.volumes| && WellFormed(entry.volumes[i])
  {
    Expand(e.volumes[i], dotenv) == Some(Substituted(Parsed(entry.volumes[i]), ContainerEnv(e, dotenv)))
  }

  ghost predicate ExportedVolume(e: Exported, entry: Entry, hostname: string, i: nat) {
    && IsExport(e, entry, hostname) && WellFormedEntry(entry, hostname)
    && i < |e.volumes| == |entry.volumes| && WellFormed(entry.volumes[i])
  }

  /** What Compose makes of each key in a volume, once the required ones are set. */
  function VolumeValues(e: Exported, dotenv: Bindings): Bindings {
    var venv := VolumeEnv(e.block);
    map k | k in venv && Expand(venv[k], dotenv).Some? :: Expand(venv[k], dotenv).value
  }

  lemma VolumeValuesAre(e: Exported, entry: Entry, hostname: string, dotenv: Bindings)
    requires IsExport(e, entry, hostname) && WellFormedEntry(entry, hostname)
    requires AllFilled(e.block.placeholders, dotenv)
    ensures VolumeValues(e, dotenv).Keys == VolumeEnv(e.block).Keys == ContainerEnv(e, dotenv).Keys
    ensures forall k :: k in VolumeEnv(e.block) ==>
              && Closed(VolumeEnv(e.block)[k])
              && VolumeValues(e, dotenv)[k]
                 == if k in e.block.placeholders then dotenv[k] else ContainerEnv(e, dotenv)[k]
  {
    ContainerEnvIsWhole(e, entry, hostname, dotenv);
    forall k
      ensures k in VolumeEnv(e.block) <==> k in e.block.env
      ensures k in VolumeEnv(e.block) ==>
                && Closed(VolumeEnv(e.block)[k])
                && Expand(VolumeEnv(e.block)[k], dotenv)
                   == Some(if k in e.block.placeholders then dotenv[k] else ContainerEnv(e, dotenv)[k])
    {
      RequirePathsAt(e.block.env, e.block.placeholders, k);
      if k in VolumeEnv(e.block) {
        VolumeEnvExpands(e, entry, hostname, k, dotenv);
      }
    }
  }

  lemma VolumeIsSubstituted(e: Exported, entry: Entry, hostname: string, dotenv: Bindings, i: nat)
    requires ExportedVolume(e, entry, hostname, i) && AllFilled(e.block.placeholders, dotenv)
    ensures Expand(e.volumes[i], dotenv) == Some(Substituted(Parsed(entry.volumes[i]), VolumeValues(e, dotenv)))
  {
    VolumeValuesAre(e, entry, hostname, dotenv);
    ExportPreservesMeaning(entry.volumes[i], VolumeEnv(e.block), dotenv);
    MeaningIsSubstitution(Parsed(entry.volumes[i]), VolumeEnv(e.block), dotenv, VolumeValues(e, dotenv));
  }

  /** What the container gets for a key that is asked for. */
  lemma AskedValue(e: Exported, entry: Entry, hostname: string, key: string, dotenv: Bindings)
    requires IsExport(e, entry, hostname) && WellFormedEntry(entry, hostname)
    requires key in e.block.placeholders && Filled(key, dotenv)
    ensures key in ContainerEnv(e, dotenv)
    ensures var ds := Declarations(entry.vars, hostname);
            ContainerEnv(e, dotenv)[key]
            == if Clashes(entry, hostname, key) then CarriedBy(ds, |ds|, key).value else dotenv[key]
  {
    var ds := Declarations(entry.vars, hostname);
    PlaceholdersAreDeclared(ds, |ds|, key);
    assert CarriesKey(e.block.env, ds, |ds|, key);
    EnvironmentExpands(e, entry, hostname, key, dotenv);
  }

  lemma {:induction false} SameSubstitution(t: Template, a: Bindings, b: Bindings)
    requires a.Keys == b.Keys && forall k :: k in Refs(t) && k in a ==> a[k] == b[k]
    ensures Substituted(t, a) == Substituted(t, b)
    decreases t
  {
    if t != Done {
      SameSubstitution(t.rest, a, b);
    }
  }

  /** With every required key set, a volume that refers to no clashing key expands to the
      catalog's volume with the same values the environment holds. */
  lemma {:induction false} VolumeMeansWhatTheCatalogSays(e: Exported, entry: Entry, hostname: string, dotenv: Bindings, i: nat)
    requires ExportedVolume(e, entry, hostname, i) && AllFilled(e.block.placeholders, dotenv)
    requires forall k :: k in Refs(Parsed(entry.volumes[i])) ==> !Clashes(entry, hostname, k)
    ensures VolumeAgrees(e, entry, i, dotenv)
  {
    var t := Parsed(entry.volumes[i]);
    VolumeIsSubstituted(e, entry, hostname, dotenv, i);
    VolumeValuesAre(e, entry, hostname, dotenv);
    forall k | k in Refs(t) && k in VolumeEnv(e.block)
      ensures VolumeValues(e, dotenv)[k] == ContainerEnv(e, dotenv)[k]
    {
      if k in e.block.placeholders {
        AskedValue(e, entry, hostname, k, dotenv);
      }
    }
    SameSubstitution(t, VolumeValues(e, dotenv), ContainerEnv(e, dotenv));
  }

  lemma {:induction false} LongerSubstitution(t: Template, a: Bindings, b: Bindings, key: string)
    requires a.Keys == b.Keys && forall k :: k in a ==> |a[k]| <= |b[k]|
    ensures |Substituted(t, a)| <= |Substituted(t, b)|
    ensures key in Refs(t) && key in a && |a[key]| < |b[key]| ==> |Substituted(t, a)| < |Substituted(t, b)|
    decreases t
  {
    if t != Done {
      LongerSubstitution(t.rest, a, b, key);
    }
  }

  /** A .env file in which every clashing key is one character longer than its pinned text. */
  function Longer(e: Exported, entry: Entry, hostname: string): Bindings {
    var ds := Declarations(entry.vars, hostname);
    map k | k in e.block.placeholders ::
      (if CarriedBy(ds, |ds|, k).Fixed? then CarriedBy(ds, |ds|, k).value else "") + "x"
  }

  /** A volume that refers to a clashing key can disagree with the environment: the one takes
      the .env file's value, the other keeps the pinned text. */
  lemma {:induction false} PinnedKeyDisagrees(e: Exported, entry: Entry, hostname: string, i: nat, key: string)
    requires ExportedVolume(e, entry, hostname, i)
    requires key in Refs(Parsed(entry.volumes[i])) && Clashes(entry, hostname, key)
    ensures AllFilled(e.block.placeholders, Longer(e, entry, hostname))
    ensures !VolumeAgrees(e, entry, i, Longer(e, entry, hostname))
  {
    var dotenv := Longer(e, entry, hostname);
    VolumeIsSubstituted(e, entry, hostname, dotenv, i);
    VolumeValuesAre(e, entry, hostname, dotenv);
    forall k | k in e.block.placeholders
      ensures k in ContainerEnv(e, dotenv) && |ContainerEnv(e, dotenv)[k]| <= |dotenv[k]|
      ensures k == key ==> |ContainerEnv(e, dotenv)[k]| < |dotenv[k]|
    {
      AskedValue(e, entry, hostname, k, dotenv);
    }
    LongerSubstitution(Parsed(entry.volumes[i]), ContainerEnv(e, dotenv), VolumeValues(e, dotenv), key);
  }

  /** EXACTLY THE VOLUMES THAT AGREE. With every required key set, a volume always says what
      the environment says if and only if it refers to no key that is both asked for and
      pinned. */
  lemma {:induction false} VolumeAgreesExactly(e: Exported, entry: Entry, hostname: string, i: nat)
    requires ExportedVolume(e, entry, hostname, i)
    ensures (forall dotenv :: AllFilled(e.block.placeholders, dotenv) ==> VolumeAgrees(e, entry, i, dotenv))
       <==> (forall k :: k in Refs(Parsed(entry.volumes[i])) ==> !Clashes(entry, hostname, k))
  {
    if key :| key in Refs(Parsed(entry.volumes[i])) && Clashes(entry, hostname, key) {
      PinnedKeyDisagrees(e, entry, hostname, i, key);
    } else {
      forall dotenv | AllFilled(e.block.placeholders, dotenv)
        ensures VolumeAgrees(e, entry, i, dotenv)
      {
        VolumeMeansWhatTheCatalogSays(e, entry, hostname, dotenv, i);
      }
    }
  }

  const CLASHING :=
    Entry([EnvVar("K", "", true, false), EnvVar("K", "a$b", false, false)], ["${K}"], [], "", [])

  lemma ClashingVolume()
    ensures WellFormed("${K}") && Parsed("${K}") == Ref("K", Done)
  {
    var t := Ref("K", Done);
    assert "${K}"[0..] == "${K}" == Token("K") + "" == Render(t);
    RenderParses("${K}", 0, t);
  }

  lemma ClashingDeclarations()
    ensures Declarations(CLASHING.vars, "")
         == [Declaration("K", Placeholder, false), Declaration("K", Fixed("a$b"), false)]
  {
    assert TrimSpace("K") == "K" && TrimSpace("") == "" && TrimSpace("a$b") == "a$b";
    assert "a$b"[1] == '$';
  }

  lemma ClashingIsWellFormed()
    ensures WellFormedEntry(CLASHING, "")
  {
    ClashingVolume();
    ClashingDeclarations();
  }

  lemma ClashingKey()
    ensures Clashes(CLASHING, "", "K")
  {
    ClashingDeclarations();
    var ds := Declarations(CLASHING.vars, "");
    assert PlaceholderKeys(ds, 1) == ["K"];
  }

  /** Such an entry: its only volume refers to a key it asks for and pins. */
  lemma ClashingEntry()
    ensures WellFormedEntry(CLASHING, "") && Clashes(CLASHING, "", "K")
    ensures "K" in Refs(Parsed(CLASHING.volumes[0]))
  {
    ClashingIsWellFormed();
    ClashingKey();
    ClashingVolume();
  }

  // ---------------------------------------------------------------------
  // The whole file: the header is complete, and the file expands.
  // ---------------------------------------------------------------------

  /** Every scalar Compose will expand in one service's block. */
  ghost predicate IsScalar(e: Exported, s: string) {
    || (exists k :: k in e.block.env && s == e.block.env[k])
    || s in e.volumes || s in e.entrypoint || s == e.command || s in e.verbatim
  }

  lemma ScalarExpands(e: Exported, entry: Entry, hostname: string, s: string, dotenv: Bindings)
    requires IsExport(e, entry, hostname) && WellFormedEntry(entry, hostname) && IsScalar(e, s)
    ensures LookedUp(s) <= Named(e.block)
    ensures AllFilled(e.block.placeholders, dotenv) ==> Expand(s, dotenv).Some?
  {
    if s in e.volumes {
      var i :| 0 <= i < |e.volumes| && s == e.volumes[i];
      InterpolatedScalar(e, entry, hostname, entry.volumes[i], VolumeEnv(e.block), dotenv);
    } else if s in e.entrypoint {
      var i :| 0 <= i < |e.entrypoint| && s == e.entrypoint[i];
      EscapedRoundTrip(entry.entrypoint[i], dotenv);
    } else if s == e.command {
      InterpolatedScalar(e, entry, hostname, entry.command, e.block.env, dotenv);
    } else if s in e.verbatim {
      PlainText(s, dotenv);
    } else {
      var k :| k in e.block.env && s == e.block.env[k];
      EnvironmentExpands(e, entry, hostname, k, dotenv);
    }
  }

  lemma {:induction false} InterpolatedScalar(e: Exported, entry: Entry, hostname: string, template: string, env: Bindings, dotenv: Bindings)
    requires IsExport(e, entry, hostname) && WellFormedEntry(entry, hostname) && WellFormed(template)
    requires env == e.block.env || env == VolumeEnv(e.block)
    ensures LookedUp(Interpolated(template, env)) <= Named(e.block)
    ensures AllFilled(e.block.placeholders, dotenv) ==> Expand(Interpolated(template, env), dotenv).Some?
  {
    forall k | k in env
      ensures Closed(env[k]) && LookedUp(env[k]) <= Named(e.block)
      ensures AllFilled(e.block.placeholders, dotenv) ==> Expand(env[k], dotenv).Some?
    {
      if env == e.block.env {
        EnvironmentExpands(e, entry, hostname, k, dotenv);
      } else {
        VolumeEnvExpands(e, entry, hostname, k, dotenv);
        EnvironmentExpands(e, entry, hostname, k, dotenv);
      }
    }
    ExportLooksUpOnlyDeclared(template, env, Named(e.block));
    ExportPreservesMeaning(template, env, dotenv);
    if AllFilled(e.block.placeholders, dotenv) {
      MeaningExists(Parsed(template), env, dotenv);
    }
  }

  lemma {:induction false} MeaningExists(t: Template, env: Bindings, dotenv: Bindings)
    requires forall k :: k in env ==> Expand(env[k], dotenv).Some?
    ensures Meaning(t, env, dotenv).Some?
    decreases t
  {
    if t != Done {
      MeaningExists(t.rest, env, dotenv);
    }
  }

  /** The placeholder lines of the header: every key once, first seen first. */
  method Unique(values: seq<string>) returns (out: seq<string>)
    ensures forall v :: v in out <==> v in values && v != ""
    ensures forall i, j :: 0 <= i < j < |out| ==> out[i] != out[j]
  {
    out := [];
    for i := 0 to |values|
      invariant forall v :: v in out <==> v in values[..i] && v != ""
      invariant forall i, j :: 0 <= i < j < |out| ==> out[i] != out[j]
    {
      if values[i] == "" || values[i] in out {
        continue;
      }
      out := out + [values[i]];
    }
  }

  /** A setting that no other of its key comes before. */
  ghost predicate IsFirst(values: seq<Setting>, s: Setting) {
    s.key != "" && exists i :: 0 <= i < |values| && values[i] == s && forall j :: 0 <= j < i ==> values[j].key != s.key
  }

  /** The changeable lines of the header: the first setting of every key. */
  method UniqueSettings(values: seq<Setting>) returns (out: seq<Setting>)
    ensures forall s :: s in out ==> IsFirst(values, s)
    ensures SettingKeys(out) == SettingKeys(values) - {""}
    ensures forall i, j :: 0 <= i < j < |out| ==> out[i].key != out[j].key
  {
    out := [];
    var seen: set<string> := {};
    for i := 0 to |values|
      invariant seen == SettingKeys(out) == SettingKeys(values[..i]) - {""}
      invariant forall s :: s in out ==> IsFirst(values, s)
      invariant forall i, j :: 0 <= i < j < |out| ==> out[i].key != out[j].key
    {
      var item := values[i];
      assert values[..i + 1] == values[..i] + [item];
      if item.key == "" || item.key in seen {
        continue;
      }
      assert forall j :: 0 <= j < i && values[j].key == item.key ==> values[j] in values[..i];
      seen := seen + {item.key};
      out := out + [item];
    }
    assert values[..|values|] == values;
  }

  // ---------------------------------------------------------------------
  // Generating the file.
  // ---------------------------------------------------------------------

  /** A catalog entry, with the reasons the exporter may refuse it for. */
  datatype CatalogEntry = CatalogEntry(entry: Entry, retired: bool, custom: bool, runnable: bool)

  type Catalog = map<string, CatalogEntry>

  datatype File = File(services: map<string, Exported>, placeholders: seq<string>, settings: seq<Setting>)

  datatype Outcome = Generated(file: File) | NothingChosen | Unknown(slug: string) | Refused(slug: string)

  const PREFIX := "cashpilot-"

  function ServiceName(slug: string): (name: string)
    ensures |name| == 10 + |slug| && name[..10] == "cashpilot-" && name[10..] == slug
  {
    PREFIX + slug
  }

  /** The slugs among the first `n` the user chose, trimmed; blanks do not count. */
  function ChosenBy(slugs: seq<string>, n: nat): set<string>
    requires n <= |slugs|
  {
    if n == 0 then {}
    else
      var before, slug := ChosenBy(slugs, n - 1), TrimSpace(slugs[n - 1]);
      if slug == "" || slug in before then before else before + {slug}
  }

  function Chosen(slugs: seq<string>): set<string> {
    ChosenBy(slugs, |slugs|)
  }

  lemma ChosenStep(slugs: seq<string>, i: nat)
    requires i < |slugs|
    ensures var slug := TrimSpace(slugs[i]);
      ChosenBy(slugs, i + 1)
      == if slug == "" || slug in ChosenBy(slugs, i) then ChosenBy(slugs, i) else ChosenBy(slugs, i) + {slug}
  {
  }

  lemma {:induction false} ChosenMember(slugs: seq<string>, n: nat, slug: string)
    requires n <= |slugs|
    ensures slug in ChosenBy(slugs, n) <==> slug != "" && exists i :: 0 <= i < n && TrimSpace(slugs[i]) == slug
  {
    if n > 0 {
      ChosenMember(slugs, n - 1, slug);
    }
  }

  predicate Exportable(catalog: Catalog, slug: string) {
    slug in catalog && !catalog[slug].retired && !catalog[slug].custom && catalog[slug].runnable
  }

  ghost predicate IsFile(file: File, catalog: Catalog, chosen: set<string>, hostname: string) {
    && (forall slug :: slug in chosen ==> Exportable(catalog, slug))
    && (forall name :: name in file.services ==> exists slug :: slug in chosen && name == ServiceName(slug))
    && (forall slug :: slug in chosen ==> HasService(file, catalog, slug, hostname))
  }

  ghost predicate HasService(file: File, catalog: Catalog, slug: string, hostname: string) {
    && slug in catalog && ServiceName(slug) in file.services
    && IsExport(file.services[ServiceName(slug)], catalog[slug].entry, hostname)
    && Gathered(file, file.services[ServiceName(slug)])
  }

  /** Everything a block asks for or offers reaches the header's lists. */
  ghost predicate Gathered(file: File, e: Exported) {
    && (forall k :: k in e.block.placeholders ==> k in file.placeholders)
    && (forall s :: s in e.block.settings ==> s in file.settings)
  }

  /** The export either writes every chosen service or refuses: it never degrades. */
  method Generate(catalog: Catalog, slugs: seq<string>, hostname: string) returns (r: Outcome)
    ensures r.Generated? <==> Chosen(slugs) != {} && forall slug :: slug in Chosen(slugs) ==> Exportable(catalog, slug)
    ensures r.Generated? ==> IsFile(r.file, catalog, Chosen(slugs), hostname)
    ensures r.NothingChosen? <==> Chosen(slugs) == {}
    ensures r.Unknown? ==> r.slug in Chosen(slugs) && r.slug !in catalog
    ensures r.Refused? ==> r.slug in Chosen(slugs) && r.slug in catalog && !Exportable(catalog, r.slug)
  {
    var file := File(map[], [], []);
    var seen: set<string> := {};
    for i := 0 to |slugs|
      invariant seen == ChosenBy(slugs, i)
      invariant IsFile(file, catalog, seen, hostname)
      invariant file.services == map[] <==> seen == {}
    {
      var slug := TrimSpace(slugs[i]);
      ChosenStep(slugs, i);
      if slug == "" || slug in seen {
        continue;
      }
      if slug !in catalog {
        ChosenMember(slugs, |slugs|, slug);
        return Unknown(slug);
      }
      var item := catalog[slug];
      if item.retired || item.custom || !item.runnable {
        ChosenMember(slugs, |slugs|, slug);
        return Refused(slug);
      }
      file := AddService(file, catalog, seen, hostname, slug);
      seen := seen + {slug};
    }
    if file.services == map[] {
      return NothingChosen;
    }
    return Generated(file);
  }

  method AddService(file: File, catalog: Catalog, ghost seen: set<string>, hostname: string, slug: string)
    returns (next: File)
    requires Exportable(catalog, slug) && IsFile(file, catalog, seen, hostname) && slug !in seen
    ensures IsFile(next, catalog, seen + {slug}, hostname)
    ensures next.services != map[]
  {
    var e := ServiceBlock(catalog[slug].entry, hostname);
    next := File(file.services[ServiceName(slug) := e], file.placeholders + e.block.placeholders,
                 file.settings + e.block.settings);
    assert ServiceName(slug) in next.services;
    forall other | other in seen + {slug}
      ensures HasService(next, catalog, other, hostname)
    {
      if other != slug {
        assert HasService(file, catalog, other, hostname);
      }
    }
  }

  /** The header lists what the file leaves to the user: each key on one line. */
  ghost predicate IsHeader(file: File, keys: seq<string>, changeable: seq<Setting>) {
    && (forall k :: k in keys <==> k in file.placeholders && k != "")
    && (forall i, j :: 0 <= i < j < |keys| ==> keys[i] != keys[j])
    && SettingKeys(changeable) == SettingKeys(file.settings) - {""}
    && (forall s :: s in changeable ==> IsFirst(file.settings, s))
    && (forall i, j :: 0 <= i < j < |changeable| ==> changeable[i].key != changeable[j].key)
  }

  method Header(file: File) returns (keys: seq<string>, changeable: seq<Setting>)
    ensures IsHeader(file, keys, changeable)
  {
    keys := Unique(file.placeholders);
    changeable := UniqueSettings(file.settings);
  }

  lemma {:induction false} SettingsAreDeclared(ds: seq<Declaration>, n: nat, s: Setting)
    requires n <= |ds| && s in CarriedSettings(ds, n)
    ensures exists d :: d in ds && d.key == s.key && d.carried.Default?
  {
    if s in CarriedSettings(ds, n - 1) {
      SettingsAreDeclared(ds, n - 1, s);
    } else {
      assert ds[n - 1] in ds;
    }
  }

  lemma NamedAreNames(e: Exported, entry: Entry, hostname: string, key: string)
    requires IsExport(e, entry, hostname) && WellFormedEntry(entry, hostname) && key in Named(e.block)
    ensures IsName(key)
  {
    var ds := Declarations(entry.vars, hostname);
    if key in e.block.placeholders {
      PlaceholdersAreDeclared(ds, |ds|, key);
    } else {
      var s :| s in e.block.settings && s.key == key;
      SettingsAreDeclared(ds, |ds|, s);
    }
  }

  /** THE HEADER IS COMPLETE. Every variable Compose looks up anywhere in an exported
      file is on a header line; and once every line that has no value yet is filled
      in, Compose expands the whole file without a refusal. */
  lemma {:induction false} HeaderIsComplete(file: File, catalog: Catalog, chosen: set<string>, hostname: string,
                         keys: seq<string>, changeable: seq<Setting>, slug: string, s: string, dotenv: Bindings)
    requires IsFile(file, catalog, chosen, hostname) && IsHeader(file, keys, changeable)
    requires slug in chosen && WellFormedEntry(catalog[slug].entry, hostname)
    requires IsScalar(file.services[ServiceName(slug)], s)
    ensures forall name :: name in LookedUp(s) ==> name in keys || name in SettingKeys(changeable)
    ensures AllFilled(keys, dotenv) ==> Expand(s, dotenv).Some?
  {
    var e, entry := file.services[ServiceName(slug)], catalog[slug].entry;
    assert Gathered(file, e);
    ScalarExpands(e, entry, hostname, s, dotenv);
    forall name | name in Named(e.block)
      ensures name != ""
      ensures name in keys || name in SettingKeys(changeable)
      ensures name in e.block.placeholders ==> name in keys
    {
      NamedAreNames(e, entry, hostname, name);
    }
  }

  // ---------------------------------------------------------------------
  // No credential is written.
  // ---------------------------------------------------------------------

  /** Two entries that differ only in what the catalog gives its secrets. */
  predicate SameButSecrets(a: Entry, b: Entry) {
    && |a.vars| == |b.vars|
    && (forall i :: 0 <= i < |a.vars| ==>
          && a.vars[i].secret == b.vars[i].secret
          && (if a.vars[i].secret then a.vars[i].(default := "") == b.vars[i].(default := "")
              else a.vars[i] == b.vars[i]))
    && a.volumes == b.volumes && a.entrypoint == b.entrypoint && a.command == b.command
    && a.verbatim == b.verbatim
  }

  /** The exported block carries nothing of a secret's default: entries that differ
      only there export to the very same block. */
  lemma SecretsAreNeverWritten(a: Entry, b: Entry, hostname: string, ea: Exported, eb: Exported)
    requires SameButSecrets(a, b) && IsExport(ea, a, hostname) && IsExport(eb, b, hostname)
    ensures ea == eb
  {
    var ds := Declarations(a.vars, hostname);
    assert ds == Declarations(b.vars, hostname) by {
      forall i | 0 <= i < |a.vars|
        ensures Declared(a.vars[i], hostname) == Declared(b.vars[i], hostname)
      {
        SecretDefaultIgnored(a.vars[i], b.vars[i], hostname);
      }
    }
    BlockIsDetermined(ea.block, eb.block, ds);
  }

  lemma BlockIsDetermined(a: Block, b: Block, ds: seq<Declaration>)
    requires IsBlock(a, ds) && IsBlock(b, ds)
    ensures a == b
  {
    forall key
      ensures key in a.env <==> key in b.env
      ensures key in a.env ==> a.env[key] == b.env[key]
    {
      assert CarriesKey(a.env, ds, |ds|, key);
      assert CarriesKey(b.env, ds, |ds|, key);
    }
    assert a.env == b.env;
  }

  lemma SecretDefaultIgnored(x: EnvVar, y: EnvVar, hostname: string)
    requires x.secret == y.secret && x.key == y.key && x.required == y.required
    requires x.secret || x.default == y.default
    ensures Declared(x, hostname) == Declared(y, hostname)
  {
  }
}
