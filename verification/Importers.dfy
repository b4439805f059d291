/** Reading another tool's settings files (internal/importers/read.go): splitting a text
    into lines, and reading one value as the shell or Docker Compose would. */
module Importers {
  import opened Common

  // ---------------------------------------------------------------------
  // The shell's reading, after sections 2.2 (quoting) and 2.3 (token recognition) of
  // POSIX.1-2017 XCU: the words of one line, when nothing in it is expanded and no
  // operator ends it.
  // ---------------------------------------------------------------------

  predicate Blank(c: char) {
    c == ' ' || c == '\t'
  }

  /** What an unquoted character other than a quote or a backslash may set off: an
      expansion, a pathname pattern, or an operator. */
  predicate Active(c: char) {
    || c == '$' || c == '`'
    || c == '|' || c == '&' || c == ';' || c == '<' || c == '>' || c == '(' || c == ')' || c == '\n'
    || c == '*' || c == '?' || c == '[' || c == '~'
  }

  datatype Part = Part(text: string, next: nat)

  function Before(text: string, part: Option<Part>): Option<Part> {
    if part.None? then None else Some(Part(text + part.value.text, part.value.next))
  }

  /** What keeps a meaning between double quotes. */
  predicate Quotable(c: char) {
    c == '$' || c == '`' || c == '"' || c == '\\'
  }

  /** The rest of a double-quoted part, and the position after its closing quote. */
  function InDouble(s: string, i: nat): (part: Option<Part>)
    requires i <= |s|
    ensures part.Some? ==> i < part.value.next <= |s|
    decreases |s| - i
  {
    if i == |s| then None
    else if s[i] == '"' then Some(Part("", i + 1))
    else if s[i] == '$' || s[i] == '`' then None
    else if s[i] == '\\' && i + 1 < |s| && Quotable(s[i + 1]) then
      Before([s[i + 1]], InDouble(s, i + 2))
    else Before([s[i]], InDouble(s, i + 1))
  }

  /** The rest of a word, quotes removed, and the position of the blank or end after it. */
  function Word(s: string, i: nat): (part: Option<Part>)
    requires i <= |s|
    ensures part.Some? ==> i <= part.value.next <= |s|
    ensures part.Some? && i < |s| && !Blank(s[i]) ==> i < part.value.next
    decreases |s| - i
  {
    if i == |s| || Blank(s[i]) then Some(Part("", i))
    else if s[i] == '\'' then
      var end := IndexFrom(s, '\'', i + 1);
      if end == |s| then None else Before(s[i + 1..end], Word(s, end + 1))
    else if s[i] == '"' then
      var quoted := InDouble(s, i + 1);
      if quoted.None? then None else Before(quoted.value.text, Word(s, quoted.value.next))
    else if s[i] == '\\' then
      if i + 1 == |s| then None else Before([s[i + 1]], Word(s, i + 2))
    else if Active(s[i]) then None
    else Before([s[i]], Word(s, i + 1))
  }

  /** The words from `i` on; a word that would begin with `#` is a comment to the end of the
      line, and a second line would be a second command. */
  function Words(s: string, i: nat): Option<seq<string>>
    requires i <= |s|
    decreases |s| - i
  {
    if i == |s| then Some([])
    else if Blank(s[i]) then Words(s, i + 1)
    else if s[i] == '#' then (if IndexFrom(s, '\n', i) == |s| then Some([]) else None)
    else
      var word := Word(s, i);
      if word.None? then None
      else
        var rest := Words(s, word.value.next);
        if rest.None? then None else Some([word.value.text] + rest.value)
  }

  // ---------------------------------------------------------------------
  // The importer's reading.
  // ---------------------------------------------------------------------

  datatype Value = Text(text: string) | Retype

  /** What Compose would expand in a bare value. */
  predicate ComposeSpecial(c: char) {
    c == '$' || c == '`'
  }

  /** What a shell would do something with in a bare word. */
  predicate ShellSpecial(c: char) {
    || c == '$' || c == '`' || c == '\\' || c == '"' || c == '\'' || c == '*' || c == '?' || c == '[' || c == ']'
    || c == '{' || c == '}' || c == '(' || c == ')' || c == '<' || c == '>' || c == '|' || c == '&' || c == ';'
    || c == '~' || c == '!' || c == '#' || c == ' ' || c == '\t'
  }

  predicate HasSpecial(s: string, shell: bool) {
    exists k :: 0 <= k < |s| && (if shell then ShellSpecial(s[k]) else ComposeSpecial(s[k]))
  }

  /** What means different things to a shell and to Compose between double quotes. */
  predicate HasEscape(s: string) {
    exists k :: 0 <= k < |s| && (s[k] == '$' || s[k] == '`' || s[k] == '\\')
  }

  /** Where the inline comment begins, counting the blank before its `#`. */
  function CommentAt(s: string, i: nat): (r: nat)
    requires i <= |s|
    ensures r <= |s|
    decreases |s| - i
  {
    if i == |s| then |s|
    else if s[i] == '#' && i > 0 && IsSpace(s[i - 1]) then i - 1
    else CommentAt(s, i + 1)
  }

  function Uncommented(s: string): string {
    s[..CommentAt(s, 0)]
  }

  /** The closing double quote, stepping over escaped characters. */
  function QuoteEnd(s: string, i: nat): (r: nat)
    ensures r < |s| ==> s[r] == '"' && i <= r
    decreases |s| - i
  {
    if i >= |s| then |s|
    else if s[i] == '\\' then QuoteEnd(s, i + 2)
    else if s[i] == '"' then i
    else QuoteEnd(s, i + 1)
  }

  predicate NothingAfter(s: string, end: nat)
    requires end < |s|
  {
    TrimSpace(Uncommented(s[end + 1..])) == ""
  }

  function Reading(raw: string, shell: bool): Value {
    var s := TrimSpace(raw);
    if s == "" then Text("")
    else if s[0] == '\'' then SingleQuoted(s)
    else if s[0] == '"' then DoubleQuoted(s)
    else
      var value := TrimSpace(Uncommented(s));
      if HasSpecial(value, shell) then Retype else Text(value)
  }

  function SingleQuoted(s: string): Value
    requires s != ""
  {
    var end := IndexFrom(s, '\'', 1);
    if end == |s| || !NothingAfter(s, end) then Retype else Text(s[1..end])
  }

  function DoubleQuoted(s: string): Value
    requires s != ""
  {
    var end := QuoteEnd(s, 1);
    if end >= |s| || !NothingAfter(s, end) || HasEscape(s[1..end]) then Retype else Text(s[1..end])
  }

  /** The source's loop over the characters, remembering the one before. */
  method StripInlineComment(raw: string) returns (r: string)
    ensures r == Uncommented(raw)
  {
    var prev, prevSpace := 0, false;
    for i := 0 to |raw|
      invariant i > 0 ==> prev == i - 1 && prevSpace == IsSpace(raw[prev])
      invariant i == 0 ==> !prevSpace
      invariant CommentAt(raw, 0) == CommentAt(raw, i)
    {
      if raw[i] == '#' && prevSpace {
        return raw[..prev];
      }
      prev, prevSpace := i, IsSpace(raw[i]);
    }
    return raw;
  }

  method ReadEnvValue(text: string, shell: bool) returns (v: Value)
    ensures v == Reading(text, shell)
  {
    var raw := TrimSpace(text);
    if raw == "" {
      return Text("");
    }
    if raw[0] == '\'' {
      var end := IndexFrom(raw, '\'', 1);
      if end == |raw| {
        return Retype;
      }
      var after := StripInlineComment(raw[end + 1..]);
      if TrimSpace(after) != "" {
        return Retype;
      }
      return Text(raw[1..end]);
    }
    if raw[0] == '"' {
      var end := 1;
      while end < |raw|
        invariant QuoteEnd(raw, 1) == QuoteEnd(raw, end)
        invariant end >= 1
        decreases |raw| - end
      {
        if raw[end] == '\\' {
          end := end + 2;
          continue;
        }
        if raw[end] == '"' {
          break;
        }
        end := end + 1;
      }
      if end >= |raw| {
        return Retype;
      }
      var after := StripInlineComment(raw[end + 1..]);
      if TrimSpace(after) != "" {
        return Retype;
      }
      var inner := raw[1..end];
      if HasEscape(inner) {
        return Retype;
      }
      return Text(inner);
    }
    var value := StripInlineComment(raw);
    value := TrimSpace(value);
    if HasSpecial(value, shell) {
      return Retype;
    }
    return Text(value);
  }

  // ---------------------------------------------------------------------
  // Trimming, by position.
  // ---------------------------------------------------------------------

  ghost predicate Spaces(s: string, from: nat, to: nat) {
    forall k :: from <= k < to && k < |s| ==> IsSpace(s[k])
  }

  lemma {:induction false} TrimLeftParts(s: string) returns (a: nat)
    ensures a <= |s| && TrimLeft(s) == s[a..] && Spaces(s, 0, a)
    ensures a < |s| ==> !IsSpace(s[a])
  {
    if s != "" && IsSpace(s[0]) {
      var rest := TrimLeftParts(s[1..]);
      a := rest + 1;
      assert s[1..][rest..] == s[a..];
      forall k | 0 <= k < a
        ensures IsSpace(s[k])
      {
        assert k > 0 ==> s[k] == s[1..][k - 1];
      }
    } else {
      a := 0;
    }
  }

  lemma {:induction false} TrimRightParts(s: string) returns (b: nat)
    ensures b <= |s| && TrimRight(s) == s[..b] && Spaces(s, b, |s|)
    ensures b > 0 ==> !IsSpace(s[b - 1])
  {
    if s != "" && IsSpace(s[|s| - 1]) {
      b := TrimRightParts(s[..|s| - 1]);
      assert s[..|s| - 1][..b] == s[..b];
    } else {
      b := |s|;
    }
  }

  lemma TrimParts(s: string) returns (a: nat, b: nat)
    ensures a <= b <= |s| && TrimSpace(s) == s[a..b]
    ensures Spaces(s, 0, a) && Spaces(s, b, |s|)
    ensures a < b ==> !IsSpace(s[a]) && !IsSpace(s[b - 1])
  {
    a := TrimLeftParts(s);
    var n := TrimRightParts(s[a..]);
    b := a + n;
    assert s[a..][..n] == s[a..b];
    forall k | b <= k < |s|
      ensures IsSpace(s[k])
    {
      assert s[k] == s[a..][k - a];
    }
    if a < b {
      assert s[b - 1] == s[a..][n - 1];
    }
  }

  // ---------------------------------------------------------------------
  // What follows a value: blanks, and perhaps a comment.
  // ---------------------------------------------------------------------

  predicate OnlyComment(s: string, i: nat)
    requires i <= |s|
    decreases |s| - i
  {
    i == |s| || (IsSpace(s[i]) && ((i + 1 < |s| && s[i + 1] == '#') || OnlyComment(s, i + 1)))
  }

  lemma {:induction false} CommentFollowsSpace(s: string, i: nat)
    requires i <= |s|
    ensures var r := CommentAt(s, i); r < |s| ==> r + 1 < |s| && s[r + 1] == '#' && IsSpace(s[r])
    decreases |s| - i
  {
    if i < |s| && !(s[i] == '#' && i > 0 && IsSpace(s[i - 1])) {
      CommentFollowsSpace(s, i + 1);
    }
  }

  /** Blanks up to where the comment begins, and a text that the whole string ends with. */
  lemma {:induction false} SpacesThenComment(s: string, i: nat, cut: nat)
    requires i <= cut <= |s| && Spaces(s, i, cut)
    requires cut < |s| ==> cut + 1 < |s| && s[cut + 1] == '#' && IsSpace(s[cut])
    ensures OnlyComment(s, i)
    decreases cut - i
  {
    if i < cut {
      SpacesThenComment(s, i + 1, cut);
    }
  }

  /** The end of the line `s[from..b]`, the rest of `s` being spaces. */
  lemma TailIsComment(s: string, from: nat, b: nat, cut: nat)
    requires from <= b <= |s| && Spaces(s, b, |s|)
    requires cut <= b - from && Spaces(s, from, from + cut)
    requires var t := s[from..b]; cut == CommentAt(t, 0)
    ensures OnlyComment(s, from)
  {
    var t := s[from..b];
    CommentFollowsSpace(t, 0);
    if cut < |t| {
      assert t[cut] == s[from + cut] && t[cut + 1] == s[from + cut + 1];
      SpacesThenComment(s, from, from + cut);
    } else {
      SpacesThenComment(s, from, |s|);
    }
  }

  lemma NothingAfterIsComment(s: string, from: nat, b: nat)
    requires from <= b <= |s| && Spaces(s, b, |s|)
    requires TrimSpace(Uncommented(s[from..b])) == ""
    ensures OnlyComment(s, from)
  {
    var t := s[from..b];
    var u := Uncommented(t);
    var x, y := TrimParts(u);
    assert |u[x..y]| == y - x;
    assert u == t[..|u|];
    forall k | from <= k < from + |u|
      ensures IsSpace(s[k])
    {
      assert s[k] == t[k - from];
      assert IsSpace(u[k - from]);
    }
    TailIsComment(s, from, b, |u|);
  }

  /** The end of the spaces that start at `i`. */
  function SpaceEnd(s: string, i: nat): (r: nat)
    requires i <= |s|
    ensures i <= r <= |s|
    decreases |s| - i
  {
    if i == |s| || !IsSpace(s[i]) then i else SpaceEnd(s, i + 1)
  }

  lemma {:induction false} SpaceEndIs(s: string, i: nat, a: nat)
    requires i <= a <= |s| && Spaces(s, i, a) && (a < |s| ==> !IsSpace(s[a]))
    ensures SpaceEnd(s, i) == a
    decreases a - i
  {
    if i < a {
      SpaceEndIs(s, i + 1, a);
    }
  }

  /** Only spaces and tabs, the blanks a shell splits words at. */
  predicate AllBlank(s: string, start: nat, end: nat)
    requires start <= end <= |s|
    decreases end - start
  {
    start == end || (Blank(s[start]) && AllBlank(s, start + 1, end))
  }

  /** What follows a value is nothing to the shell exactly when the spaces are blanks and the
      comment does not end before the text does. */
  lemma {:induction false} NothingFollows(s: string, i: nat)
    requires i <= |s| && OnlyComment(s, i)
    ensures Words(s, i) == Some([])
       <==> AllBlank(s, i, SpaceEnd(s, i)) && IndexFrom(s, '\n', SpaceEnd(s, i)) == |s|
    decreases |s| - i
  {
    if i < |s| && Blank(s[i]) {
      if i + 1 < |s| && s[i + 1] == '#' {
        assert SpaceEnd(s, i) == i + 1;
      } else {
        NothingFollows(s, i + 1);
      }
    } else if i < |s| {
      assert !AllBlank(s, i, SpaceEnd(s, i));
    }
  }

  // ---------------------------------------------------------------------
  // One word.
  // ---------------------------------------------------------------------

  predicate Plain(c: char) {
    !Blank(c) && !Active(c) && c != '\'' && c != '"' && c != '\\'
  }

  lemma BeforeTwice(c: char, text: string, part: Option<Part>)
    ensures Before([c], Before(text, part)) == Before([c] + text, part)
  {
    if part.Some? {
      assert [c] + (text + part.value.text) == ([c] + text) + part.value.text;
    }
  }

  lemma BeforeNothing(part: Option<Part>)
    ensures Before("", part) == part
  {
    if part.Some? {
      assert "" + part.value.text == part.value.text;
    }
  }

  lemma FirstOf(s: string, i: nat, j: nat)
    requires i < j <= |s|
    ensures s[i..j] == [s[i]] + s[i + 1..j]
  {
  }

  /** A run of plain characters stands at the front of the word. */
  lemma {:induction false} PlainRun(s: string, i: nat, j: nat)
    requires i <= j <= |s| && forall k :: i <= k < j ==> Plain(s[k])
    ensures Word(s, i) == Before(s[i..j], Word(s, j))
    decreases j - i
  {
    if i == j {
      assert s[i..j] == "";
      BeforeNothing(Word(s, j));
    } else {
      PlainRun(s, i + 1, j);
      BeforeTwice(s[i], s[i + 1..j], Word(s, j));
      FirstOf(s, i, j);
    }
  }

  /** A newline in a word that is otherwise plain ends the command. */
  lemma {:induction false} NewlineEndsCommand(s: string, i: nat, j: nat)
    requires i <= j < |s| && s[j] == '\n' && forall k :: i <= k < j ==> Plain(s[k])
    ensures Word(s, i).None?
    decreases j - i
  {
    if i < j {
      NewlineEndsCommand(s, i + 1, j);
    }
  }

  lemma {:induction false} PlainInDouble(s: string, i: nat, j: nat)
    requires i <= j < |s| && s[j] == '"'
    requires forall k :: i <= k < j ==> !Quotable(s[k])
    ensures InDouble(s, i) == Some(Part(s[i..j], j + 1))
    decreases j - i
  {
    if i == j {
      assert s[i..j] == "";
    } else {
      PlainInDouble(s, i + 1, j);
      FirstOf(s, i, j);
      var part := Part(s[i + 1..j], j + 1);
      assert InDouble(s, i) == Before([s[i]], Some(part)) == Some(Part([s[i]] + part.text, j + 1));
    }
  }

  lemma SliceOfSlice(s: string, a: nat, b: nat, i: nat, j: nat)
    requires a <= b <= |s| && i <= j <= b - a
    ensures s[a..b][i..j] == s[a + i..a + j]
  {
    var t := s[a..b];
    forall k | 0 <= k < j - i
      ensures t[i..j][k] == s[a + i..a + j][k]
    {
      assert t[i..j][k] == t[i + k] == s[a + i + k];
    }
  }

  /** The first quote to close, by position in the untrimmed string. */
  lemma SingleClose(s: string, a: nat, b: nat, end: nat)
    requires a < b <= |s| && 1 <= end < b - a && end == IndexFrom(s[a..b], '\'', 1)
    ensures s[a + end] == '\'' && forall k :: a < k < a + end ==> s[k] != '\''
    ensures s[a..b][1..end] == s[a + 1..a + end]
  {
    var t := s[a..b];
    forall k | a < k < a + end
      ensures s[k] != '\''
    {
      assert s[k] == t[k - a];
    }
    SliceOfSlice(s, a, b, 1, end);
  }

  lemma DoubleClose(s: string, a: nat, b: nat, end: nat)
    requires a < b <= |s| && 1 <= end < b - a && end == QuoteEnd(s[a..b], 1)
    requires !HasEscape(s[a..b][1..end])
    ensures s[a + end] == '"' && forall k :: a < k < a + end ==> !Quotable(s[k])
    ensures s[a..b][1..end] == s[a + 1..a + end]
  {
    var t := s[a..b];
    var inner := t[1..end];
    forall k | 1 <= k < end
      ensures t[k] != '$' && t[k] != '`' && t[k] != '\\'
    {
      assert inner[k - 1] == t[k];
    }
    QuoteEndIsFirst(t, 1);
    forall k | a < k < a + end
      ensures !Quotable(s[k])
    {
      assert s[k] == t[k - a];
    }
    SliceOfSlice(s, a, b, 1, end);
  }

  lemma {:induction false} QuoteEndIsFirst(s: string, i: nat)
    requires i <= |s|
    requires QuoteEnd(s, i) < |s| && forall k :: i <= k < QuoteEnd(s, i) ==> s[k] != '\\'
    ensures forall k :: i <= k < QuoteEnd(s, i) ==> s[k] != '"'
    decreases |s| - i
  {
    if i < |s| && s[i] != '"' {
      assert s[i] == '\\' ==> QuoteEnd(s, i) > i;
      QuoteEndIsFirst(s, i + 1);
    }
  }

  /** The value is a prefix, and what follows is blanks and perhaps a comment. */
  lemma BareParts(s: string, a: nat, b: nat) returns (y: nat)
    requires a < b <= |s| && Spaces(s, b, |s|) && !IsSpace(s[a])
    ensures 0 < y <= b - a && TrimSpace(Uncommented(s[a..b])) == s[a..a + y]
    ensures OnlyComment(s, a + y)
  {
    var t := s[a..b];
    var cut := CommentAt(t, 0);
    CommentFollowsSpace(t, 0);
    var u := t[..cut];
    assert t[0] == s[a];
    var x, end := TrimParts(u);
    assert u[0] == t[0];
    assert x == 0 && end > 0;
    y := end;
    assert u == s[a..a + cut];
    SliceOfSlice(s, a, a + cut, 0, y);
    forall k | a + y <= k < a + cut
      ensures IsSpace(s[k])
    {
      assert s[k] == u[k - a];
    }
    if cut < |t| {
      assert t[cut] == s[a + cut] && t[cut + 1] == s[a + cut + 1];
      SpacesThenComment(s, a + y, a + cut);
    } else {
      SpacesThenComment(s, a + y, |s|);
    }
  }

  // ---------------------------------------------------------------------
  // The importer and the shell.
  // ---------------------------------------------------------------------

  /** The shell's word for an accepted value begins with it, whatever stands behind `v`. */
  ghost predicate Heads(s: string, a: nat, v: nat, text: string) {
    && a < v <= |s| && !IsSpace(s[a]) && s[a] != '#'
    && OnlyComment(s, v)
    && Word(s, a) == Before(text, Word(s, v))
  }

  lemma CommentAfterQuote(s: string, a: nat, b: nat, end: nat)
    requires a < b <= |s| && Spaces(s, b, |s|) && end < b - a
    ensures NothingAfter(s[a..b], end) ==> OnlyComment(s, a + end + 1)
  {
    if NothingAfter(s[a..b], end) {
      SliceOfSlice(s, a, b, end + 1, b - a);
      NothingAfterIsComment(s, a + end + 1, b);
    }
  }

  lemma SingleHead(s: string, a: nat, e: nat)
    requires a < e < |s| && s[a] == '\'' && s[e] == '\'' && OnlyComment(s, e + 1)
    requires forall k :: a < k < e ==> s[k] != '\''
    ensures Heads(s, a, e + 1, s[a + 1..e])
  {
    assert IndexFrom(s, '\'', a + 1) == e;
  }

  lemma DoubleHead(s: string, a: nat, e: nat)
    requires a < e < |s| && s[a] == '"' && s[e] == '"' && OnlyComment(s, e + 1)
    requires forall k :: a < k < e ==> !Quotable(s[k])
    ensures Heads(s, a, e + 1, s[a + 1..e])
  {
    PlainInDouble(s, a + 1, e);
  }

  lemma SingleHeads(s: string, a: nat, b: nat, end: nat)
    requires a < b <= |s| && Spaces(s, 0, a) && Spaces(s, b, |s|)
    requires s[a] == '\'' && end == IndexFrom(s[a..b], '\'', 1) && end < b - a && NothingAfter(s[a..b], end)
    ensures OneWordExactly(s, a, a + end + 1, s[a + 1..a + end])
  {
    SingleClose(s, a, b, end);
    CommentAfterQuote(s, a, b, end);
    SingleHead(s, a, a + end);
    HeadsAgree(s, a, a + end + 1, s[a + 1..a + end]);
  }

  lemma DoubleHeads(s: string, a: nat, b: nat, end: nat)
    requires a < b <= |s| && Spaces(s, 0, a) && Spaces(s, b, |s|)
    requires s[a] == '"' && end == QuoteEnd(s[a..b], 1) && 1 <= end < b - a && NothingAfter(s[a..b], end)
    requires !HasEscape(s[a..b][1..end])
    ensures OneWordExactly(s, a, a + end + 1, s[a + 1..a + end])
  {
    DoubleClose(s, a, b, end);
    CommentAfterQuote(s, a, b, end);
    DoubleHead(s, a, a + end);
    HeadsAgree(s, a, a + end + 1, s[a + 1..a + end]);
  }

  /** A bare value has nothing active in it but, perhaps, a newline. */
  lemma BareIsPlain(s: string, a: nat, v: nat)
    requires a <= v <= |s| && !HasSpecial(s[a..v], true)
    ensures forall k :: a <= k < v ==> Plain(s[k]) || s[k] == '\n'
  {
    forall k | a <= k < v
      ensures Plain(s[k]) || s[k] == '\n'
    {
      assert s[a..v][k - a] == s[k];
    }
  }

  lemma BareHeads(s: string, a: nat, b: nat) returns (v: nat)
    requires a < b <= |s| && Spaces(s, 0, a) && Spaces(s, b, |s|) && !IsSpace(s[a])
    requires !HasSpecial(TrimSpace(Uncommented(s[a..b])), true)
    ensures a < v <= b && OnlyComment(s, v) && s[a] != '#' && s[a..v] == TrimSpace(Uncommented(s[a..b]))
    ensures IndexFrom(s, '\n', a) >= v ==> OneWordExactly(s, a, v, s[a..v])
    ensures IndexFrom(s, '\n', a) < v ==> Word(s, a).None?
  {
    var y := BareParts(s, a, b);
    v := a + y;
    BareIsPlain(s, a, v);
    assert !ShellSpecial(s[a..v][0]);
    var n := IndexFrom(s, '\n', a);
    if n < v {
      NewlineEndsCommand(s, a, n);
    } else {
      PlainRun(s, a, v);
      HeadsAgree(s, a, v, s[a..v]);
    }
  }

  /** Words that begin with spaces, before something that is none: either a word of those
      spaces alone, or one that runs into what follows. */
  lemma {:induction false} SpacesInWord(s: string, i: nat, a: nat)
    requires i <= a < |s| && Spaces(s, i, a)
    ensures var word := Word(s, i);
            word.None? || word.value.next < a
            || (Word(s, a).Some? && |word.value.text| == a - i + |Word(s, a).value.text|)
    decreases a - i
  {
    if i < a && !Blank(s[i]) {
      SpacesInWord(s, i + 1, a);
    }
  }

  lemma {:induction false} SomeWord(s: string, i: nat, a: nat)
    requires i <= a < |s| && Spaces(s, i, a) && !Blank(s[a]) && s[a] != '#'
    ensures Words(s, i) != Some([])
    decreases a - i
  {
    if i < a && Blank(s[i]) {
      SomeWord(s, i + 1, a);
    }
  }

  /** A single word, and nothing behind it. */
  lemma OnlyWord(s: string, i: nat, text: string)
    requires i < |s| && !Blank(s[i]) && s[i] != '#'
    ensures Words(s, i) == Some([text])
       <==> Word(s, i).Some? && Word(s, i).value.text == text && Words(s, Word(s, i).value.next) == Some([])
  {
    var word := Word(s, i);
    if word.Some? {
      var rest := Words(s, word.value.next);
      if rest.Some? {
        var all := [word.value.text] + rest.value;
        assert all[0] == word.value.text && all[1..] == rest.value;
        assert all == [text] ==> |rest.value| == 0;
      }
    }
  }

  /** Spaces before a value are nothing to the shell exactly when they are blanks. */
  lemma {:induction false} SpacesBefore(s: string, i: nat, a: nat, v: nat, text: string)
    requires i <= a && Spaces(s, i, a) && Heads(s, a, v, text)
    ensures Words(s, i) == Some([text]) <==> AllBlank(s, i, a) && Words(s, a) == Some([text])
    decreases a - i
  {
    if i < a && Blank(s[i]) {
      SpacesBefore(s, i + 1, a, v, text);
    } else if i < a {
      OnlyWord(s, i, text);
      SpacesInWord(s, i, a);
      var word := Word(s, i);
      if word.Some? && word.value.next < a {
        SomeWord(s, word.value.next, a);
      }
    }
  }

  /** The word itself is the value exactly when nothing behind it belongs to it. */
  lemma ValueIsWord(s: string, a: nat, v: nat, text: string)
    requires Heads(s, a, v, text)
    ensures Words(s, a) == Some([text]) <==> Words(s, v) == Some([])
  {
    OnlyWord(s, a, text);
    var rest := Word(s, v);
    if v < |s| && !Blank(s[v]) {
      assert IsSpace(s[v]) && s[v] != '#';
      if rest.Some? {
        assert |text + rest.value.text| > |text|;
      }
    } else {
      assert rest == Some(Part("", v)) && text + "" == text;
    }
  }

  /** Where the text of an accepted value ends. */
  function TextEnd(raw: string): nat {
    var a := SpaceEnd(raw, 0);
    if a == |raw| || Reading(raw, true).Retype? then a
    else a + |Reading(raw, true).text| + (if raw[a] == '\'' || raw[a] == '"' then 2 else 0)
  }

  /** Around an accepted value only blanks stand, up to a comment, and no newline stands
      outside quotes. */
  predicate BlankAround(raw: string) {
    var a, v := SpaceEnd(raw, 0), TextEnd(raw);
    && v <= |raw|
    && AllBlank(raw, 0, a)
    && AllBlank(raw, v, SpaceEnd(raw, v))
    && IndexFrom(raw, '\n', SpaceEnd(raw, v)) == |raw|
    && (a < |raw| && raw[a] != '\'' && raw[a] != '"' ==> IndexFrom(raw, '\n', a) >= v)
  }

  /** What the shell makes of a line when it means the accepted value: no word for an empty
      one, and otherwise exactly one word, the value, with nothing expanded and no operator. */
  predicate ShellAgrees(raw: string) {
    Reading(raw, true).Text?
    && Words(raw, 0) == Some(if TrimSpace(raw) == "" then [] else [Reading(raw, true).text])
  }

  /** The line is that one word exactly when only blanks stand around it. */
  ghost predicate OneWordExactly(raw: string, a: nat, v: nat, text: string)
    requires a <= v <= |raw|
  {
    Words(raw, 0) == Some([text])
    <==> AllBlank(raw, 0, a) && AllBlank(raw, v, SpaceEnd(raw, v)) && IndexFrom(raw, '\n', SpaceEnd(raw, v)) == |raw|
  }

  lemma HeadsAgree(raw: string, a: nat, v: nat, text: string)
    requires Spaces(raw, 0, a) && Heads(raw, a, v, text)
    ensures OneWordExactly(raw, a, v, text)
  {
    SpacesBefore(raw, 0, a, v, text);
    ValueIsWord(raw, a, v, text);
    NothingFollows(raw, v);
  }

  /** A word that cannot be read leaves no reading of the line at all. */
  lemma {:induction false} NoWordNoWords(s: string, i: nat, a: nat)
    requires i <= a < |s| && Spaces(s, i, a) && !IsSpace(s[a]) && s[a] != '#' && Word(s, a).None?
    ensures Words(s, i).None? || |Words(s, i).value| > 1
    decreases a - i
  {
    if i < a && Blank(s[i]) {
      NoWordNoWords(s, i + 1, a);
    } else if i < a {
      SpacesInWord(s, i, a);
      var word := Word(s, i);
      if word.Some? {
        SomeWord(s, word.value.next, a);
      }
    }
  }

  /** EXACTLY WHEN THE SHELL AGREES. Whatever the importer accepts for a shell-read file is
      what the shell makes of the line if and only if every space outside the accepted text,
      up to the comment, is a space or a tab, and no newline stands outside quotes. */
  lemma {:induction false} ShellSound(raw: string)
    requires Reading(raw, true).Text?
    ensures ShellAgrees(raw) <==> BlankAround(raw)
  {
    var a, b := TrimParts(raw);
    if a == b {
      AllSpaces(raw, 0);
      SpaceEndIs(raw, 0, |raw|);
      NothingFollows(raw, 0);
    } else {
      SpaceEndIs(raw, 0, a);
      if raw[a] == '\'' {
        SingleSound(raw, a, b);
      } else if raw[a] == '"' {
        DoubleSound(raw, a, b);
      } else {
        BareSound(raw, a, b);
      }
    }
  }

  lemma {:induction false} AllSpaces(s: string, i: nat)
    requires i <= |s| && Spaces(s, i, |s|)
    ensures OnlyComment(s, i)
    decreases |s| - i
  {
    if i < |s| {
      AllSpaces(s, i + 1);
    }
  }

  lemma HeadsSound(raw: string, a: nat, v: nat, text: string)
    requires SpaceEnd(raw, 0) == a < v <= |raw| && |TrimSpace(raw)| > 0
    requires Reading(raw, true) == Text(text) && TextEnd(raw) == v
    requires raw[a] != '\'' && raw[a] != '"' ==> IndexFrom(raw, '\n', a) >= v
    ensures OneWordExactly(raw, a, v, text) ==> (ShellAgrees(raw) <==> BlankAround(raw))
  {
  }

  lemma BareNewline(raw: string, a: nat, v: nat)
    requires SpaceEnd(raw, 0) == a < |raw| && Spaces(raw, 0, a) && !IsSpace(raw[a]) && |TrimSpace(raw)| > 0
    requires raw[a] != '\'' && raw[a] != '"' && raw[a] != '#' && Word(raw, a).None?
    requires TextEnd(raw) == v && IndexFrom(raw, '\n', a) < v
    ensures !ShellAgrees(raw) && !BlankAround(raw)
  {
    NoWordNoWords(raw, 0, a);
  }

  lemma SingleReads(raw: string, a: nat, b: nat) returns (end: nat)
    requires a < b <= |raw| && TrimSpace(raw) == raw[a..b] && SpaceEnd(raw, 0) == a && !IsSpace(raw[a])
    requires Spaces(raw, 0, a) && Spaces(raw, b, |raw|) && Reading(raw, true).Text?
    requires raw[a] == '\''
    ensures end == IndexFrom(raw[a..b], '\'', 1) && end < b - a && NothingAfter(raw[a..b], end)
    ensures Reading(raw, true) == Text(raw[a + 1..a + end]) && TextEnd(raw) == a + end + 1
  {
    assert raw[a..b][0] == raw[a];
    end := IndexFrom(raw[a..b], '\'', 1);
    SliceOfSlice(raw, a, b, 1, end);
  }

  lemma SingleParts(raw: string, a: nat, b: nat) returns (v: nat, text: string)
    requires a < b <= |raw| && TrimSpace(raw) == raw[a..b] && SpaceEnd(raw, 0) == a && !IsSpace(raw[a])
    requires Spaces(raw, 0, a) && Spaces(raw, b, |raw|) && Reading(raw, true).Text?
    requires raw[a] == '\''
    ensures a < v <= |raw| && Reading(raw, true) == Text(text) && TextEnd(raw) == v
    ensures OneWordExactly(raw, a, v, text)
  {
    var end := SingleReads(raw, a, b);
    v, text := a + end + 1, raw[a + 1..a + end];
    SingleHeads(raw, a, b, end);
  }

  lemma SingleSound(raw: string, a: nat, b: nat)
    requires a < b <= |raw| && TrimSpace(raw) == raw[a..b] && SpaceEnd(raw, 0) == a && !IsSpace(raw[a])
    requires Spaces(raw, 0, a) && Spaces(raw, b, |raw|) && Reading(raw, true).Text?
    requires raw[a] == '\''
    ensures ShellAgrees(raw) <==> BlankAround(raw)
  {
    var v, text := SingleParts(raw, a, b);
    HeadsSound(raw, a, v, text);
  }

  lemma DoubleReads(raw: string, a: nat, b: nat) returns (end: nat)
    requires a < b <= |raw| && TrimSpace(raw) == raw[a..b] && SpaceEnd(raw, 0) == a && !IsSpace(raw[a])
    requires Spaces(raw, 0, a) && Spaces(raw, b, |raw|) && Reading(raw, true).Text?
    requires raw[a] == '"'
    ensures end == QuoteEnd(raw[a..b], 1) && 1 <= end < b - a && NothingAfter(raw[a..b], end)
    ensures !HasEscape(raw[a..b][1..end])
    ensures Reading(raw, true) == Text(raw[a + 1..a + end]) && TextEnd(raw) == a + end + 1
  {
    assert raw[a..b][0] == raw[a];
    end := QuoteEnd(raw[a..b], 1);
    SliceOfSlice(raw, a, b, 1, end);
  }

  lemma DoubleParts(raw: string, a: nat, b: nat) returns (v: nat, text: string)
    requires a < b <= |raw| && TrimSpace(raw) == raw[a..b] && SpaceEnd(raw, 0) == a && !IsSpace(raw[a])
    requires Spaces(raw, 0, a) && Spaces(raw, b, |raw|) && Reading(raw, true).Text?
    requires raw[a] == '"'
    ensures a < v <= |raw| && Reading(raw, true) == Text(text) && TextEnd(raw) == v
    ensures OneWordExactly(raw, a, v, text)
  {
    var end := DoubleReads(raw, a, b);
    v, text := a + end + 1, raw[a + 1..a + end];
    DoubleHeads(raw, a, b, end);
  }

  lemma DoubleSound(raw: string, a: nat, b: nat)
    requires a < b <= |raw| && TrimSpace(raw) == raw[a..b] && SpaceEnd(raw, 0) == a && !IsSpace(raw[a])
    requires Spaces(raw, 0, a) && Spaces(raw, b, |raw|) && Reading(raw, true).Text?
    requires raw[a] == '"'
    ensures ShellAgrees(raw) <==> BlankAround(raw)
  {
    var v, text := DoubleParts(raw, a, b);
    HeadsSound(raw, a, v, text);
  }

  lemma BareSound(raw: string, a: nat, b: nat)
    requires a < b <= |raw| && TrimSpace(raw) == raw[a..b] && SpaceEnd(raw, 0) == a && !IsSpace(raw[a])
    requires Spaces(raw, 0, a) && Spaces(raw, b, |raw|) && raw[a] != '\'' && raw[a] != '"'
    requires Reading(raw, true).Text?
    ensures ShellAgrees(raw) <==> BlankAround(raw)
  {
    assert raw[a..b][0] == raw[a];
    var v := BareHeads(raw, a, b);
    if IndexFrom(raw, '\n', a) < v {
      BareNewline(raw, a, v);
    } else {
      HeadsSound(raw, a, v, raw[a..v]);
    }
  }

  // ---------------------------------------------------------------------
  // What is accepted, exactly: by where the value stands in the text.
  // ---------------------------------------------------------------------

  /** Where a text that has something between its outer spaces is trimmed to. */
  lemma TrimmedAt(s: string, a: nat, e: nat) returns (b: nat)
    requires a < e <= |s| && Spaces(s, 0, a) && !IsSpace(s[a]) && !IsSpace(s[e - 1])
    ensures e <= b <= |s| && TrimSpace(s) == s[a..b] && Spaces(s, b, |s|) && !IsSpace(s[b - 1])
  {
    var first;
    first, b := TrimParts(s);
    assert first <= a && e <= b;
  }

  lemma BlankText(u: string)
    requires Spaces(u, 0, |u|)
    ensures TrimSpace(u) == ""
  {
    var a, b := TrimParts(u);
  }

  lemma {:induction false} CommentAfterSpaces(u: string, i: nat)
    requires i <= |u| && OnlyComment(u, i)
    ensures i <= CommentAt(u, i) && Spaces(u, i, CommentAt(u, i))
    decreases |u| - i
  {
    if i < |u| && !(i + 1 < |u| && u[i + 1] == '#') {
      CommentAfterSpaces(u, i + 1);
    }
  }

  lemma {:induction false} OnlyCommentCut(s: string, start: nat, i: nat, b: nat)
    requires start <= i <= b <= |s| && Spaces(s, b, |s|) && OnlyComment(s, i)
    ensures OnlyComment(s[start..b], i - start)
    decreases b - i
  {
    if i < b {
      var u := s[start..b];
      assert u[i - start] == s[i];
      if i + 1 < |s| && s[i + 1] == '#' {
        assert i + 1 < b && u[i + 1 - start] == '#';
      } else {
        OnlyCommentCut(s, start, i + 1, b);
      }
    }
  }

  /** Nothing is left of what follows a value exactly when it is spaces and perhaps a comment. */
  lemma TailIsNothing(s: string, start: nat, b: nat)
    requires start <= b <= |s| && Spaces(s, b, |s|)
    ensures TrimSpace(Uncommented(s[start..b])) == "" <==> OnlyComment(s, start)
  {
    if OnlyComment(s, start) {
      var u := s[start..b];
      OnlyCommentCut(s, start, start, b);
      CommentAfterSpaces(u, 0);
      BlankText(Uncommented(u));
    } else if TrimSpace(Uncommented(s[start..b])) == "" {
      NothingAfterIsComment(s, start, b);
    }
  }

  lemma QuotedTail(s: string, a: nat, b: nat, c: nat)
    requires a < c < b <= |s| && Spaces(s, b, |s|)
    ensures NothingAfter(s[a..b], c - a) <==> OnlyComment(s, c + 1)
  {
    SliceOfSlice(s, a, b, c - a + 1, b - a);
    TailIsNothing(s, c + 1, b);
  }

  lemma QuotedReading(s: string, a: nat, b: nat, shell: bool)
    requires a < b <= |s| && TrimSpace(s) == s[a..b]
    ensures s[a] == '\'' ==> Reading(s, shell) == SingleQuoted(s[a..b])
    ensures s[a] == '"' ==> Reading(s, shell) == DoubleQuoted(s[a..b])
  {
    assert s[a..b][0] == s[a];
  }

  lemma SingleEndAt(s: string, a: nat, b: nat, c: nat)
    requires a < c < b <= |s| && s[c] == '\'' && forall k :: a < k < c ==> s[k] != '\''
    ensures IndexFrom(s[a..b], '\'', 1) == c - a
  {
    var t := s[a..b];
    forall k | 1 <= k < c - a
      ensures t[k] != '\''
    {
      assert t[k] == s[a + k];
    }
    assert t[c - a] == s[c];
  }

  lemma SingleQuotedText(s: string, a: nat, b: nat, c: nat)
    requires a < c < b <= |s| && Spaces(s, b, |s|) && IndexFrom(s[a..b], '\'', 1) == c - a
    ensures SingleQuoted(s[a..b]) == if OnlyComment(s, c + 1) then Text(s[a + 1..c]) else Retype
  {
    SliceOfSlice(s, a, b, 1, c - a);
    QuotedTail(s, a, b, c);
  }

  /** SINGLE QUOTES. The text up to the next single quote, whatever it holds, when nothing but
      spaces and a comment follows. */
  lemma SingleQuotedReads(s: string, a: nat, c: nat, shell: bool)
    requires a < c < |s| && Spaces(s, 0, a) && s[a] == '\'' && s[c] == '\'' && forall k :: a < k < c ==> s[k] != '\''
    ensures Reading(s, shell) == if OnlyComment(s, c + 1) then Text(s[a + 1..c]) else Retype
  {
    var b := TrimmedAt(s, a, c + 1);
    SingleEndAt(s, a, b, c);
    QuotedReading(s, a, b, shell);
    SingleQuotedText(s, a, b, c);
  }

  lemma {:induction false} QuoteEndAt(t: string, i: nat, end: nat)
    requires i <= end < |t| && t[end] == '"' && forall k :: i <= k < end ==> t[k] != '"' && t[k] != '\\'
    ensures QuoteEnd(t, i) == end
    decreases end - i
  {
    if i < end {
      QuoteEndAt(t, i + 1, end);
    }
  }

  /** DOUBLE QUOTES. The text up to the next double quote, when it has no backslash, dollar sign
      or backtick and nothing but spaces and a comment follows. */
  lemma DoubleQuotedReads(s: string, a: nat, c: nat, shell: bool)
    requires a < c < |s| && Spaces(s, 0, a) && s[a] == '"' && s[c] == '"'
    requires forall k :: a < k < c ==> s[k] != '"' && s[k] != '\\'
    ensures Reading(s, shell)
         == if OnlyComment(s, c + 1) && '$' !in s[a + 1..c] && '`' !in s[a + 1..c] then Text(s[a + 1..c]) else Retype
  {
    var b := TrimmedAt(s, a, c + 1);
    DoubleEndAt(s, a, b, c);
    QuotedReading(s, a, b, shell);
    DoubleQuotedText(s, a, b, c);
  }

  lemma DoubleEndAt(s: string, a: nat, b: nat, c: nat)
    requires a < c < b <= |s| && s[c] == '"' && forall k :: a < k < c ==> s[k] != '"' && s[k] != '\\'
    ensures QuoteEnd(s[a..b], 1) == c - a
  {
    var t := s[a..b];
    forall k | 1 <= k < c - a
      ensures t[k] != '"' && t[k] != '\\'
    {
      assert t[k] == s[a + k];
    }
    assert t[c - a] == s[c];
    QuoteEndAt(t, 1, c - a);
  }

  lemma DoubleQuotedText(s: string, a: nat, b: nat, c: nat)
    requires a < c < b <= |s| && Spaces(s, b, |s|) && QuoteEnd(s[a..b], 1) == c - a
    requires forall k :: a < k < c ==> s[k] != '\\'
    ensures DoubleQuoted(s[a..b])
         == if OnlyComment(s, c + 1) && '$' !in s[a + 1..c] && '`' !in s[a + 1..c] then Text(s[a + 1..c]) else Retype
  {
    SliceOfSlice(s, a, b, 1, c - a);
    QuotedTail(s, a, b, c);
    InnerEscape(s, a, c);
  }

  lemma InnerEscape(s: string, a: nat, c: nat)
    requires a < c <= |s| && forall k :: a < k < c ==> s[k] != '\\'
    ensures HasEscape(s[a + 1..c]) <==> '$' in s[a + 1..c] || '`' in s[a + 1..c]
  {
    var inner := s[a + 1..c];
    assert forall k :: 0 <= k < |inner| ==> inner[k] == s[a + 1 + k];
  }

  /** A quote that is never closed is refused. */
  lemma UnclosedIsRefused(s: string, a: nat, shell: bool)
    requires a < |s| && Spaces(s, 0, a) && (s[a] == '\'' || s[a] == '"') && forall k :: a < k < |s| ==> s[k] != s[a]
    ensures Reading(s, shell) == Retype
  {
    var b := TrimmedAt(s, a, a + 1);
    var t := s[a..b];
    assert t[0] == s[a];
    forall k | 1 <= k < |t|
      ensures t[k] != s[a]
    {
      assert t[k] == s[a + k];
    }
  }

  /** What is refused in a bare value, for either reader. */
  ghost predicate SomeRefused(v: string, shell: bool) {
    exists c :: c in v && c in (if shell then "$`\\\"'*?[]{}()<>|&;~!# \t" else "$`")
  }

  lemma ShellSpecialIs(c: char)
    ensures ShellSpecial(c) <==> c in "$`\\\"'*?[]{}()<>|&;~!# \t"
  {
    var all := "$`\\\"'*?[]{}()<>|&;~!# \t";
    assert all[0] == '$' && all[1] == '`' && all[2] == '\\' && all[3] == '"' && all[4] == '\'' && all[5] == '*';
    assert all[6] == '?' && all[7] == '[' && all[8] == ']' && all[9] == '{' && all[10] == '}' && all[11] == '(';
    assert all[12] == ')' && all[13] == '<' && all[14] == '>' && all[15] == '|' && all[16] == '&' && all[17] == ';';
    assert all[18] == '~' && all[19] == '!' && all[20] == '#' && all[21] == ' ' && all[22] == '\t' && |all| == 23;
  }

  lemma SpecialIsRefused(v: string, shell: bool)
    ensures HasSpecial(v, shell) <==> SomeRefused(v, shell)
  {
    forall k | 0 <= k < |v|
      ensures ShellSpecial(v[k]) <==> v[k] in "$`\\\"'*?[]{}()<>|&;~!# \t"
      ensures ComposeSpecial(v[k]) <==> v[k] in "$`"
    {
      ShellSpecialIs(v[k]);
      assert "$`"[0] == '$' && "$`"[1] == '`';
    }
    if HasSpecial(v, shell) {
      var k :| 0 <= k < |v| && if shell then ShellSpecial(v[k]) else ComposeSpecial(v[k]);
      assert v[k] in v;
    }
  }

  /** A comment is looked for behind the value as if it stood alone. */
  lemma {:induction false} CommentBehind(t: string, n: nat, i: nat)
    requires i <= n <= |t| && (n < |t| ==> t[n] != '#')
    requires forall k :: i <= k < n ==> !(t[k] == '#' && k > 0 && IsSpace(t[k - 1]))
    ensures CommentAt(t, i) == CommentAt(t, n)
    decreases n - i
  {
    if i < n {
      CommentBehind(t, n, i + 1);
    }
  }

  /** BARE VALUES. The text up to its comment and trailing spaces, refused exactly for the
      characters the file's reader would do something with. */
  lemma BareReads(s: string, a: nat, e: nat, shell: bool)
    requires a < e <= |s| && Spaces(s, 0, a) && !IsSpace(s[a]) && !IsSpace(s[e - 1])
    requires s[a] != '\'' && s[a] != '"' && OnlyComment(s, e)
    requires forall k :: a < k < e ==> !(s[k] == '#' && IsSpace(s[k - 1]))
    ensures Reading(s, shell) == if SomeRefused(s[a..e], shell) then Retype else Text(s[a..e])
  {
    var b := TrimmedAt(s, a, e);
    BareText(s, a, e, b);
    assert s[a..b][0] == s[a];
    SpecialIsRefused(s[a..e], shell);
  }

  lemma BareText(s: string, a: nat, e: nat, b: nat)
    requires a < e <= b <= |s| && Spaces(s, b, |s|) && (e < b ==> !IsSpace(s[b - 1]))
    requires !IsSpace(s[a]) && !IsSpace(s[e - 1]) && OnlyComment(s, e)
    requires forall k :: a < k < e ==> !(s[k] == '#' && IsSpace(s[k - 1]))
    ensures TrimSpace(Uncommented(s[a..b])) == s[a..e]
  {
    var t, n := s[a..b], e - a;
    OnlyCommentCut(s, a, e, b);
    forall k | 0 < k < n
      ensures !(t[k] == '#' && IsSpace(t[k - 1]))
    {
      assert t[k] == s[a + k] && t[k - 1] == s[a + k - 1];
    }
    SliceOfSlice(s, a, b, 0, n);
    assert t[0] == s[a] && t[n - 1] == s[e - 1];
    BareLine(t, n);
  }

  lemma BareLine(t: string, n: nat)
    requires 0 < n <= |t| && !IsSpace(t[0]) && !IsSpace(t[n - 1]) && OnlyComment(t, n)
    requires forall k :: 0 < k < n ==> !(t[k] == '#' && IsSpace(t[k - 1]))
    ensures TrimSpace(Uncommented(t)) == t[0..n]
  {
    CommentBehind(t, n, 0);
    CommentAfterSpaces(t, n);
    BareValue(t, n);
    assert t[..n] == t[0..n];
  }

  lemma BareValue(t: string, n: nat)
    requires 0 < n <= CommentAt(t, 0) <= |t| && Spaces(t, n, CommentAt(t, 0)) && !IsSpace(t[0]) && !IsSpace(t[n - 1])
    ensures TrimSpace(Uncommented(t)) == t[..n]
  {
    var u := Uncommented(t);
    var b := TrimmedAt(u, 0, n);
    assert !(n < b);
    assert u[0..b] == t[..n];
  }

  // ---------------------------------------------------------------------
  // Writing a value so that it reads back.
  // ---------------------------------------------------------------------

  lemma TrimIsIdentity(s: string)
    requires s != "" && !IsSpace(s[0]) && !IsSpace(s[|s| - 1])
    ensures TrimSpace(s) == s
  {
  }

  /** A value in single quotes reads back as itself, whatever it holds but a single quote. */
  lemma {:induction false} SingleQuoteRoundTrip(v: string, shell: bool)
    requires '\'' !in v
    ensures Reading("'" + v + "'", shell) == Text(v)
  {
    var s := "'" + v + "'";
    TrimIsIdentity(s);
    var close := |v| + 1;
    assert s[close] == '\'' && s[1..close] == v;
    forall k | 1 <= k < close
      ensures s[k] != '\''
    {
      assert s[k] == v[k - 1];
    }
    assert IndexFrom(s, '\'', 1) == close;
    assert s[close + 1..] == "";
    assert CommentAt("", 0) == 0;
    assert Uncommented("") == "";
  }

  lemma {:induction false} NoComment(s: string, i: nat)
    requires i <= |s| && '#' !in s
    ensures CommentAt(s, i) == |s|
    decreases |s| - i
  {
    if i < |s| {
      NoComment(s, i + 1);
    }
  }

  /** A plain word reads back as itself in both modes. */
  lemma {:induction false} PlainRoundTrip(v: string, shell: bool)
    requires v != "" && !HasSpecial(v, true)
    requires forall k :: 0 <= k < |v| ==> !IsSpace(v[k])
    ensures Reading(v, shell) == Text(v)
  {
    TrimIsIdentity(v);
    AllPlain(v);
    NoComment(v, 0);
    assert Uncommented(v) == v;
  }

  /** Why blanks must be spaces and tabs: the importer trims any other blank after a word,
      and the shell keeps it in the word. */
  lemma {:induction false} OtherBlanksDiffer(v: string, c: char)
    requires v != "" && !HasSpecial(v, true) && forall k :: 0 <= k < |v| ==> !IsSpace(v[k])
    requires IsSpace(c) && !Blank(c) && c != '\n'
    ensures Reading(v + [c], true) == Text(v) && Words(v + [c], 0) == Some([v + [c]])
  {
    var raw := v + [c];
    TrimsLast(v, c);
    TrimIsIdentity(v);
    PlainRoundTrip(v, true);
    KeepsLast(v, c);
  }

  lemma TrimsLast(v: string, c: char)
    requires v != "" && !IsSpace(v[0]) && !IsSpace(v[|v| - 1]) && IsSpace(c)
    ensures TrimSpace(v + [c]) == v
  {
    var raw := v + [c];
    assert raw[..|v|] == v && raw[0] == v[0];
    assert TrimLeft(raw) == raw;
    assert TrimRight(v) == v;
  }

  lemma {:induction false} WholeWord(raw: string)
    requires raw != "" && raw[0] != '#' && forall k :: 0 <= k < |raw| ==> Plain(raw[k])
    ensures Words(raw, 0) == Some([raw])
  {
    PlainRun(raw, 0, |raw|);
    assert raw[0..|raw|] == raw && raw + "" == raw;
    assert [raw] + [] == [raw];
  }

  lemma AllPlain(v: string)
    requires !HasSpecial(v, true) && forall k :: 0 <= k < |v| ==> !IsSpace(v[k])
    ensures forall k :: 0 <= k < |v| ==> Plain(v[k]) && v[k] != '#'
  {
    forall k | 0 <= k < |v|
      ensures Plain(v[k]) && v[k] != '#'
    {
      assert !ShellSpecial(v[k]);
    }
  }

  lemma {:induction false} KeepsLast(v: string, c: char)
    requires v != "" && !HasSpecial(v, true) && forall k :: 0 <= k < |v| ==> !IsSpace(v[k])
    requires IsSpace(c) && !Blank(c) && c != '\n'
    ensures Words(v + [c], 0) == Some([v + [c]])
  {
    AllPlain(v);
    PlainThenBlank(v, c);
  }

  lemma PlainThenBlank(v: string, c: char)
    requires v != "" && forall k :: 0 <= k < |v| ==> Plain(v[k]) && v[k] != '#'
    requires Plain(c)
    ensures Words(v + [c], 0) == Some([v + [c]])
  {
    var raw := v + [c];
    forall k | 0 <= k < |raw|
      ensures Plain(raw[k])
    {
      assert k < |v| ==> raw[k] == v[k];
    }
    assert raw[0] == v[0];
    WholeWord(raw);
  }

  // ---------------------------------------------------------------------
  // Splitting into lines.
  // ---------------------------------------------------------------------

  predicate Breaks(c: char) {
    || c == '\n' || c == '\U{0b}' || c == '\U{0c}' || c == '\r' || c == '\U{1c}' || c == '\U{1d}' || c == '\U{1e}'
    || c == '\U{85}' || c == '\U{2028}' || c == '\U{2029}'
  }

  /** The first terminator at or after `i`, or the end of the text. */
  function LineEnd(text: string, i: nat): (r: nat)
    requires i <= |text|
    ensures i <= r <= |text|
    decreases |text| - i
  {
    if i == |text| || Breaks(text[i]) then i else LineEnd(text, i + 1)
  }

  /** Past the terminator at `at`; a carriage return takes a newline after it along. */
  function After(text: string, at: nat): (r: nat)
    requires at <= |text|
    ensures at <= r <= |text| && (at < |text| ==> at < r)
  {
    if at == |text| then at
    else if text[at] == '\r' && at + 1 < |text| && text[at + 1] == '\n' then at + 2
    else at + 1
  }

  /** Lines, each with its terminator; only the last line of a text may lack one. */
  datatype Pieces = End | Line(line: string, end: string, rest: Pieces)

  function Split(text: string, start: nat): Pieces
    requires start <= |text|
    decreases |text| - start
  {
    if start == |text| then End
    else
      var stop := LineEnd(text, start);
      Line(text[start..stop], text[stop..After(text, stop)], Split(text, After(text, stop)))
  }

  function Joined(pieces: Pieces): string {
    match pieces
    case End => ""
    case Line(line, end, rest) => line + (end + Joined(rest))
  }

  function LinesOf(pieces: Pieces): seq<string> {
    match pieces
    case End => []
    case Line(line, end, rest) => [line] + LinesOf(rest)
  }

  /** The source's loop gives the lines without their terminators. */
  method SplitLines(text: string) returns (lines: seq<string>)
    ensures lines == LinesOf(Split(text, 0))
  {
    lines := [];
    var start, i := 0, 0;
    while i < |text|
      invariant start <= i <= |text| && Collected(text, lines, start)
      invariant LineEnd(text, start) == LineEnd(text, i)
      decreases |text| - i
    {
      var r := text[i];
      ghost var at := i;
      if Breaks(r) && r != '\r' {
        lines := AppendLine(text, lines, start, i);
        i := i + 1;
        start := i;
        assert start == After(text, at);
      } else if r == '\r' {
        lines := AppendLine(text, lines, start, i);
        i := i + 1;
        if i < |text| && text[i] == '\n' {
          i := i + 1;
        }
        start := i;
        assert start == After(text, at);
      } else {
        i := i + 1;
      }
    }
    if start < |text| {
      lines := AppendLine(text, lines, start, |text|);
    }
    AllCollected(text, lines);
  }

  ghost predicate Collected(text: string, lines: seq<string>, start: nat) {
    start <= |text| && lines + LinesOf(Split(text, start)) == LinesOf(Split(text, 0))
  }

  method AppendLine(text: string, lines: seq<string>, start: nat, stop: nat) returns (more: seq<string>)
    requires start < |text| && start <= stop <= |text| && LineEnd(text, start) == stop
    requires Collected(text, lines, start)
    ensures Collected(text, more, After(text, stop))
  {
    more := lines + [text[start..stop]];
    ghost var line, rest := [text[start..stop]], LinesOf(Split(text, After(text, stop)));
    assert lines + line + rest == lines + (line + rest);
  }

  lemma AllCollected(text: string, lines: seq<string>)
    requires Collected(text, lines, |text|)
    ensures lines == LinesOf(Split(text, 0))
  {
    assert lines + [] == lines;
  }

  lemma ThreeSlices(text: string, i: nat, j: nat, k: nat)
    requires i <= j <= k <= |text|
    ensures text[i..j] + (text[j..k] + text[k..]) == text[i..]
  {
  }

  /** The lines and their terminators, put together again, are the text. */
  lemma {:induction false} JoinOfSplit(text: string, start: nat)
    requires start <= |text|
    ensures Joined(Split(text, start)) == text[start..]
    decreases |text| - start
  {
    if start < |text| {
      var stop := LineEnd(text, start);
      JoinOfSplit(text, After(text, stop));
      ThreeSlices(text, start, stop, After(text, stop));
    }
  }

  predicate Unbroken(line: string) {
    forall k :: 0 <= k < |line| ==> !Breaks(line[k])
  }

  /** `end` may stand between a line and `rest`. */
  predicate Terminates(end: string, rest: string) {
    || end == "\r\n"
    || (|end| == 1 && Breaks(end[0]) && !(end[0] == '\r' && rest != "" && rest[0] == '\n'))
  }

  /** Lines without terminators inside them, each with one after it, the last perhaps bare
      but then not empty. */
  predicate WellCut(pieces: Pieces) {
    match pieces
    case End => true
    case Line(line, end, rest) =>
      && Unbroken(line)
      && (Terminates(end, Joined(rest)) || (end == "" && line != "" && rest == End))
      && WellCut(rest)
  }

  lemma {:induction false} LineEndIs(text: string, i: nat, stop: nat)
    requires i <= stop <= |text| && (stop < |text| ==> Breaks(text[stop]))
    requires forall k :: i <= k < stop ==> !Breaks(text[k])
    ensures LineEnd(text, i) == stop
    decreases stop - i
  {
    if i < stop {
      LineEndIs(text, i + 1, stop);
    }
  }

  /** One line at the front of the rest of the text is cut off as it stands. */
  lemma CutsFront(text: string, start: nat, line: string, end: string, rest: string)
    requires start <= |text| && text[start..] == line + (end + rest) && Unbroken(line)
    requires Terminates(end, rest) || (end == "" && rest == "" && line != "")
    ensures start < |text| && LineEnd(text, start) == start + |line|
    ensures var next := After(text, start + |line|);
            && next == start + |line| + |end|
            && text[start..start + |line|] == line
            && text[start + |line|..next] == end
            && text[next..] == rest
  {
    var tail, stop := text[start..], start + |line|;
    assert |tail| == |line| + |end| + |rest|;
    forall k | start <= k < stop
      ensures !Breaks(text[k])
    {
      assert text[k] == tail[k - start] == line[k - start];
    }
    FrontChars(text, start, line, end, rest);
    LineEndIs(text, start, stop);
  }

  lemma FrontChars(text: string, start: nat, line: string, end: string, rest: string)
    requires start <= |text| && text[start..] == line + (end + rest)
    ensures var stop := start + |line|;
            var next := stop + |end|;
            && next <= |text| && next + |rest| == |text|
            && text[start..stop] == line
            && text[stop..next] == end
            && text[next..] == rest
            && (forall k :: 0 <= k < |end| ==> text[stop + k] == end[k])
            && (rest != "" ==> text[next] == rest[0])
  {
    var tail, stop := text[start..], start + |line|;
    var next := stop + |end|;
    assert |tail| == |line| + |end| + |rest|;
    assert text[start..stop] == tail[..|line|];
    assert text[stop..next] == tail[|line|..|line| + |end|];
    assert text[next..] == tail[|line| + |end|..];
    assert forall k :: 0 <= k < |end| ==> text[stop + k] == text[stop..next][k];
  }

  lemma SplitFront(text: string, start: nat, line: string, end: string, rest: string) returns (next: nat)
    requires start <= |text| && text[start..] == line + (end + rest) && Unbroken(line)
    requires Terminates(end, rest) || (end == "" && rest == "" && line != "")
    ensures start < next <= |text| && text[next..] == rest
    ensures Split(text, start) == Line(line, end, Split(text, next))
  {
    CutsFront(text, start, line, end, rest);
    next := After(text, start + |line|);
  }

  /** Any well-cut lines are what splitting their text gives, so the split is the only one. */
  lemma {:induction false} SplitOfJoin(text: string, start: nat, pieces: Pieces)
    requires start <= |text| && text[start..] == Joined(pieces) && WellCut(pieces)
    ensures Split(text, start) == pieces
    decreases pieces
  {
    match pieces
    case End =>
      assert |text[start..]| == 0;
    case Line(line, end, rest) =>
      var next := SplitFront(text, start, line, end, Joined(rest));
      SplitOfJoin(text, next, rest);
  }

  /** The line boundaries of Python's str.splitlines. */
  const BOUNDARIES := "\n\U{0b}\U{0c}\r\U{1c}\U{1d}\U{1e}\U{85}\U{2028}\U{2029}"

  lemma BreaksIsBoundary(c: char)
    ensures Breaks(c) <==> c in BOUNDARIES
  {
    var all := BOUNDARIES;
    assert all[0] == '\n' && all[1] == '\U{0b}' && all[2] == '\U{0c}' && all[3] == '\r' && all[4] == '\U{1c}';
    assert all[5] == '\U{1d}' && all[6] == '\U{1e}' && all[7] == '\U{85}' && all[8] == '\U{2028}' && all[9] == '\U{2029}';
    assert |all| == 10;
  }

  /** No line holds a boundary; each ends in one, a return and a newline counting as one, but
      for the last, which may end with the text and is then not empty. */
  ghost predicate CutAtBoundaries(pieces: Pieces) {
    match pieces
    case End => true
    case Line(line, end, rest) =>
      && (forall c :: c in line ==> c !in BOUNDARIES)
      && (if end == "" then line != "" && rest == End
          else end == "\r\n" || (|end| == 1 && end[0] in BOUNDARIES && !(end == "\r" && "\n" <= Joined(rest))))
      && CutAtBoundaries(rest)
  }

  lemma {:induction false} SplitCutsAtBoundaries(text: string, start: nat)
    requires start <= |text|
    ensures CutAtBoundaries(Split(text, start))
    decreases |text| - start
  {
    if start < |text| {
      var stop := LineEnd(text, start);
      var next := After(text, stop);
      SplitCutsAtBoundaries(text, next);
      JoinOfSplit(text, next);
      LineHasNoBoundary(text, start);
      if stop < |text| {
        EndIsBoundary(text, stop);
      }
    }
  }

  lemma {:induction false} LineEndBreaks(text: string, i: nat)
    requires i <= |text|
    ensures forall k :: i <= k < LineEnd(text, i) ==> !Breaks(text[k])
    ensures LineEnd(text, i) < |text| ==> Breaks(text[LineEnd(text, i)])
    decreases |text| - i
  {
    if i < |text| && !Breaks(text[i]) {
      LineEndBreaks(text, i + 1);
    }
  }

  lemma LineHasNoBoundary(text: string, start: nat)
    requires start <= |text|
    ensures forall c :: c in text[start..LineEnd(text, start)] ==> c !in BOUNDARIES
    ensures LineEnd(text, start) < |text| ==> text[LineEnd(text, start)] in BOUNDARIES
  {
    LineEndBreaks(text, start);
    var line := text[start..LineEnd(text, start)];
    forall c | c in line
      ensures c !in BOUNDARIES
    {
      var k :| 0 <= k < |line| && line[k] == c;
      assert text[start + k] == c;
      BreaksIsBoundary(c);
    }
    if LineEnd(text, start) < |text| {
      BreaksIsBoundary(text[LineEnd(text, start)]);
    }
  }

  lemma EndIsBoundary(text: string, stop: nat)
    requires stop < |text| && text[stop] in BOUNDARIES
    ensures var next := After(text, stop);
            var end := text[stop..next];
            end == "\r\n" || (|end| == 1 && end[0] in BOUNDARIES && !(end == "\r" && "\n" <= text[next..]))
  {
    var next := After(text, stop);
    if next == stop + 2 {
      assert text[stop..next] == "\r\n";
    } else {
      assert text[stop..next] == [text[stop]];
      assert "\n" <= text[next..] ==> text[next] == '\n';
    }
  }

  /** The terminators of a text's lines. */
  function EndsOf(pieces: Pieces): seq<string> {
    match pieces
    case End => []
    case Line(_, end, rest) => [end] + EndsOf(rest)
  }

  function Interleaved(lines: seq<string>, ends: seq<string>): string
    requires |lines| == |ends|
  {
    if lines == [] then "" else lines[0] + (ends[0] + Interleaved(lines[1..], ends[1..]))
  }

  lemma {:induction false} LinesOfPieces(pieces: Pieces)
    requires CutAtBoundaries(pieces)
    ensures var lines, ends := LinesOf(pieces), EndsOf(pieces);
            && |lines| == |ends| && Interleaved(lines, ends) == Joined(pieces)
            && (forall l, c :: l in lines && c in l ==> c !in BOUNDARIES)
            && (forall e :: e in ends ==> e in ["", "\r\n"] || (|e| == 1 && e[0] in BOUNDARIES))
  {
    if pieces.Line? {
      LinesOfPieces(pieces.rest);
      var lines, ends := LinesOf(pieces), EndsOf(pieces);
      assert lines[1..] == LinesOf(pieces.rest) && ends[1..] == EndsOf(pieces.rest);
      assert lines[0] == pieces.line && ends[0] == pieces.end;
    }
  }

  /** THE LINES OF A TEXT. None holds a boundary, and putting one boundary, or nothing, behind
      each gives the text back. */
  lemma LinesAreTheText(text: string) returns (ends: seq<string>)
    ensures var lines := LinesOf(Split(text, 0));
            && |lines| == |ends| && Interleaved(lines, ends) == text
            && (forall l, c :: l in lines && c in l ==> c !in BOUNDARIES)
            && (forall e :: e in ends ==> e in ["", "\r\n"] || (|e| == 1 && e[0] in BOUNDARIES))
  {
    SplitCutsAtBoundaries(text, 0);
    LinesOfPieces(Split(text, 0));
    JoinOfSplit(text, 0);
    assert text[0..] == text;
    ends := EndsOf(Split(text, 0));
  }
}
