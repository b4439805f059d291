/** Small shared vocabulary: optional values, and the string operations of the
    source's standard library that the models below rely on. */
module Common {

  datatype Option<+T> = None | Some(value: T)

  /** The position of the first `c` at or after `i`, or `|s|` when there is none. */
  function IndexFrom(s: string, c: char, i: nat): (r: nat)
    requires i <= |s|
    ensures i <= r <= |s|
    ensures r < |s| ==> s[r] == c
    ensures forall k :: i <= k < r ==> s[k] != c
    decreases |s| - i
  {
    if i == |s| || s[i] == c then i else IndexFrom(s, c, i + 1)
  }

  /** Go's strings.IndexByte, with `|s|` for "not found". */
  function IndexOf(s: string, c: char): (r: nat) {
    IndexFrom(s, c, 0)
  }

  /** An occurrence inside the first part is the occurrence in the whole. */
  lemma IndexOfConcat(a: string, b: string, c: char)
    ensures IndexOf(a, c) < |a| ==> IndexOf(a + b, c) == IndexOf(a, c)
    ensures c !in a ==> IndexOf(a + b, c) == |a| + IndexOf(b, c)
  {
    if c !in a {
      assert forall k :: 0 <= k < |a| ==> (a + b)[k] == a[k] != c;
      assert forall k :: 0 <= k < |b| ==> (a + b)[|a| + k] == b[k];
    } else {
      assert (a + b)[IndexOf(a, c)] == c;
    }
  }

  /** The characters Go's unicode.IsSpace and Python's str.isspace trim. */
  predicate IsSpace(c: char) {
    || c == ' ' || '\t' <= c <= '\r' || c == '\U{85}' || c == '\U{a0}' || c == '\U{1680}'
    || '\U{2000}' <= c <= '\U{200a}'
    || c == '\U{2028}' || c == '\U{2029}' || c == '\U{202f}' || c == '\U{205f}' || c == '\U{3000}'
  }

  function TrimLeft(s: string): (t: string)
    ensures |t| <= |s|
  {
    if s != "" && IsSpace(s[0]) then TrimLeft(s[1..]) else s
  }

  function TrimRight(s: string): (t: string)
    ensures |t| <= |s|
  {
    if s != "" && IsSpace(s[|s| - 1]) then TrimRight(s[..|s| - 1]) else s
  }

  /** Go's strings.TrimSpace. */
  function TrimSpace(s: string): (t: string) {
    TrimRight(TrimLeft(s))
  }

  predicate StandsAt(text: string, i: int, part: string) {
    0 <= i <= |text| - |part| && text[i..i + |part|] == part
  }

  /** `part` stands somewhere in `text`. */
  ghost predicate Contains(text: string, part: string) {
    exists i :: StandsAt(text, i, part)
  }

  lemma ContainsLater(text: string, part: string)
    requires text != "" && |part| <= |text| && text[..|part|] != part
    ensures Contains(text, part) <==> Contains(text[1..], part)
  {
    var rest := text[1..];
    if i :| StandsAt(text, i, part) {
      assert i > 0 && StandsAt(rest, i - 1, part);
    }
    if i :| StandsAt(rest, i, part) {
      assert text[i + 1..i + 1 + |part|] == rest[i..i + |part|];
      assert StandsAt(text, i + 1, part);
    }
  }

  lemma TailContains(text: string, part: string)
    requires text != ""
    ensures Contains(text[1..], part) ==> Contains(text, part)
  {
    if i :| StandsAt(text[1..], i, part) {
      assert text[i + 1..i + 1 + |part|] == text[1..][i..i + |part|];
      assert StandsAt(text, i + 1, part);
    }
  }
}
