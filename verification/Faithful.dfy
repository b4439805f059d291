/** Which catalog strings the exporter carries faithfully: exactly the well-formed ones
    (internal/compose/compose.go interpolate, and Compose's reading of what it writes). */
module Faithful {
  import opened Common
  import opened Interpolation

  /** No variable is set, and none is declared. */
  const NOTHING: Bindings := map[]

  /** Compose refuses the text, or makes at most `n` characters of it. */
  predicate AtMost(u: string, n: int) {
    Expand(u, NOTHING).Some? ==> |Expand(u, NOTHING).value| <= n
  }

  // ---------------------------------------------------------------------
  // What one head of a text becomes.
  // ---------------------------------------------------------------------

  lemma LiteralHead(c: char, t: string)
    requires c != '$'
    ensures Expand([c] + t, NOTHING) == Append(Some([c]), Expand(t, NOTHING))
  {
    assert ([c] + t)[1..] == t;
  }

  lemma EscapedHead(t: string)
    ensures Expand("$$" + t, NOTHING) == Append(Some("$"), Expand(t, NOTHING))
  {
    assert ("$$" + t)[2..] == t;
  }

  /** A closed expression is no longer than what stands between its braces. */
  lemma ExpressionHead(body: string, t: string, n: int)
    requires '}' !in body && AtMost(t, n)
    ensures AtMost(Token(body) + t, |body| + n)
  {
    BracedHead(body);
    AppendNothing(Braced(body, NOTHING));
    ExpandConcat(Token(body), t, NOTHING);
  }

  lemma BareHead(name: string, t: string)
    requires name != "" && NameStart(name[0]) && (forall c :: c in name ==> NameChar(c))
    requires t == "" || !NameChar(t[0])
    ensures Expand("$" + (name + t), NOTHING) == Append(Some(""), Expand(t, NOTHING))
  {
    var u := "$" + (name + t);
    assert u[1] == name[0] && u[1..] == name + t;
    NameLengthAll(name, t);
    assert u[1 + |name|..] == t;
    assert HeadForm(u).Bare?;
  }

  /** A dollar sign that starts nothing. */
  lemma MalformedHead(u: string)
    requires u != "" && u[0] == '$'
    requires |u| == 1 || (u[1] != '$' && !NameStart(u[1]) && (u[1] == '{' ==> '}' !in u))
    ensures Expand(u, NOTHING).None?
  {
    if |u| > 1 && u[1] == '{' {
      assert IndexOf(u, '}') == |u|;
    }
  }

  // ---------------------------------------------------------------------
  // Inside a token: its key is written as it is.
  // ---------------------------------------------------------------------

  /** The name that starts at `i`, and where it ends. */
  lemma {:induction false} NameAt(s: string, i: nat) returns (j: nat)
    requires i < |s| && NameStart(s[i])
    ensures i < j <= |s| && (forall k :: i <= k < j ==> NameChar(s[k])) && (j < |s| ==> !NameChar(s[j]))
  {
    j := i + 1;
    while j < |s| && NameChar(s[j])
      invariant i < j <= |s| && forall k :: i <= k < j ==> NameChar(s[k])
    {
      j := j + 1;
    }
  }

  /** The rest of a key, its closing brace and what follows. A dollar sign in it costs
      at least one character. */
  lemma {:induction false} KeyShrinks(key: string, k: nat, t: string, n: int)
    requires k <= |key| && '}' !in key && AtMost(t, n)
    ensures AtMost(key[k..] + ("}" + t), |key| - k + 1 + n)
    ensures '$' in key[k..] ==> AtMost(key[k..] + ("}" + t), |key| - k + n)
    decreases |key| - k
  {
    var tail := "}" + t;
    if k == |key| {
      assert key[k..] + tail == tail;
      LiteralHead('}', t);
    } else if key[k] != '$' {
      KeyShrinks(key, k + 1, t, n);
      assert key[k..] + tail == [key[k]] + (key[k + 1..] + tail);
      LiteralHead(key[k], key[k + 1..] + tail);
      assert '$' in key[k..] ==> '$' in key[k + 1..];
    } else {
      DollarInKey(key, k, t, n);
    }
  }

  lemma {:induction false} DollarInKey(key: string, k: nat, t: string, n: int)
    requires k < |key| && key[k] == '$' && '}' !in key && AtMost(t, n)
    ensures AtMost(key[k..] + ("}" + t), |key| - k + n)
    decreases |key| - k, 0
  {
    var tail := "}" + t;
    var u := key[k..] + tail;
    if k + 1 == |key| {
      assert u[0] == '$' && u[1] == '}';
      MalformedHead(u);
    } else if key[k + 1] == '$' {
      KeyShrinks(key, k + 2, t, n);
      assert u == "$$" + (key[k + 2..] + tail);
      EscapedHead(key[k + 2..] + tail);
    } else if key[k + 1] == '{' {
      assert u == Token(key[k + 2..]) + t;
      ExpressionHead(key[k + 2..], t, n);
    } else if NameStart(key[k + 1]) {
      var j := NameAt(key, k + 1);
      KeyShrinks(key, j, t, n);
      var name := key[k + 1..j];
      assert u == "$" + (name + (key[j..] + tail));
      assert j < |key| ==> (key[j..] + tail)[0] == key[j];
      BareHead(name, key[j..] + tail);
    } else {
      assert u[0] == '$' && u[1] == key[k + 1];
      MalformedHead(u);
    }
  }

  // ---------------------------------------------------------------------
  // The scan's output, when nothing is declared.
  // ---------------------------------------------------------------------

  /** What the exporter writes from `i` on. */
  function Written(s: string, i: nat): string
    requires i <= |s|
  {
    InterpolatedFrom(s, i, NOTHING)
  }

  lemma WritesChar(s: string, i: nat)
    requires i < |s| && TokenEnd(s, i) == i
    ensures Written(s, i) == [s[i]] + Written(s, i + 1)
  {
  }

  lemma WritesToken(s: string, i: nat) returns (key: string)
    requires i < |s| && TokenEnd(s, i) > i
    ensures key == s[i + 2..TokenEnd(s, i) - 1] && |key| + 3 == TokenEnd(s, i) - i && '}' !in key
    ensures Written(s, i) == "$" + (Token(key) + Written(s, TokenEnd(s, i)))
  {
    var e := TokenEnd(s, i);
    key := s[i + 2..e - 1];
    TokenSlice(s, i);
    Regroup("$", Token(key), Written(s, e));
  }

  /** What is written begins with the character it is written for. */
  lemma WrittenFirst(s: string, i: nat)
    requires i <= |s|
    ensures if i == |s| then Written(s, i) == "" else Written(s, i) != "" && Written(s, i)[0] == s[i]
  {
    if i < |s| && TokenEnd(s, i) > i {
      var key := WritesToken(s, i);
    }
  }

  lemma FirstOf(s: string, i: nat, j: nat)
    requires i < j <= |s|
    ensures s[i..j] == [s[i]] + s[i + 1..j]
  {
  }

  lemma {:induction false} WritesRun(s: string, i: nat, j: nat)
    requires i <= j <= |s| && forall k :: i <= k < j ==> s[k] != '$'
    ensures Written(s, i) == s[i..j] + Written(s, j)
    decreases j - i
  {
    if i < j {
      WritesChar(s, i);
      WritesRun(s, i + 1, j);
      FirstOf(s, i, j);
      Regroup([s[i]], s[i + 1..j], Written(s, j));
    }
  }

  lemma {:induction false} NoBraceWritten(s: string, i: nat)
    requires i <= |s| && IndexFrom(s, '}', i) == |s|
    ensures '}' !in Written(s, i)
    decreases |s| - i
  {
    if i < |s| {
      NoBraceWritten(s, i + 1);
      WritesChar(s, i);
    }
  }

  // ---------------------------------------------------------------------
  // Exactly the well-formed strings survive.
  // ---------------------------------------------------------------------

  /** The exported text never becomes longer than the string, and a string that is not
      well formed comes out shorter or is refused. */
  lemma {:induction false} Shrinks(s: string, i: nat)
    requires i <= |s|
    ensures AtMost(Written(s, i), |s| - i)
    ensures !WellFormedFrom(s, i) ==> AtMost(Written(s, i), |s| - i - 1)
    decreases |s| - i, 2
  {
    if i == |s| {
    } else if TokenEnd(s, i) > i {
      TokenShrinks(s, i);
    } else if s[i] != '$' {
      Shrinks(s, i + 1);
    } else {
      StrayDollarShrinks(s, i);
    }
  }

  lemma EscapedToken(key: string, t: string)
    ensures "$" + (Token(key) + t) == "$$" + ("{" + (key + ("}" + t)))
  {
  }

  lemma EscapedTokenShrinks(key: string, t: string, n: int)
    requires '}' !in key && AtMost(t, n)
    ensures AtMost("$" + (Token(key) + t), |key| + 3 + n)
    ensures '$' in key ==> AtMost("$" + (Token(key) + t), |key| + 2 + n)
  {
    var inside := key + ("}" + t);
    assert key[0..] == key;
    KeyShrinks(key, 0, t, n);
    EscapedToken(key, t);
    EscapedHead("{" + inside);
    LiteralHead('{', inside);
  }

  predicate DollarInside(s: string, i: nat)
    requires i < |s| && TokenEnd(s, i) > i
  {
    '$' in s[i + 2..TokenEnd(s, i) - 1]
  }

  lemma TokenSized(s: string, i: nat, n: int)
    requires i < |s| && TokenEnd(s, i) > i && AtMost(Written(s, TokenEnd(s, i)), n)
    ensures AtMost(Written(s, i), n + TokenEnd(s, i) - i)
    ensures DollarInside(s, i) ==> AtMost(Written(s, i), n + TokenEnd(s, i) - i - 1)
  {
    var key := WritesToken(s, i);
    EscapedTokenShrinks(key, Written(s, TokenEnd(s, i)), n);
  }

  lemma {:induction false} TokenShrinks(s: string, i: nat)
    requires i < |s| && TokenEnd(s, i) > i
    ensures AtMost(Written(s, i), |s| - i)
    ensures !WellFormedFrom(s, i) ==> AtMost(Written(s, i), |s| - i - 1)
    decreases |s| - i, 0
  {
    var e := TokenEnd(s, i);
    Shrinks(s, e);
    TokenSized(s, i, |s| - e);
    if !WellFormedFrom(s, e) {
      TokenSized(s, i, |s| - e - 1);
    }
  }

  lemma {:induction false} StrayDollarShrinks(s: string, i: nat)
    requires i < |s| && TokenEnd(s, i) == i && s[i] == '$'
    ensures AtMost(Written(s, i), |s| - i - 1)
    decreases |s| - i, 1
  {
    var u, t := Written(s, i), Written(s, i + 1);
    WritesChar(s, i);
    WrittenFirst(s, i + 1);
    if i + 1 == |s| {
      MalformedHead(u);
    } else if s[i + 1] == '$' {
      PairShrinks(s, i);
    } else if NameStart(s[i + 1]) {
      var j := NameAt(s, i + 1);
      Shrinks(s, j);
      WritesRun(s, i + 1, j);
      WrittenFirst(s, j);
      assert u == "$" + (s[i + 1..j] + Written(s, j));
      BareHead(s[i + 1..j], Written(s, j));
    } else {
      if s[i + 1] == '{' {
        NoBraceWritten(s, i);
      }
      assert u[1] == t[0];
      MalformedHead(u);
    }
  }

  /** A stray dollar sign takes the next one with it, and leaves a token behind it bare. */
  lemma {:induction false} PairShrinks(s: string, i: nat)
    requires i + 1 < |s| && TokenEnd(s, i) == i && s[i] == '$' && s[i + 1] == '$'
    ensures AtMost(Written(s, i), |s| - i - 1)
    decreases |s| - i, 0
  {
    if TokenEnd(s, i + 1) > i + 1 {
      Shrinks(s, TokenEnd(s, i + 1));
      PairSized(s, i, |s| - TokenEnd(s, i + 1));
    } else {
      Shrinks(s, i + 2);
      StraysSized(s, i, |s| - i - 2);
    }
  }

  lemma TwoDollars(x: string)
    ensures ['$'] + ("$" + x) == "$$" + x
  {
  }

  lemma PairWritten(s: string, i: nat) returns (key: string)
    requires i + 1 < |s| && TokenEnd(s, i) == i && s[i] == '$' && TokenEnd(s, i + 1) > i + 1
    ensures var e := TokenEnd(s, i + 1);
            Written(s, i) == "$$" + (Token(key) + Written(s, e)) && |key| + 4 == e - i && '}' !in key
  {
    WritesChar(s, i);
    key := WritesToken(s, i + 1);
    TwoDollars(Token(key) + Written(s, TokenEnd(s, i + 1)));
  }

  lemma PairSized(s: string, i: nat, n: int)
    requires i + 1 < |s| && TokenEnd(s, i) == i && s[i] == '$' && TokenEnd(s, i + 1) > i + 1
    requires AtMost(Written(s, TokenEnd(s, i + 1)), n)
    ensures AtMost(Written(s, i), n + TokenEnd(s, i + 1) - i - 3)
  {
    var key := PairWritten(s, i);
    PairedToken(key, Written(s, TokenEnd(s, i + 1)), n);
  }

  lemma PairedToken(key: string, t: string, n: int)
    requires '}' !in key && AtMost(t, n)
    ensures AtMost("$$" + (Token(key) + t), |key| + 1 + n)
  {
    ExpressionHead(key, t, n);
    EscapedHead(Token(key) + t);
  }

  lemma StraysSized(s: string, i: nat, n: int)
    requires i + 1 < |s| && TokenEnd(s, i) == i && TokenEnd(s, i + 1) == i + 1 && s[i] == '$' && s[i + 1] == '$'
    requires AtMost(Written(s, i + 2), n)
    ensures AtMost(Written(s, i), n + 1)
  {
    WritesChar(s, i);
    WritesChar(s, i + 1);
    assert Written(s, i) == "$$" + Written(s, i + 2);
    EscapedHead(Written(s, i + 2));
  }

  lemma {:induction false} MeaningIsRendering(t: Template, dotenv: Bindings)
    ensures Meaning(t, NOTHING, dotenv) == Some(Render(t))
    decreases t
  {
    if t != Done {
      MeaningIsRendering(t.rest, dotenv);
    }
  }

  /** EXACTLY THE WELL-FORMED STRINGS ARE CARRIED FAITHFULLY. With no variable declared,
      Compose gives the string back as the catalog wrote it, whatever the .env file holds,
      if and only if every dollar sign in it starts a closed token. */
  lemma FaithfulExactlyWhenWellFormed(s: string)
    ensures WellFormed(s) <==> forall dotenv :: Expand(Interpolated(s, NOTHING), dotenv) == Some(s)
  {
    if WellFormed(s) {
      forall dotenv
        ensures Expand(Interpolated(s, NOTHING), dotenv) == Some(s)
      {
        ExportPreservesMeaning(s, NOTHING, dotenv);
        MeaningIsRendering(Parsed(s), dotenv);
        ParsedRenders(s, 0);
        assert s[0..] == s;
      }
    } else {
      Shrinks(s, 0);
      assert Expand(Interpolated(s, NOTHING), NOTHING) != Some(s);
    }
  }
}
