/** Facts about a text that holds a known string at a known position,
    and what the lexical primitives read there. */
module Slices {
  import opened Wrappers
  import opened Combinators
  import opened Lexer

  /** A run of `n` characters satisfying `pred` that stops at a character
      failing it, or at the end, is exactly what `take_while` takes. */
  lemma SpanExact(pred: char -> bool, text: string, i: nat, n: nat)
    requires i + n <= |text|
    requires forall k | i <= k < i + n :: pred(text[k])
    requires i + n < |text| ==> !pred(text[i + n])
    ensures Span(pred, text, i) == n
  {
  }

  /** The two halves of a slice of `text` that reads `a + b`. */
  lemma SliceSplit(text: string, pos: nat, a: string, b: string)
    requires pos + |a| + |b| <= |text|
    requires text[pos..pos + |a| + |b|] == a + b
    ensures text[pos..pos + |a|] == a
    ensures text[pos + |a|..pos + |a| + |b|] == b
  {
    assert text[pos..pos + |a|] == text[pos..pos + |a| + |b|][..|a|];
    assert text[pos + |a|..pos + |a| + |b|] == text[pos..pos + |a| + |b|][|a|..];
  }

  /** The characters of a slice of `text` that reads `s`. */
  lemma SliceAt(text: string, pos: nat, s: string)
    requires pos + |s| <= |text|
    requires text[pos..pos + |s|] == s
    ensures forall k | 0 <= k < |s| :: text[pos + k] == s[k]
  {
    forall k | 0 <= k < |s|
      ensures text[pos + k] == s[k]
    {
      assert text[pos..pos + |s|][k] == text[pos + k];
    }
  }

  /** Where the two parts of a prefix `a + b` of `text` stand. */
  lemma PrefixParts(text: string, a: string, b: string)
    requires a + b <= text
    ensures a <= text
    ensures text[|a|..|a| + |b|] == b
  {
    assert text[..|a| + |b|] == a + b;
    assert text[..|a|] == (a + b)[..|a|];
    assert text[|a|..|a| + |b|] == (a + b)[|a|..];
  }

  /** A run of characters satisfying `pred`, standing at `pos` and ending
      at a character that fails `pred` or at the end of `text`, is exactly
      what `take_while` takes there. */
  lemma TakeWhileAt(pred: char -> bool, text: string, pos: nat, s: string)
    requires pos + |s| <= |text| && text[pos..pos + |s|] == s
    requires forall k | 0 <= k < |s| :: pred(s[k])
    requires pos + |s| < |text| ==> !pred(text[pos + |s|])
    ensures TakeWhile(pred, Cursor(text, pos)) == Some(Parsed(s, Cursor(text, pos + |s|)))
  {
    forall k | pos <= k < pos + |s|
      ensures pred(text[k])
    {
      assert text[k] == text[pos..pos + |s|][k - pos];
    }
    SpanExact(pred, text, pos, |s|);
  }

  /** `tag(t)` succeeds on a text holding `t` at the cursor. */
  lemma TagAt(t: string, text: string, pos: nat)
    requires pos + |t| <= |text| && text[pos..pos + |t|] == t
    ensures Tag(t, Cursor(text, pos)) == Some(Parsed(t, Cursor(text, pos + |t|)))
  {
    assert Remaining(Cursor(text, pos))[..|t|] == t;
  }

  /** A run of blanks standing at `pos` and followed by a character that is
      not blank is exactly what `indent` takes there. */
  lemma IndentAt(text: string, pos: nat, ind: string)
    requires ind != [] && forall k | 0 <= k < |ind| :: IsBlank(ind[k])
    requires pos + |ind| <= |text| && text[pos..pos + |ind|] == ind
    requires pos + |ind| < |text| ==> !IsBlank(text[pos + |ind|])
    ensures Indent(Cursor(text, pos)) == Some(Parsed(ind, Cursor(text, pos + |ind|)))
  {
    forall k | pos <= k < pos + |ind|
      ensures IsBlank(text[k])
    {
      assert text[k] == text[pos..pos + |ind|][k - pos];
    }
    SpanExact(IsBlank, text, pos, |ind|);
  }

  /** `optional(kw)` reads `kw` and a space standing at the cursor. */
  lemma OptionalAt(kw: string, text: string, pos: nat)
    requires pos + |kw| + 1 <= |text| && text[pos..pos + |kw| + 1] == kw + " "
    ensures Optional(kw, Cursor(text, pos)).value == Parsed(true, Cursor(text, pos + |kw| + 1))
  {
    assert Remaining(Cursor(text, pos))[..|kw| + 1] == text[pos..pos + |kw| + 1];
  }

  /** `optional(kw)` reads nothing where the text does not start with `kw`'s
      first character. */
  lemma OptionalMiss(kw: string, text: string, pos: nat)
    requires kw != [] && pos < |text| && text[pos] != kw[0]
    ensures Optional(kw, Cursor(text, pos)).value == Parsed(false, Cursor(text, pos))
  {
    assert Remaining(Cursor(text, pos))[0] == text[pos];
  }

  // ---------------------------------------------------------------------
  // Lines made of known pieces

  /** `text` holds `s` at `pos`, character by character. */
  ghost predicate At(text: string, pos: nat, s: string)
    ensures At(text, pos, s) ==> pos + |s| <= |text|
    decreases |s|
  {
    if s == [] then pos <= |text|
    else pos < |text| && text[pos] == s[0] && At(text, pos + 1, s[1..])
  }

  /** `At` is the pointwise statement. */
  lemma {:induction false} AtIndex(text: string, pos: nat, s: string)
    ensures At(text, pos, s) <==> pos + |s| <= |text| && forall k | 0 <= k < |s| :: text[pos + k] == s[k]
    decreases |s|
  {
    if s != [] {
      AtIndex(text, pos + 1, s[1..]);
      if pos + |s| <= |text| && forall k | 0 <= k < |s| :: text[pos + k] == s[k] {
        forall k | 0 <= k < |s| - 1
          ensures text[pos + 1 + k] == s[1..][k]
        {
          assert text[pos + (k + 1)] == s[k + 1];
        }
      }
      if At(text, pos, s) {
        forall k | 0 <= k < |s|
          ensures text[pos + k] == s[k]
        {
          if k > 0 {
            assert text[pos + 1 + (k - 1)] == s[1..][k - 1];
          }
        }
      }
    }
  }

  /** A text holds itself at its start. */
  lemma AtWhole(s: string)
    ensures At(s, 0, s)
  {
    AtIndex(s, 0, s);
  }

  /** `At` as a slice of the text. */
  lemma AtSlice(text: string, pos: nat, s: string)
    requires At(text, pos, s)
    ensures pos + |s| <= |text| && text[pos..pos + |s|] == s
  {
    AtIndex(text, pos, s);
    assert text[pos..pos + |s|] == s by {
      forall k | 0 <= k < |s|
        ensures text[pos..pos + |s|][k] == s[k]
      {
        assert text[pos + k] == s[k];
      }
    }
  }

  /** A non-empty run of spaces and tabs. */
  predicate IsIndent(ind: string) {
    ind != [] && forall k | 0 <= k < |ind| :: IsBlank(ind[k])
  }

  /** `AtSplit` with the position of `b` given as `mid`. */
  lemma AtSplitTo(text: string, pos: nat, a: string, b: string, mid: nat)
    requires At(text, pos, a + b) && mid == pos + |a|
    ensures At(text, pos, a) && At(text, mid, b)
  {
    AtSplit(text, pos, a, b);
  }

  /** Where `text` holds `a + b`, it holds `a` and then `b`. */
  lemma AtSplit(text: string, pos: nat, a: string, b: string)
    requires At(text, pos, a + b)
    ensures At(text, pos, a) && At(text, pos + |a|, b)
  {
    AtIndex(text, pos, a + b);
    AtIndex(text, pos, a);
    AtIndex(text, pos + |a|, b);
    forall k | 0 <= k < |a|
      ensures text[pos + k] == a[k]
    {
      assert (a + b)[k] == a[k];
    }
    forall k | 0 <= k < |b|
      ensures text[pos + |a| + k] == b[k]
    {
      assert (a + b)[|a| + k] == b[k];
    }
  }

  /** Where `text` holds `a` and then `b`, it holds `a + b`. */
  lemma AtJoin(text: string, pos: nat, a: string, b: string)
    requires At(text, pos, a) && At(text, pos + |a|, b)
    ensures At(text, pos, a + b)
  {
    AtIndex(text, pos, a);
    AtIndex(text, pos + |a|, b);
    AtIndex(text, pos, a + b);
    forall k | 0 <= k < |a + b|
      ensures text[pos + k] == (a + b)[k]
    {
      if k >= |a| {
        assert text[pos + |a| + (k - |a|)] == b[k - |a|];
      }
    }
  }

  /** The first character of what `text` holds at `pos`. */
  lemma AtFirst(text: string, pos: nat, s: string)
    requires At(text, pos, s) && s != []
    ensures pos < |text| && text[pos] == s[0]
  {
  }

  /** An indent followed by a character that is not blank. */
  lemma IndentThen(text: string, pos: nat, ind: string, next: string)
    requires IsIndent(ind) && At(text, pos, ind) && At(text, pos + |ind|, next)
    requires next != [] && !IsBlank(next[0])
    ensures Indent(Cursor(text, pos)) == Some(Parsed(ind, Cursor(text, pos + |ind|)))
  {
    AtSlice(text, pos, ind);
    IndentAt(text, pos, ind);
  }

  /** A keyword and the space after it. */
  lemma KeywordThenSpace(kw: string, text: string, pos: nat)
    requires At(text, pos, kw) && At(text, pos + |kw|, " ")
    ensures Tag(kw, Cursor(text, pos)) == Some(Parsed(kw, Cursor(text, pos + |kw|)))
    ensures Char(' ', Cursor(text, pos + |kw|)) == Some(Parsed(' ', Cursor(text, pos + |kw| + 1)))
  {
    AtSlice(text, pos, kw);
    TagAt(kw, text, pos);
    AtFirst(text, pos + |kw|, " ");
  }

  /** A keyword alone before the line feed. */
  lemma KeywordThenEol(kw: string, text: string, pos: nat)
    requires At(text, pos, kw) && At(text, pos + |kw|, "\n")
    ensures Tag(kw, Cursor(text, pos)) == Some(Parsed(kw, Cursor(text, pos + |kw|)))
    ensures Eol(Cursor(text, pos + |kw|)) == Some(Parsed('\n', Cursor(text, pos + |kw| + 1)))
  {
    AtSlice(text, pos, kw);
    TagAt(kw, text, pos);
    AtFirst(text, pos + |kw|, "\n");
  }

  /** A token, then the line feed. */
  lemma TokenThenEol(text: string, pos: nat, tok: string)
    requires IsToken(tok) && At(text, pos, tok) && At(text, pos + |tok|, "\n")
    ensures TakeWhile(NotWhitespace, Cursor(text, pos)) == Some(Parsed(tok, Cursor(text, pos + |tok|)))
    ensures Eol(Cursor(text, pos + |tok|)) == Some(Parsed('\n', Cursor(text, pos + |tok| + 1)))
  {
    AtSlice(text, pos, tok);
    AtFirst(text, pos + |tok|, "\n");
    TakeWhileAt(NotWhitespace, text, pos, tok);
  }

  /** The rest of a line, then the line feed. */
  lemma RestThenEol(text: string, pos: nat, s: string)
    requires '\n' !in s && At(text, pos, s) && At(text, pos + |s|, "\n")
    ensures TakeUntilNewline(Cursor(text, pos)) == Some(Parsed(s, Cursor(text, pos + |s|)))
    ensures Eol(Cursor(text, pos + |s|)) == Some(Parsed('\n', Cursor(text, pos + |s| + 1)))
  {
    AtSlice(text, pos, s);
    AtFirst(text, pos + |s|, "\n");
    forall k | 0 <= k < |s|
      ensures NotNewline(s[k])
    {
      assert s[k] in s;
    }
    TakeWhileAt(NotNewline, text, pos, s);
  }

  /** `s` and `t` differ at a position both of them have, so neither is a
      prefix of the other. */
  predicate Clash(s: string, t: string) {
    exists i | 0 <= i < |s| && i < |t| :: s[i] != t[i]
  }

  /** Text after a clash does not undo it. */
  lemma ClashLonger(s: string, u: string, t: string)
    requires Clash(s, t)
    ensures Clash(s + u, t)
  {
    var i :| 0 <= i < |s| && i < |t| && s[i] != t[i];
    assert (s + u)[i] == s[i];
  }

  /** Where `text` holds `s`, what is left there starts with every prefix
      of `s`. */
  lemma AtPrefix(text: string, pos: nat, s: string, t: string)
    requires At(text, pos, s) && t <= s
    ensures t <= text[pos..]
  {
    AtIndex(text, pos, s);
    var r := text[pos..];
    forall k | 0 <= k < |t|
      ensures r[k] == t[k]
    {
      assert text[pos + k] == s[k];
    }
    assert t == r[..|t|];
  }

  /** Where `text` holds `s`, what is left there does not start with a
      string that clashes with `s`. */
  lemma AtClash(text: string, pos: nat, s: string, t: string)
    requires At(text, pos, s) && Clash(s, t)
    ensures !(t <= text[pos..])
  {
    AtIndex(text, pos, s);
    var i :| 0 <= i < |s| && i < |t| && s[i] != t[i];
    assert text[pos + i] == s[i];
    assert i < |text[pos..]| && text[pos..][i] == text[pos + i];
  }

  /** `a + b + c` holds `b` after `a`. */
  lemma AtMiddle(a: string, b: string, c: string)
    ensures At(a + b + c, |a|, b)
  {
    AtIndex(a + b + c, |a|, b);
    forall k | 0 <= k < |b|
      ensures (a + b + c)[|a| + k] == b[k]
    {
    }
  }
  /** A clash with `t` stays a clash with anything longer than `t`. */
  lemma ClashRight(s: string, t: string, u: string)
    requires Clash(s, t)
    ensures Clash(s, t + u)
  {
    var i :| 0 <= i < |s| && i < |t| && s[i] != t[i];
    assert (t + u)[i] == t[i];
  }

  /** A common prefix does not undo a clash. */
  lemma ClashShift(p: string, s: string, t: string)
    requires Clash(s, t)
    ensures Clash(p + s, p + t)
  {
    var i :| 0 <= i < |s| && i < |t| && s[i] != t[i];
    assert (p + s)[|p| + i] == s[i] && (p + t)[|p| + i] == t[i];
  }

  /** A token followed by whitespace clashes with a keyword and a space,
      unless it is that keyword followed by a space. */
  lemma TokenClash(kw: string, s: string, after: string)
    requires IsToken(kw) && IsToken(s) && after != [] && IsWhitespace(after[0])
    requires s != kw || after[0] != ' '
    ensures Clash(s + after, kw + " ")
  {
    var t := s + after;
    var u := kw + " ";
    if |s| < |kw| && s == kw[..|s|] {
      assert t[|s|] == after[0] && u[|s|] == kw[|s|];
    } else if |s| > |kw| {
      assert t[|kw|] == s[|kw|] && u[|kw|] == ' ';
    } else if |s| == |kw| && s == kw {
      assert t[|s|] == after[0] && u[|s|] == ' ';
    } else {
      var k := if |s| < |kw| then |s| else |kw|;
      assert s[..k] != kw[..k] by {
        if |s| == |kw| {
          assert s[..k] == s && kw[..k] == kw;
        } else {
          assert kw[..k] == kw[..|s|] && s[..k] == s;
        }
      }
      var i :| 0 <= i < k && s[..k][i] != kw[..k][i];
      assert t[i] == s[i] && u[i] == kw[i];
    }
  }

  /** `optional(kw)` reads `kw` and a space standing at the cursor. */
  lemma OptionalHit(kw: string, text: string, pos: nat, rest: string)
    requires At(text, pos, kw + " " + rest)
    ensures Optional(kw, Cursor(text, pos)).value == Parsed(true, Cursor(text, pos + |kw| + 1))
  {
    AtPrefix(text, pos, kw + " " + rest, kw + " ");
  }

  /** `optional(kw)` reads nothing where the text clashes with `kw` and a
      space. */
  lemma OptionalClash(kw: string, text: string, pos: nat, s: string)
    requires At(text, pos, s) && Clash(s, kw + " ")
    ensures Optional(kw, Cursor(text, pos)).value == Parsed(false, Cursor(text, pos))
  {
    AtClash(text, pos, s, kw + " ");
  }
  /** `optional(kw)` before `after`, which clashes with `kw` and a space,
      reads the modifier back and leaves `after`, at `end`. */
  lemma ProbeAt(kw: string, text: string, pos: nat, on: bool, after: string, end: nat)
    requires At(text, pos, Modifier(on, kw) + after) && Clash(after, kw + " ")
    requires end == pos + |Modifier(on, kw)|
    ensures Optional(kw, Cursor(text, pos)).value == Parsed(on, Cursor(text, end))
    ensures At(text, end, after)
  {
    AtSplit(text, pos, Modifier(on, kw), after);
    if on {
      OptionalHit(kw, text, pos, after);
    } else {
      assert Modifier(on, kw) + after == after;
      OptionalClash(kw, text, pos, after);
    }
  }
  /** Two probes in a row, before `after`. */
  lemma TwoProbesAt(kw1: string, kw2: string, text: string, pos: nat, a: bool, b: bool, after: string)
    requires Clash(kw2 + " ", kw1 + " ")
    requires At(text, pos, Modifier(a, kw1) + Modifier(b, kw2) + after)
    requires Clash(after, kw1 + " ") && Clash(after, kw2 + " ")
    ensures Optional(kw1, Cursor(text, pos)).value == Parsed(a, Cursor(text, pos + |Modifier(a, kw1)|))
    ensures Optional(kw2, Cursor(text, pos + |Modifier(a, kw1)|)).value
      == Parsed(b, Cursor(text, pos + |Modifier(a, kw1)| + |Modifier(b, kw2)|))
    ensures At(text, pos + |Modifier(a, kw1)| + |Modifier(b, kw2)|, after)
  {
    var rest := Modifier(b, kw2) + after;
    Assoc(Modifier(a, kw1), Modifier(b, kw2), after);
    if b {
      ClashLonger(kw2 + " ", after, kw1 + " ");
    }
    ProbeAt(kw1, text, pos, a, rest, pos + |Modifier(a, kw1)|);
    ProbeAt(kw2, text, pos + |Modifier(a, kw1)|, b, after, pos + |Modifier(a, kw1)| + |Modifier(b, kw2)|);
  }

  /** Regrouping a concatenation of three strings. */
  lemma Assoc(a: string, b: string, c: string)
    ensures a + b + c == a + (b + c)
  {
  }
}
