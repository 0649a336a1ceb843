/** What stripping and filtering leave of a line, and a log with either line ending. */
module LogTwins {
  import opened LogTail
  import opened Wrappers

  predicate Bare(t: seq<byte>) {
    t == [] || (t[|t| - 1] != NEWLINE && t[|t| - 1] != RETURN)
  }

  /** Both line endings go, or either alone. */
  lemma StrippedEnding(t: seq<byte>)
    requires Bare(t)
    ensures Stripped(t + [13, 10]) == t && Stripped(t + [10]) == t && Stripped(t + [13]) == t && Stripped(t) == t
  {
    var crlf, lf, cr := t + [13, 10], t + [10], t + [13];
    assert crlf[..|t| + 1] == cr && lf[..|t|] == t && cr[..|t|] == t;
    assert EndsLine(crlf) && EndsLine(lf) && !EndsLine(cr) && !EndsLine(t);
  }

  /** And no more than one of each. */
  lemma StrippedOnce(t: seq<byte>)
    ensures Stripped(t + [13, 13, 10]) == t + [13] && Stripped(t + [10, 10]) == t + [10]
  {
    var two := t + [13, 13, 10];
    assert EndsLine(two) && two[..|t| + 2][..|t| + 1] == t + [13];
    assert (t + [10, 10])[..|t| + 1] == t + [10];
  }

  lemma ContainsExactly(text: seq<byte>, k: seq<byte>)
    ensures Contains(text, k) <==> exists a, b :: text == a + k + b
  {
    if Contains(text, k) {
      var i :| 0 <= i <= |text| - |k| && text[i..][..|k|] == k;
      assert text == text[..i] + k + text[i + |k|..];
    }
    forall a, b | text == a + k + b
      ensures Contains(text, k)
    {
      assert text[|a|..][..|k|] == k;
    }
  }

  /** Without a keyword a line is always taken; with one exactly when it occurs anywhere in the decoded line. */
  lemma SelectedExactly(f: Decoder, k: seq<byte>, l: seq<byte>)
    ensures Selected(f, None, l) == [f(Stripped(l))]
    ensures Selected(f, Some(k), l) == [f(Stripped(l))] || Selected(f, Some(k), l) == []
    ensures Selected(f, Some(k), l) == [f(Stripped(l))] <==> exists a, b :: f(Stripped(l)) == a + k + b
  {
    hide Contains, Stripped;
    ContainsExactly(f(Stripped(l)), k);
  }

  /// Line endings

  /** The same text with a carriage return before every newline. */
  function Crlf(d: seq<byte>): seq<byte> {
    if d == [] then [] else (if d[0] == NEWLINE then [RETURN, NEWLINE] else [d[0]]) + Crlf(d[1..])
  }

  /** No line of the text ends in a carriage return of its own. */
  predicate PlainEndings(d: seq<byte>) {
    forall i :: 0 <= i < |d| - 1 && d[i] == RETURN ==> d[i + 1] != NEWLINE
  }

  lemma CrlfLine(t: seq<byte>, rest: seq<byte>)
    requires !HasNewline(t)
    ensures Crlf(t + [NEWLINE] + rest) == t + [RETURN, NEWLINE] + Crlf(rest)
  {
    var d := t + [NEWLINE] + rest;
    if t == [] {
      assert d[1..] == rest;
    } else {
      assert d[1..] == t[1..] + [NEWLINE] + rest;
      CrlfLine(t[1..], rest);
    }
  }

  lemma CrlfWithout(t: seq<byte>)
    requires !HasNewline(t)
    ensures Crlf(t) == t
  {
  }

  lemma LineOf(t: seq<byte>, e: seq<byte>, rest: seq<byte>)
    requires !HasNewline(t) && (e == [NEWLINE] || e == [RETURN, NEWLINE])
    ensures Lines(t + e + rest) == [t + e] + Lines(rest)
  {
    LinesComplete(t, e, rest);
    Regroup(t, e, rest);
    assert e[..|e|] == e && [] + rest == rest;
  }

  /** The lines are the same but for their endings. */
  lemma {:induction false} CrlfLines(d: seq<byte>)
    requires PlainEndings(d)
    ensures |Lines(Crlf(d))| == |Lines(d)|
    ensures forall i :: 0 <= i < |Lines(d)| ==> Stripped(Lines(Crlf(d))[i]) == Stripped(Lines(d)[i]) && |Lines(d)[i]| <= |Lines(Crlf(d))[i]|
    decreases |d|
  {
    hide Stripped, HasNewline, Crlf;
    var n := LineEnd(d);
    LineEndIsFirstNewline(d);
    if HasNewline(d) {
      var t, rest := d[..n - 1], d[n..];
      assert d == t + [NEWLINE] + rest;
      LineEndIsFirstNewline(t);
      CrlfLine(t, rest);
      LineOf(t, [NEWLINE], rest);
      LineOf(t, [RETURN, NEWLINE], Crlf(rest));
      assert Bare(t);
      StrippedEnding(t);
      CrlfLines(rest);
    } else {
      CrlfWithout(d);
    }
  }

  lemma {:induction false} SameTexts(f: Decoder, keyword: Option<seq<byte>>, a: seq<seq<byte>>, b: seq<seq<byte>>)
    requires |a| == |b| && forall i :: 0 <= i < |a| ==> Stripped(a[i]) == Stripped(b[i])
    ensures Matching(f, keyword, a) == Matching(f, keyword, b)
  {
    if a != [] {
      SameTexts(f, keyword, a[..|a| - 1], b[..|b| - 1]);
    }
  }

  /**
   A log and its twin with the other line endings are answered alike, errors included, unless the
   carriage returns make some line too long.
   */
  lemma CrlfTwin(d: seq<byte>, broken: bool, f: Decoder, maxLines: nat, keyword: Option<seq<byte>>)
    requires PlainEndings(d)
    ensures var lf, crlf := BoundedTailOf(Stream(d, broken), f, maxLines, keyword), BoundedTailOf(Stream(Crlf(d), broken), f, maxLines, keyword);
            crlf == if HasLongLine(Lines(Crlf(d))) then Err(LineTooLong) else lf
  {
    hide Lines, Matching, Stripped, TailOf;
    CrlfLines(d);
    SameTexts(f, keyword, Lines(Crlf(d)), Lines(d));
  }
}
