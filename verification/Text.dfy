/** The parts of the standard string library that the modelled code calls. */
module Text {
  import opened Wrappers

  /** Unicode White_Space. */
  predicate IsWhitespace(c: char) {
    || '\t' <= c <= '\r' || c == ' ' || c == '\U{85}' || c == '\U{A0}' || c == '\U{1680}'
    || '\U{2000}' <= c <= '\U{200A}' || c == '\U{2028}' || c == '\U{2029}' || c == '\U{202F}'
    || c == '\U{205F}' || c == '\U{3000}'
  }

  /** `trim` leaves nothing. */
  predicate IsBlank(s: string) {
    forall i :: 0 <= i < |s| ==> IsWhitespace(s[i])
  }

  predicate NoWhitespace(s: string) {
    forall i :: 0 <= i < |s| ==> !IsWhitespace(s[i])
  }

  predicate Lacks(s: string, c: char) {
    forall i :: 0 <= i < |s| ==> s[i] != c
  }

  /// Trimming

  function TrimStart(s: string): string {
    if s != "" && IsWhitespace(s[0]) then TrimStart(s[1..]) else s
  }

  function TrimEnd(s: string): string {
    if s != "" && IsWhitespace(s[|s| - 1]) then TrimEnd(s[..|s| - 1]) else s
  }

  function Trim(s: string): string {
    TrimEnd(TrimStart(s))
  }

  /** `trim_matches` for one character. */
  function TrimChar(s: string, c: char): string {
    if s != "" && s[0] == c then TrimChar(s[1..], c)
    else if s != "" && s[|s| - 1] == c then TrimChar(s[..|s| - 1], c)
    else s
  }

  function TrimEndChar(s: string, c: char): string {
    if s != "" && s[|s| - 1] == c then TrimEndChar(s[..|s| - 1], c) else s
  }

  lemma {:induction false} TrimStartIndented(indent: string, s: string)
    requires IsBlank(indent) && s != "" && !IsWhitespace(s[0])
    ensures TrimStart(indent + s) == s
  {
    if indent == "" {
      assert indent + s == s;
    } else {
      assert (indent + s)[1..] == indent[1..] + s;
      TrimStartIndented(indent[1..], s);
    }
  }

  /** What `TrimEnd` cuts off is blank. */
  lemma {:induction false} TrimEndCuts(s: string) returns (tail: string)
    ensures s == TrimEnd(s) + tail && IsBlank(tail)
    ensures TrimEnd(s) != "" ==> !IsWhitespace(TrimEnd(s)[|TrimEnd(s)| - 1])
  {
    if s != "" && IsWhitespace(s[|s| - 1]) {
      var t := TrimEndCuts(s[..|s| - 1]);
      tail := t + [s[|s| - 1]];
      assert s == s[..|s| - 1] + [s[|s| - 1]];
      assert s == TrimEnd(s) + (t + [s[|s| - 1]]);
    } else {
      tail := "";
      assert s == TrimEnd(s) + tail;
    }
  }

  lemma {:induction false} TrimEndAfter(head: string, s: string)
    requires s != "" && !IsWhitespace(s[0])
    ensures TrimEnd(head + s) == head + TrimEnd(s) && TrimEnd(s) != "" && TrimEnd(s)[0] == s[0]
  {
    if IsWhitespace(s[|s| - 1]) {
      assert (head + s)[..|head + s| - 1] == head + s[..|s| - 1];
      TrimEndAfter(head, s[..|s| - 1]);
    }
  }

  /** An indented line trims to its own text, less what trails it. */
  lemma TrimLine(indent: string, head: string, s: string)
    requires IsBlank(indent) && s != "" && !IsWhitespace(s[0]) && (head != "" ==> !IsWhitespace(head[0]))
    ensures Trim(indent + head + s) == head + TrimEnd(s)
  {
    assert indent + head + s == indent + (head + s);
    TrimStartIndented(indent, head + s);
    TrimEndAfter(head, s);
  }

  lemma TrimWhole(s: string)
    requires s != "" && !IsWhitespace(s[|s| - 1])
    ensures TrimEnd(s) == s
  {
  }

  lemma TrimCharNone(s: string, c: char)
    requires Lacks(s, c)
    ensures TrimChar(s, c) == s
  {
  }

  /// Tokens

  /** Up to the first whitespace. */
  function Word(s: string): (r: string)
    ensures |r| <= |s| && r == s[..|r|]
  {
    if s == "" || IsWhitespace(s[0]) then "" else [s[0]] + Word(s[1..])
  }

  /** `split_whitespace`. */
  function Words(s: string): seq<string>
    decreases |s|
  {
    if s == "" then []
    else if IsWhitespace(s[0]) then Words(s[1..])
    else [Word(s)] + Words(s[|Word(s)|..])
  }

  lemma WordIsWord(s: string)
    ensures NoWhitespace(Word(s))
    ensures Word(s) == s <==> NoWhitespace(s)
  {
  }

  lemma {:induction false} WordBefore(s: string, rest: string)
    requires NoWhitespace(s) && (rest != "" ==> IsWhitespace(rest[0]))
    ensures Word(s + rest) == s
  {
    if s == "" {
      assert s + rest == rest;
    } else {
      assert (s + rest)[1..] == s[1..] + rest;
      WordBefore(s[1..], rest);
    }
  }

  lemma {:induction false} WordOfTrimmed(s: string)
    ensures Word(TrimEnd(s)) == Word(s)
  {
    if s != "" && IsWhitespace(s[|s| - 1]) {
      WordOfTrimmed(s[..|s| - 1]);
      WordOfFront(s);
    }
  }

  lemma {:induction false} WordOfFront(s: string)
    requires s != "" && IsWhitespace(s[|s| - 1])
    ensures Word(s[..|s| - 1]) == Word(s)
  {
    if |s| > 1 && !IsWhitespace(s[0]) {
      assert s[..|s| - 1][1..] == s[1..][..|s[1..]| - 1];
      WordOfFront(s[1..]);
    }
  }

  /// Prefixes, substrings and splits

  predicate StartsWith(s: string, p: string) {
    |p| <= |s| && s[..|p|] == p
  }

  function StripPrefix(s: string, p: string): Option<string> {
    if StartsWith(s, p) then Some(s[|p|..]) else None
  }

  lemma StripOwn(p: string, s: string)
    ensures StripPrefix(p + s, p) == Some(s)
  {
    assert (p + s)[..|p|] == p && (p + s)[|p|..] == s;
  }

  /** They differ at `i`. */
  lemma NotPrefix(s: string, p: string, i: nat)
    requires i < |p| && (i < |s| ==> s[i] != p[i])
    ensures !StartsWith(s, p)
  {
    if |p| <= |s| {
      assert s[..|p|][i] == s[i];
    }
  }

  /** `trim_start_matches` for a string, which is taken off as often as it is there. */
  function TrimStartMatches(s: string, p: string): string
    requires p != ""
  {
    if StartsWith(s, p) then TrimStartMatches(s[|p|..], p) else s
  }

  predicate OccursAt(s: string, p: string, i: nat) {
    i + |p| <= |s| && s[i..i + |p|] == p
  }

  predicate Contains(s: string, p: string) {
    exists i: nat | i <= |s| :: OccursAt(s, p, i)
  }

  /** An occurrence cannot begin where its first character is not. */
  lemma ContainsAfter(head: string, s: string, p: string)
    requires p != "" && Lacks(head, p[0])
    ensures Contains(head + s, p) <==> Contains(s, p)
  {
    if Contains(head + s, p) {
      var i: nat :| i <= |head + s| && OccursAt(head + s, p, i);
      assert (head + s)[i..i + |p|][0] == (head + s)[i];
      assert i >= |head|;
      assert s[i - |head|..i - |head| + |p|] == p;
      assert OccursAt(s, p, i - |head|);
    }
    if Contains(s, p) {
      var i: nat :| i <= |s| && OccursAt(s, p, i);
      assert (head + s)[i + |head|..i + |head| + |p|] == p;
      assert OccursAt(head + s, p, i + |head|);
    }
  }

  /** Nor end where its last character is not. */
  lemma ContainsBefore(s: string, tail: string, p: string)
    requires p != "" && Lacks(tail, p[|p| - 1])
    ensures Contains(s + tail, p) <==> Contains(s, p)
  {
    if Contains(s + tail, p) {
      var i: nat :| i <= |s + tail| && OccursAt(s + tail, p, i);
      assert (s + tail)[i..i + |p|][|p| - 1] == (s + tail)[i + |p| - 1];
      assert i + |p| <= |s|;
      assert s[i..i + |p|] == p;
      assert OccursAt(s, p, i);
    }
    if Contains(s, p) {
      var i: nat :| i <= |s| && OccursAt(s, p, i);
      assert (s + tail)[i..i + |p|] == p;
      assert OccursAt(s + tail, p, i);
    }
  }

  lemma ContainsTrimmed(s: string, p: string)
    requires p != "" && !IsWhitespace(p[|p| - 1])
    ensures Contains(TrimEnd(s), p) <==> Contains(s, p)
  {
    var tail := TrimEndCuts(s);
    ContainsBefore(TrimEnd(s), tail, p);
  }

  lemma ContainsNot(s: string, p: string, c: char, i: nat)
    requires i < |p| && p[i] == c && Lacks(s, c)
    ensures !Contains(s, p)
  {
    forall k: nat | k <= |s|
      ensures !OccursAt(s, p, k)
    {
      if k + |p| <= |s| {
        assert s[k..k + |p|][i] == s[k + i];
      }
    }
  }

  function IndexOf(s: string, c: char): (i: nat)
    ensures i <= |s| && Lacks(s[..i], c) && (i < |s| ==> s[i] == c)
  {
    if s == "" || s[0] == c then 0
    else
      var i := IndexOf(s[1..], c) + 1;
      assert s[..i] == [s[0]] + s[1..][..i - 1];
      i
  }

  lemma {:induction false} IndexOfFirst(s: string, c: char, rest: string)
    requires Lacks(s, c)
    ensures IndexOf(s + [c] + rest, c) == |s| && IndexOf(s, c) == |s|
  {
    if s != "" {
      assert (s + [c] + rest)[1..] == s[1..] + [c] + rest;
      IndexOfFirst(s[1..], c, rest);
    }
  }

  /** `rsplit_once`. */
  function RSplitOnce(s: string, c: char): Option<(string, string)> {
    if s == "" then None
    else if s[|s| - 1] == c then Some((s[..|s| - 1], ""))
    else
      match RSplitOnce(s[..|s| - 1], c)
      case None => None
      case Some(r) => Some((r.0, r.1 + [s[|s| - 1]]))
  }

  lemma {:induction false} RSplitLast(a: string, c: char, b: string)
    requires Lacks(b, c)
    ensures RSplitOnce(a + [c] + b, c) == Some((a, b))
  {
    var s := a + [c] + b;
    if b == "" {
      assert s[..|s| - 1] == a;
    } else {
      var front := b[..|b| - 1];
      assert s[..|s| - 1] == a + [c] + front;
      RSplitLast(a, c, front);
      assert b == front + [b[|b| - 1]];
    }
  }

  lemma RSplitNone(s: string, c: char)
    requires Lacks(s, c)
    ensures RSplitOnce(s, c) == None
  {
  }

  /// Lines

  function StripCr(s: string): string {
    if s != "" && s[|s| - 1] == '\r' then s[..|s| - 1] else s
  }

  /** `lines`: what ends in a line feed, less a carriage return before it, and then what is left over. */
  function Lines(s: string): seq<string>
    decreases |s|
  {
    if s == "" then []
    else
      var i := IndexOf(s, '\n');
      if i == |s| then [s] else [StripCr(s[..i])] + Lines(s[i + 1..])
  }

  function Unlines(lines: seq<string>): string {
    if lines == [] then "" else lines[0] + "\n" + Unlines(lines[1..])
  }

  predicate IsLine(s: string) {
    Lacks(s, '\n') && Lacks(s, '\r')
  }

  lemma {:induction false} LinesOfUnlines(lines: seq<string>)
    requires forall i :: 0 <= i < |lines| ==> IsLine(lines[i])
    ensures Lines(Unlines(lines)) == lines
  {
    if lines != [] {
      var s := Unlines(lines);
      var line, rest := lines[0], Unlines(lines[1..]);
      assert s == line + ['\n'] + rest;
      IndexOfFirst(line, '\n', rest);
      assert s[..|line|] == line && s[|line| + 1..] == rest;
      LinesOfUnlines(lines[1..]);
      assert StripCr(line) == line;
    }
  }

  lemma {:induction false} UnlinesJoin(a: seq<string>, b: seq<string>)
    ensures Unlines(a + b) == Unlines(a) + Unlines(b)
  {
    if a == [] {
      assert a + b == b;
    } else {
      assert (a + b)[1..] == a[1..] + b;
      UnlinesJoin(a[1..], b);
      assert a[0] + "\n" + (Unlines(a[1..]) + Unlines(b)) == a[0] + "\n" + Unlines(a[1..]) + Unlines(b);
    }
  }

  /// Numbers

  predicate IsDigit(c: char) {
    '0' <= c <= '9'
  }

  predicate AllDigits(s: string) {
    forall i :: 0 <= i < |s| ==> IsDigit(s[i])
  }

  function DigitChar(d: nat): char
    requires d < 10
  {
    ('0' as int + d) as char
  }

  function Decimal(n: nat): (r: string)
    ensures r != "" && AllDigits(r)
  {
    if n < 10 then [DigitChar(n)] else Decimal(n / 10) + [DigitChar(n % 10)]
  }

  function Digits(s: string): (r: string)
    ensures |r| <= |s| && r == s[..|r|] && AllDigits(r)
  {
    if s == "" || !IsDigit(s[0]) then "" else [s[0]] + Digits(s[1..])
  }

  lemma {:induction false} DigitsBefore(s: string, rest: string)
    requires AllDigits(s) && (rest != "" ==> !IsDigit(rest[0]))
    ensures Digits(s + rest) == s
  {
    if s == "" {
      assert s + rest == rest;
    } else {
      assert (s + rest)[1..] == s[1..] + rest;
      DigitsBefore(s[1..], rest);
    }
  }
}
