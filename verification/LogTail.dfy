/**
 The bounded log tail of src/api/v1/log.rs: one pass over a buffered reader that keeps the last
 matching lines within a line limit and a byte limit.
 */
module LogTail {
  import opened Wrappers

  newtype byte = b: int | 0 <= b < 256

  const MAX_LOG_LINES: nat := 10_000
  const MAX_LOG_LINE_BYTES: nat := 64 * 1024
  const MAX_LOG_TAIL_BYTES: nat := 4 * 1024 * 1024

  const NEWLINE: byte := 10
  const RETURN: byte := 13

  datatype IoError = LineTooLong | ReadFailed

  /** Lossy UTF-8 decoding: at worst each byte becomes the three bytes of U+FFFD. */
  type Decoder = f: seq<byte> -> seq<byte> | forall l :: |f(l)| <= 3 * |l| witness (l: seq<byte>) => l

  /// The reader

  /** What the underlying file gives to one read: bytes (none at the end of the file), or an error. */
  datatype Read = Chunk(bytes: seq<byte>) | Failure

  /** The bytes a reader will deliver, and whether a read error follows them. */
  datatype Stream = Stream(data: seq<byte>, broken: bool)

  function Delivered(buffer: seq<byte>, feed: seq<Read>): Stream
    decreases |feed|
  {
    if feed == [] then Stream(buffer, false)
    else
      match feed[0]
      case Failure => Stream(buffer, true)
      case Chunk(bytes) =>
        if bytes == [] then Stream(buffer, false)
        else
          var rest := Delivered(bytes, feed[1..]);
          Stream(buffer + rest.data, rest.broken)
  }

  class Reader {
    var buffer: seq<byte>
    var feed: seq<Read>

    constructor (feed: seq<Read>)
      ensures this.feed == feed && buffer == []
    {
      this.feed := feed;
      this.buffer := [];
    }

    function Contents(): Stream
      reads this
    {
      Delivered(buffer, feed)
    }

    /** `fill_buf`: the unread part of the buffer, refilled by one read when it is empty. */
    method FillBuf() returns (r: Result<seq<byte>, IoError>, ghost rest: seq<byte>)
      modifies this
      ensures r.Ok? ==> r.value == buffer && Contents() == old(Contents()) && Contents().data == buffer + rest
      ensures r.Ok? && r.value == [] ==> old(Contents()) == Stream([], false)
      ensures r.Err? ==> r.error == ReadFailed && old(Contents()) == Stream([], true)
      ensures |feed| <= old(|feed|)
      ensures r.Ok? && old(buffer) == [] && r.value != [] ==> |feed| < old(|feed|)
      ensures old(buffer) != [] ==> r.Ok? && feed == old(feed) && buffer == old(buffer)
    {
      DeliveredAfter(buffer, feed);
      rest := Delivered([], feed).data;
      if buffer != [] || feed == [] {
        return Ok(buffer), rest;
      }
      match feed[0] {
        case Failure =>
          r := Err(ReadFailed);
        case Chunk(bytes) =>
          if bytes == [] {
            r := Ok([]);
          } else {
            buffer, feed := bytes, feed[1..];
            DeliveredAfter(buffer, feed);
            r, rest := Ok(buffer), Delivered([], feed).data;
          }
      }
    }

    method Consume(n: nat, ghost rest: seq<byte>)
      requires n <= |buffer| && Contents().data == buffer + rest
      modifies this
      ensures buffer == old(buffer)[n..] && feed == old(feed)
      ensures Contents() == Stream(old(buffer)[n..] + rest, old(Contents().broken))
    {
      DeliveredAfter(buffer, feed);
      DeliveredAfter(buffer[n..], feed);
      assert (buffer + rest)[|buffer|..] == rest;
      assert (buffer + Delivered([], feed).data)[|buffer|..] == Delivered([], feed).data;
      buffer := buffer[n..];
    }
  }

  function Flatten(chunks: seq<seq<byte>>): seq<byte> {
    if chunks == [] then [] else chunks[0] + Flatten(chunks[1..])
  }

  /** The bytes, all of them and nothing else, cut into the chunks that the feed gives. */
  predicate Cuts(feed: seq<Read>, data: seq<byte>) {
    if feed == [] then data == []
    else feed[0].Chunk? && feed[0].bytes != [] && feed[0].bytes <= data && Cuts(feed[1..], data[|feed[0].bytes|..])
  }

  lemma ChunkDelivered(feed: seq<Read>, b: seq<byte>, rest: seq<byte>)
    requires feed != [] && feed[0] == Chunk(b) && b != [] && Delivered([], feed[1..]) == Stream(rest, false)
    ensures Delivered([], feed) == Stream(b + rest, false)
  {
    DeliveredAfter(b, feed[1..]);
  }

  lemma PrefixAndRest<T>(a: seq<T>, s: seq<T>)
    requires a <= s
    ensures a + s[|a|..] == s
  {
  }

  lemma CutsDeliver(feed: seq<Read>, data: seq<byte>)
    requires Cuts(feed, data)
    ensures Delivered([], feed) == Stream(data, false)
  {
  }

  lemma DeliveredAfter(buffer: seq<byte>, feed: seq<Read>)
    ensures Delivered(buffer, feed).data == buffer + Delivered([], feed).data
    ensures Delivered(buffer, feed).broken == Delivered([], feed).broken
  {
  }

  /// Lines

  predicate HasNewline(d: seq<byte>) {
    d != [] && (d[0] == NEWLINE || HasNewline(d[1..]))
  }

  /** The length of the first line of `d`, its newline included. */
  function LineEnd(d: seq<byte>): (n: nat)
    ensures n <= |d| && (d != [] ==> n > 0)
  {
    if d == [] then 0 else if d[0] == NEWLINE then 1 else 1 + LineEnd(d[1..])
  }

  /** The first line ends at the first newline, or is everything. */
  lemma LineEndIsFirstNewline(d: seq<byte>)
    ensures HasNewline(d) <==> NEWLINE in d
    ensures forall i :: 0 <= i < LineEnd(d) - 1 ==> d[i] != NEWLINE
    ensures if HasNewline(d) then d[LineEnd(d) - 1] == NEWLINE else LineEnd(d) == |d|
  {
  }

  lemma LineEndWithout(d: seq<byte>)
    requires !HasNewline(d)
    ensures LineEnd(d) == |d|
  {
  }

  /** The lines of `d` with their newlines; only the last may lack one. */
  function Lines(d: seq<byte>): seq<seq<byte>>
    decreases |d|
  {
    if d == [] then [] else [d[..LineEnd(d)]] + Lines(d[LineEnd(d)..])
  }

  predicate IsLine(l: seq<byte>) {
    l != [] && forall i :: 0 <= i < |l| - 1 ==> l[i] != NEWLINE
  }

  predicate EndsLine(l: seq<byte>) {
    l != [] && l[|l| - 1] == NEWLINE
  }

  /** Splitting loses nothing: the lines concatenate to the input. */
  lemma {:induction false} LinesPartition(d: seq<byte>)
    ensures Flatten(Lines(d)) == d
    decreases |d|
  {
    if d != [] {
      var n := LineEnd(d);
      LinesPartition(d[n..]);
      var rest := Lines(d[n..]);
      assert ([d[..n]] + rest)[1..] == rest;
      assert d[..n] + d[n..] == d;
    }
  }

  /** Splitting cuts after every newline and nowhere else. */
  lemma {:induction false} LinesAreLines(d: seq<byte>)
    ensures forall k :: 0 <= k < |Lines(d)| ==> IsLine(Lines(d)[k])
    ensures forall k :: 0 <= k < |Lines(d)| - 1 ==> EndsLine(Lines(d)[k])
    decreases |d|
  {
    if d != [] {
      var n := LineEnd(d);
      LineEndIsFirstNewline(d);
      assert IsLine(d[..n]);
      LinesAreLines(d[n..]);
    }
  }

  lemma LineEndAfter(line: seq<byte>, d: seq<byte>)
    requires !HasNewline(line)
    ensures LineEnd(line + d) == |line| + LineEnd(d)
  {
    if line != [] {
      assert (line + d)[1..] == line[1..] + d;
      LineEndAfter(line[1..], d);
    } else {
      assert line + d == d;
    }
  }

  lemma LineEndPrefix(b: seq<byte>, d: seq<byte>)
    ensures LineEnd(b + d) >= LineEnd(b)
    ensures HasNewline(b) ==> LineEnd(b + d) == LineEnd(b)
  {
    if HasNewline(b) {
      if b[0] != NEWLINE {
        assert (b + d)[1..] == b[1..] + d;
        LineEndPrefix(b[1..], d);
      }
    } else {
      LineEndAfter(b, d);
      LineEndWithout(b);
    }
  }

  lemma LinesComplete(line: seq<byte>, b: seq<byte>, d: seq<byte>)
    requires !HasNewline(line) && HasNewline(b)
    ensures Lines(line + (b + d)) == [line + b[..LineEnd(b)]] + Lines(b[LineEnd(b)..] + d)
  {
    var whole, n := line + (b + d), LineEnd(b);
    LineEndAfter(line, b + d);
    LineEndPrefix(b, d);
    CutInside(line, b, d, n);
    assert LineEnd(whole) == |line| + n;
  }

  lemma CutInside<A>(a: seq<A>, b: seq<A>, c: seq<A>, n: nat)
    requires n <= |b|
    ensures (a + (b + c))[..|a| + n] == a + b[..n]
    ensures (a + (b + c))[|a| + n..] == b[n..] + c
  {
  }

  lemma NoNewlineAppend(a: seq<byte>, b: seq<byte>)
    requires !HasNewline(a) && !HasNewline(b)
    ensures !HasNewline(a + b)
  {
    if a == [] {
      assert a + b == b;
    } else {
      assert (a + b)[1..] == a[1..] + b;
      NoNewlineAppend(a[1..], b);
    }
  }

  lemma LinesOfOne(line: seq<byte>)
    requires !HasNewline(line)
    ensures Lines(line) == if line == [] then [] else [line]
  {
    LineEndWithout(line);
    if line != [] {
      assert line[..|line|] == line && line[|line|..] == [];
    }
  }

  function Stripped(l: seq<byte>): seq<byte> {
    var l1 := if EndsLine(l) then l[..|l| - 1] else l;
    if l1 != [] && l1[|l1| - 1] == RETURN then l1[..|l1| - 1] else l1
  }

  predicate Contains(text: seq<byte>, keyword: seq<byte>) {
    exists i :: 0 <= i <= |text| - |keyword| && text[i..][..|keyword|] == keyword
  }

  predicate Matches(text: seq<byte>, keyword: Option<seq<byte>>) {
    keyword.None? || Contains(text, keyword.value)
  }

  /** The decoded line, if it contains the keyword. */
  function Selected(f: Decoder, keyword: Option<seq<byte>>, l: seq<byte>): (r: seq<seq<byte>>)
    ensures |r| <= 1
  {
    var text := f(Stripped(l));
    if Matches(text, keyword) then [text] else []
  }

  /** The decoded lines that contain the keyword, in order. */
  function Matching(f: Decoder, keyword: Option<seq<byte>>, lines: seq<seq<byte>>): seq<seq<byte>> {
    if lines == [] then []
    else Matching(f, keyword, lines[..|lines| - 1]) + Selected(f, keyword, lines[|lines| - 1])
  }

  lemma MatchingNext(f: Decoder, keyword: Option<seq<byte>>, lines: seq<seq<byte>>, l: seq<byte>)
    ensures Matching(f, keyword, lines + [l]) == Matching(f, keyword, lines) + Selected(f, keyword, l)
  {
    assert (lines + [l])[..|lines|] == lines;
  }

  /// The suffix that is kept

  function Bytes(ms: seq<seq<byte>>): nat {
    if ms == [] then 0 else Bytes(ms[..|ms| - 1]) + |ms[|ms| - 1]|
  }

  lemma {:induction false} BytesSplit(a: seq<seq<byte>>, b: seq<seq<byte>>)
    ensures Bytes(a + b) == Bytes(a) + Bytes(b)
  {
    if b == [] {
      assert a + b == a;
    } else {
      assert (a + b)[..|a + b| - 1] == a + b[..|b| - 1];
      BytesSplit(a, b[..|b| - 1]);
    }
  }

  function Last(ms: seq<seq<byte>>, k: nat): seq<seq<byte>>
    requires k <= |ms|
  {
    ms[|ms| - k..]
  }

  predicate Fits(ms: seq<seq<byte>>, k: nat, limit: nat, cap: nat) {
    k <= |ms| && k <= limit && Bytes(Last(ms, k)) <= cap
  }

  /** How many of the last lines are kept within both limits. */
  function Kept(ms: seq<seq<byte>>, limit: nat, cap: nat): (k: nat)
    ensures k <= |ms| && k <= limit
  {
    if ms == [] || limit == 0 || |ms[|ms| - 1]| > cap then 0
    else 1 + Kept(ms[..|ms| - 1], limit - 1, cap - |ms[|ms| - 1]|)
  }

  /** `Kept` is the length of the longest suffix within both limits. */
  lemma {:induction false} KeptIsLongest(ms: seq<seq<byte>>, limit: nat, cap: nat, k: nat)
    ensures Fits(ms, k, limit, cap) <==> k <= Kept(ms, limit, cap)
  {
    if 0 < k <= |ms| {
      var init, last := ms[..|ms| - 1], ms[|ms| - 1];
      assert Last(ms, k) == Last(init, k - 1) + [last];
      assert Last(ms, k)[..k - 1] == Last(init, k - 1);
      if |last| <= cap && limit > 0 {
        KeptIsLongest(init, limit - 1, cap - |last|, k - 1);
      }
    }
  }

  /** Dropping lines from the front until both limits hold keeps the longest fitting suffix. */
  lemma KeptNext(ms: seq<seq<byte>>, text: seq<byte>, limit: nat, cap: nat, k: nat)
    requires k <= Kept(ms, limit, cap) + 1
    requires Fits(ms + [text], k, limit, cap)
    requires k == Kept(ms, limit, cap) + 1 || !Fits(ms + [text], k + 1, limit, cap)
    ensures k == Kept(ms + [text], limit, cap)
  {
    var all, was := ms + [text], Kept(ms, limit, cap);
    KeptIsLongest(all, limit, cap, k);
    KeptIsLongest(all, limit, cap, k + 1);
    if k == was + 1 && k < |all| {
      KeptIsLongest(ms, limit, cap, k);
      assert Last(all, k + 1) == Last(ms, k) + [text];
      assert Last(all, k + 1)[..k] == Last(ms, k);
    }
  }

  /** Whether some turn of the loop found more than `cap` bytes after pushing a line. */
  predicate CapHit(ms: seq<seq<byte>>, limit: nat, cap: nat) {
    && ms != []
    && var init := ms[..|ms| - 1];
       CapHit(init, limit, cap) || Bytes(Last(init, Kept(init, limit, cap))) + |ms[|ms| - 1]| > cap
  }

  /** The first `n` lines of `ms` end in a run of at most `limit + 1` lines of more than `cap` bytes. */
  predicate HeavyRunAt(ms: seq<seq<byte>>, limit: nat, cap: nat, n: nat) {
    n <= |ms| && Bytes(Last(ms[..n], Min(n, limit + 1))) > cap
  }

  function Min(a: nat, b: nat): nat {
    if a <= b then a else b
  }

  /** Without a flag nothing was dropped for its bytes: exactly the last `limit` lines remain. */
  lemma {:induction false} UntruncatedKeepsAll(ms: seq<seq<byte>>, limit: nat, cap: nat)
    requires !CapHit(ms, limit, cap)
    ensures Kept(ms, limit, cap) == Min(|ms|, limit)
  {
    if ms != [] && limit > 0 {
      var init, last := ms[..|ms| - 1], ms[|ms| - 1];
      UntruncatedKeepsAll(init, limit, cap);
      var k := Min(|ms|, limit);
      LastSnoc(ms, k);
      BytesMonotone(init, k - 1, Kept(init, limit, cap));
      KeptIsLongest(ms, limit, cap, k);
    }
  }

  lemma LastSnoc(ms: seq<seq<byte>>, k: nat)
    requires 0 < k <= |ms|
    ensures Bytes(Last(ms, k)) == Bytes(Last(ms[..|ms| - 1], k - 1)) + |ms[|ms| - 1]|
  {
    assert Last(ms, k)[..k - 1] == Last(ms[..|ms| - 1], k - 1);
  }

  lemma BytesMonotone(ms: seq<seq<byte>>, j: nat, k: nat)
    requires j <= k <= |ms|
    ensures Bytes(Last(ms, j)) <= Bytes(Last(ms, k))
  {
    assert Last(ms, k) == Last(ms, k)[..k - j] + Last(ms, j);
    BytesSplit(Last(ms, k)[..k - j], Last(ms, j));
  }

  /**
   The flag is set exactly when some run of at most `limit + 1` consecutive matching lines has
   more than `cap` bytes: one line more than the limit, because the byte test comes before the
   line that falls out of the limit has been dropped.
   */
  lemma {:induction false} CapHitExactly(ms: seq<seq<byte>>, limit: nat, cap: nat)
    ensures CapHit(ms, limit, cap) <==> exists n :: HeavyRunAt(ms, limit, cap, n)
  {
    if ms == [] {
    } else {
      var init, last := ms[..|ms| - 1], ms[|ms| - 1];
      CapHitExactly(init, limit, cap);
      forall n | 0 <= n <= |init|
        ensures HeavyRunAt(init, limit, cap, n) <==> HeavyRunAt(ms, limit, cap, n)
      {
        assert ms[..n] == init[..n];
      }
      if !CapHit(init, limit, cap) {
        UntruncatedKeepsAll(init, limit, cap);
        var k := Min(|ms|, limit + 1);
        assert ms[..|ms|] == ms;
        LastSnoc(ms, k);
        assert HeavyRunAt(ms, limit, cap, |ms|) <==> Bytes(Last(init, k - 1)) + |last| > cap;
      } else {
        var n :| HeavyRunAt(init, limit, cap, n);
        assert HeavyRunAt(ms, limit, cap, n);
      }
    }
  }

  /// The whole result

  datatype Tail = Tail(lines: seq<seq<byte>>, total: nat, truncated: bool)

  /** Some line, its newline included, is longer than the line buffer may grow. */
  predicate HasLongLine(lines: seq<seq<byte>>) {
    exists i :: 0 <= i < |lines| && |lines[i]| > MAX_LOG_LINE_BYTES
  }

  function Limit(maxLines: nat): nat {
    Min(maxLines, MAX_LOG_LINES)
  }

  function TailOf(ms: seq<seq<byte>>, maxLines: nat): Tail {
    var limit := Limit(maxLines);
    Tail(Last(ms, Kept(ms, limit, MAX_LOG_TAIL_BYTES)), |ms|,
         (limit > 0 && CapHit(ms, limit, MAX_LOG_TAIL_BYTES)) || maxLines > MAX_LOG_LINES)
  }

  /** The result, as a function of the delivered bytes alone. */
  function BoundedTailOf(s: Stream, f: Decoder, maxLines: nat, keyword: Option<seq<byte>>): Result<Tail, IoError> {
    var lines := Lines(s.data);
    if HasLongLine(lines) then Err(LineTooLong)
    else if s.broken then Err(ReadFailed)
    else Ok(TailOf(Matching(f, keyword, lines), maxLines))
  }

  /// The loop

  /** The state of the loop after the matching lines `ms`. */
  ghost predicate Tracks(ms: seq<seq<byte>>, limit: nat, cap: nat,
                         tail: seq<seq<byte>>, total: nat, bytes: nat, truncated: bool)
  {
    && total == |ms|
    && tail == Last(ms, Kept(ms, limit, cap))
    && bytes == Bytes(tail)
    && (truncated <==> limit > 0 && CapHit(ms, limit, cap))
  }

  lemma CapHitNext(ms: seq<seq<byte>>, text: seq<byte>, limit: nat, cap: nat)
    ensures CapHit(ms + [text], limit, cap)
            <==> CapHit(ms, limit, cap) || Bytes(Last(ms, Kept(ms, limit, cap))) + |text| > cap
  {
    assert (ms + [text])[..|ms|] == ms;
  }

  lemma LastPush(ms: seq<seq<byte>>, k: nat, text: seq<byte>)
    requires k <= |ms|
    ensures Last(ms + [text], k + 1) == Last(ms, k) + [text]
    ensures Bytes(Last(ms, k) + [text]) == Bytes(Last(ms, k)) + |text|
  {
    assert (Last(ms, k) + [text])[..k] == Last(ms, k);
  }

  /** Pop lines from the front until both limits hold; note whether the byte limit ever failed. */
  method PopOverflow(ghost all: seq<seq<byte>>, ghost k0: nat, tail: seq<seq<byte>>, bytes: nat, truncated: bool,
                     limit: nat, cap: nat)
    returns (tail': seq<seq<byte>>, bytes': nat, truncated': bool, ghost k: nat)
    requires k0 <= |all| && tail == Last(all, k0) && bytes == Bytes(Last(all, k0))
    ensures k <= k0 && tail' == Last(all, k) && bytes' == Bytes(Last(all, k))
    ensures k <= limit && bytes' <= cap
    ensures k == k0 || k + 1 > limit || Bytes(Last(all, k + 1)) > cap
    ensures truncated' <==> truncated || bytes > cap
  {
    tail', bytes', truncated', k := tail, bytes, truncated, k0;
    while |tail'| > limit || bytes' > cap
      invariant k <= k0 && tail' == Last(all, k) && bytes' == Bytes(Last(all, k))
      invariant k == k0 || k + 1 > limit || Bytes(Last(all, k + 1)) > cap
      invariant truncated || bytes > cap <==> truncated' || bytes' > cap
      decreases k
    {
      if bytes' > cap {
        truncated' := true;
      }
      assert k > 0 by {
        assert Last(all, 0) == [];
      }
      assert && Last(all, k)[1..] == Last(all, k - 1)
             && Bytes(Last(all, k)) == |Last(all, k)[0]| + Bytes(Last(all, k - 1)) by {
        var tail := Last(all, k);
        BytesSplit([tail[0]], tail[1..]);
        assert [tail[0]] + tail[1..] == tail;
        assert [tail[0]][..0] == [];
      }
      bytes' := bytes' - |tail'[0]|;
      tail', k := tail'[1..], k - 1;
    }
  }

  /** Push one matching line and restore both limits. */
  method PushBounded(ghost ms: seq<seq<byte>>, tail: seq<seq<byte>>, total: nat, bytes: nat, truncated: bool,
                     text: seq<byte>, limit: nat, cap: nat)
    returns (tail': seq<seq<byte>>, bytes': nat, truncated': bool)
    requires limit > 0 && Tracks(ms, limit, cap, tail, total, bytes, truncated)
    ensures Tracks(ms + [text], limit, cap, tail', total + 1, bytes', truncated')
  {
    ghost var all, was := ms + [text], Kept(ms, limit, cap);
    LastPush(ms, was, text);
    CapHitNext(ms, text, limit, cap);
    ghost var k: nat;
    tail', bytes', truncated', k := PopOverflow(all, was + 1, tail + [text], bytes + |text|, truncated, limit, cap);
    KeptNext(ms, text, limit, cap, k);
  }

  /** Strip, decode, filter and keep one complete line. */
  method TakeLine(raw: seq<byte>, f: Decoder, keyword: Option<seq<byte>>, limit: nat, cap: nat,
                  ghost ms: seq<seq<byte>>, tail: seq<seq<byte>>, total: nat, bytes: nat, truncated: bool)
    returns (tail': seq<seq<byte>>, total': nat, bytes': nat, truncated': bool)
    requires Tracks(ms, limit, cap, tail, total, bytes, truncated)
    ensures Tracks(ms + Selected(f, keyword, raw), limit, cap, tail', total', bytes', truncated')
  {
    var line := Strip(raw);
    var text := f(line);
    var matching := Matches(text, keyword);
    ghost var chosen := if matching then [text] else [];
    assert Selected(f, keyword, raw) == chosen;
    tail', total', bytes', truncated' := TakeText(text, matching, limit, cap, ms, tail, total, bytes, truncated);
  }

  method Strip(raw: seq<byte>) returns (line: seq<byte>)
    ensures line == Stripped(raw)
  {
    line := raw;
    if line != [] && line[|line| - 1] == NEWLINE {
      line := line[..|line| - 1];
    }
    if line != [] && line[|line| - 1] == RETURN {
      line := line[..|line| - 1];
    }
  }

  method TakeText(text: seq<byte>, matching: bool, limit: nat, cap: nat,
                  ghost ms: seq<seq<byte>>, tail: seq<seq<byte>>, total: nat, bytes: nat, truncated: bool)
    returns (tail': seq<seq<byte>>, total': nat, bytes': nat, truncated': bool)
    requires Tracks(ms, limit, cap, tail, total, bytes, truncated)
    ensures Tracks(ms + (if matching then [text] else []), limit, cap, tail', total', bytes', truncated')
  {
    tail', total', bytes', truncated' := tail, total, bytes, truncated;
    if matching {
      total' := total' + 1;
      if limit > 0 {
        tail', bytes', truncated' := PushBounded(ms, tail, total, bytes, truncated, text, limit, cap);
      }
    } else {
      assert ms + [] == ms;
    }
  }

  /** `seen` and then the lines of `line + rest` are the lines of the input; no line was too long. */
  ghost predicate Splits(input: seq<byte>, seen: seq<seq<byte>>, line: seq<byte>, rest: seq<byte>) {
    && Lines(input) == seen + Lines(line + rest)
    && !HasNewline(line) && |line| <= MAX_LOG_LINE_BYTES && !HasLongLine(seen)
  }

  lemma SplitsComplete(input: seq<byte>, seen: seq<seq<byte>>, line: seq<byte>, b: seq<byte>, rest: seq<byte>)
    requires Splits(input, seen, line, b + rest) && |line| + LineEnd(b) <= MAX_LOG_LINE_BYTES && HasNewline(b)
    ensures Splits(input, seen + [line + b[..LineEnd(b)]], [], b[LineEnd(b)..] + rest)
  {
    LinesComplete(line, b, rest);
    assert [] + (b[LineEnd(b)..] + rest) == b[LineEnd(b)..] + rest;
  }

  lemma SplitsEnd(input: seq<byte>, seen: seq<seq<byte>>, line: seq<byte>)
    requires Splits(input, seen, line, [])
    ensures Lines(input) == if line == [] then seen else seen + [line]
    ensures !HasLongLine(Lines(input))
    ensures line != [] ==> Splits(input, seen + [line], [], [])
  {
    LinesOfOne(line);
    assert line + [] == line;
    LinesOfOne([]);
  }

  lemma TracksAnswer(s: Stream, f: Decoder, maxLines: nat, keyword: Option<seq<byte>>,
                     tail: seq<seq<byte>>, total: nat, bytes: nat, truncated: bool)
    requires !HasLongLine(Lines(s.data)) && !s.broken
    requires Tracks(Matching(f, keyword, Lines(s.data)), Limit(maxLines), MAX_LOG_TAIL_BYTES, tail, total, bytes, truncated)
    ensures BoundedTailOf(s, f, maxLines, keyword) == Ok(Tail(tail, total, truncated || maxLines > MAX_LOG_LINES))
  {
  }

  datatype Piece = Piece(line: seq<byte>, complete: bool, eof: bool)

  /** The reading half of one turn: one piece of a line, up to its newline or the end of the buffer. */
  method ReadPiece(reader: Reader, line: seq<byte>, ghost input: Stream, ghost seen: seq<seq<byte>>)
    returns (r: Result<Piece, IoError>)
    requires reader.Contents().broken == input.broken && Splits(input.data, seen, line, reader.Contents().data)
    modifies reader
    ensures r.Err? ==> r.error == if HasLongLine(Lines(input.data)) then LineTooLong else ReadFailed
    ensures r.Err? ==> HasLongLine(Lines(input.data)) || input.broken
    ensures r.Ok? ==> reader.Contents().broken == input.broken
    ensures r.Ok? && r.value.complete ==> Splits(input.data, seen + [r.value.line], [], reader.Contents().data)
    ensures r.Ok? && !r.value.complete ==> Splits(input.data, seen, r.value.line, reader.Contents().data)
    ensures r.Ok? && r.value.eof ==> reader.Contents() == Stream([], false) && (r.value.complete || r.value.line == [])
    ensures r.Ok? && !r.value.eof ==>
              |reader.feed| < old(|reader.feed|)
              || (|reader.feed| == old(|reader.feed|) && |reader.buffer| < old(|reader.buffer|))
  {
    var filled, rest := reader.FillBuf();
    if filled.Err? {
      SplitsEnd(input.data, seen, line);
      return Err(ReadFailed);
    }
    var buffer := filled.value;
    var eof := buffer == [];
    var end := HasNewline(buffer);
    var length := LineEnd(buffer);
    if |line| + length > MAX_LOG_LINE_BYTES {
      assert HasLongLine(Lines(input.data)) by {
        LineEndAfter(line, buffer + rest);
        LineEndPrefix(buffer, rest);
        assert Lines(input.data)[|seen|] == Lines(line + (buffer + rest))[0];
      }
      return Err(LineTooLong);
    }
    reader.Consume(length, rest);
    var line' := line + buffer[..length];
    if end {
      SplitsComplete(input.data, seen, line, buffer, rest);
    } else {
      LineEndWithout(buffer);
      assert Splits(input.data, seen, line + buffer, rest) by {
        Regroup(line, buffer, rest);
        NoNewlineAppend(line, buffer);
      }
      assert buffer[length..] + rest == rest && buffer[..length] == buffer;
      if eof && line' != [] {
        SplitsEnd(input.data, seen, line');
      }
    }
    r := Ok(Piece(line', end || (eof && line' != []), eof));
  }

  method BoundedTail(reader: Reader, f: Decoder, maxLines: nat, keyword: Option<seq<byte>>)
    returns (r: Result<Tail, IoError>)
    modifies reader
    ensures r == BoundedTailOf(old(reader.Contents()), f, maxLines, keyword)
  {
    var tail: seq<seq<byte>> := [];
    var line: seq<byte> := [];
    var total, bytes, truncated := 0, 0, false;
    var limit := Min(maxLines, MAX_LOG_LINES);
    ghost var input := reader.Contents();
    ghost var seen: seq<seq<byte>>, ms: seq<seq<byte>> := [], [];
    assert Splits(input.data, [], [], input.data) by {
      assert [] + input.data == input.data;
      assert Lines(input.data) == [] + Lines(input.data);
    }
    while true
      invariant reader.Contents().broken == input.broken
      invariant Splits(input.data, seen, line, reader.Contents().data)
      invariant ms == Matching(f, keyword, seen)
      invariant Tracks(ms, limit, MAX_LOG_TAIL_BYTES, tail, total, bytes, truncated)
      decreases |reader.feed|, |reader.buffer|
    {
      var piece := ReadPiece(reader, line, input, seen);
      if piece.Err? {
        return Err(piece.error);
      }
      line := piece.value.line;
      if piece.value.complete {
        tail, total, bytes, truncated :=
          TakeLine(line, f, keyword, limit, MAX_LOG_TAIL_BYTES, ms, tail, total, bytes, truncated);
        MatchingNext(f, keyword, seen, line);
        ms, seen := ms + Selected(f, keyword, line), seen + [line];
        line := [];
      }
      if piece.value.eof {
        break;
      }
    }
    SplitsEnd(input.data, seen, []);
    TracksAnswer(input, f, maxLines, keyword, tail, total, bytes, truncated);
    r := Ok(Tail(tail, total, truncated || maxLines > MAX_LOG_LINES));
  }

  /** In an accepted answer the newest matching line is there whenever any line may be: it alone is within the byte limit. */
  lemma NewestSurvives(s: Stream, f: Decoder, maxLines: nat, keyword: Option<seq<byte>>)
    ensures var r := BoundedTailOf(s, f, maxLines, keyword);
            var ms := Matching(f, keyword, Lines(s.data));
            r.Ok? && maxLines > 0 && ms != []
            ==> r.value.lines != [] && r.value.lines[|r.value.lines| - 1] == ms[|ms| - 1]
  {
    var r := BoundedTailOf(s, f, maxLines, keyword);
    if r.Ok? && maxLines > 0 {
      var ms := Matching(f, keyword, Lines(s.data));
      NewestShort(f, keyword, Lines(s.data));
      assert r.value == TailOf(ms, maxLines);
      NewestOfTail(ms, maxLines);
    }
  }

  lemma NewestOfTail(ms: seq<seq<byte>>, maxLines: nat)
    requires maxLines > 0
    ensures var t := TailOf(ms, maxLines).lines;
            ms != [] && |ms[|ms| - 1]| <= MAX_LOG_TAIL_BYTES ==> t != [] && t[|t| - 1] == ms[|ms| - 1]
  {
    if ms != [] && |ms[|ms| - 1]| <= MAX_LOG_TAIL_BYTES {
      NewestKept(ms, Limit(maxLines), MAX_LOG_TAIL_BYTES);
    }
  }

  lemma NewestKept(ms: seq<seq<byte>>, limit: nat, cap: nat)
    requires ms != [] && limit > 0 && |ms[|ms| - 1]| <= cap
    ensures var t := Last(ms, Kept(ms, limit, cap)); t != [] && t[|t| - 1] == ms[|ms| - 1]
  {
  }

  predicate AllWithin(ls: seq<seq<byte>>, bound: nat) {
    forall i :: 0 <= i < |ls| ==> |ls[i]| <= bound
  }

  lemma {:induction false} MatchingShort(f: Decoder, keyword: Option<seq<byte>>, lines: seq<seq<byte>>)
    requires AllWithin(lines, MAX_LOG_LINE_BYTES)
    ensures AllWithin(Matching(f, keyword, lines), 3 * MAX_LOG_LINE_BYTES)
  {
    if lines != [] {
      var init, l := lines[..|lines| - 1], lines[|lines| - 1];
      MatchingShort(f, keyword, init);
      SelectedShort(f, keyword, l);
    }
  }

  lemma ReadLinesShort(lines: seq<seq<byte>>)
    requires !HasLongLine(lines)
    ensures AllWithin(lines, MAX_LOG_LINE_BYTES)
  {
  }

  /** What is read decodes to at most three bytes for one. */
  lemma ReadTextsShort(f: Decoder, keyword: Option<seq<byte>>, lines: seq<seq<byte>>)
    requires !HasLongLine(lines)
    ensures AllWithin(Matching(f, keyword, lines), 3 * MAX_LOG_LINE_BYTES)
  {
    ReadLinesShort(lines);
    MatchingShort(f, keyword, lines);
  }

  lemma NewestShort(f: Decoder, keyword: Option<seq<byte>>, lines: seq<seq<byte>>)
    ensures var ms := Matching(f, keyword, lines); HasLongLine(lines) || ms == [] || |ms[|ms| - 1]| <= MAX_LOG_TAIL_BYTES
  {
    if !HasLongLine(lines) {
      ReadTextsShort(f, keyword, lines);
    }
  }

  lemma SelectedShort(f: Decoder, keyword: Option<seq<byte>>, l: seq<byte>)
    ensures AllWithin(Selected(f, keyword, l), 3 * |l|)
  {
    assert |f(Stripped(l))| <= 3 * |Stripped(l)|;
  }

  /**
   The answer depends on the bytes alone, never on how the reader cuts them into chunks: nor does anything
   else that, like `BoundedTailOf`, is computed of what a reader delivers.
   */
  lemma ChunkingIrrelevant(data: seq<byte>, feed: seq<Read>, feed': seq<Read>, answer: Stream -> Result<Tail, IoError>)
    requires Cuts(feed, data) && Cuts(feed', data)
    ensures answer(Delivered([], feed)) == answer(Delivered([], feed')) == answer(Stream(data, false))
  {
    CutsDeliver(feed, data);
    CutsDeliver(feed', data);
  }

  lemma KeptForm(ms: seq<seq<byte>>, limit: nat, cap: nat, lines: seq<seq<byte>>)
    requires lines == Last(ms, Kept(ms, limit, cap))
    ensures Fits(ms, |lines|, limit, cap) && lines == Last(ms, |lines|)
    ensures forall k: nat :: Fits(ms, k, limit, cap) ==> k <= |lines|
    ensures limit > 0 && !CapHit(ms, limit, cap) ==> |lines| == Min(|ms|, limit)
  {
    KeptIsLongest(ms, limit, cap, |lines|);
    forall k: nat | Fits(ms, k, limit, cap)
      ensures k <= |lines|
    {
      KeptIsLongest(ms, limit, cap, k);
    }
    if limit > 0 && !CapHit(ms, limit, cap) {
      UntruncatedKeepsAll(ms, limit, cap);
    }
  }

  /**
   The accepted answers in closed form: all matching lines are counted, the kept ones are the
   longest suffix of at most 10_000 lines and 4 MiB, and an unset flag means that nothing within the
   requested number of lines was dropped.
   */
  lemma AcceptedTail(s: Stream, f: Decoder, maxLines: nat, keyword: Option<seq<byte>>)
    ensures var r := BoundedTailOf(s, f, maxLines, keyword);
            var ms := Matching(f, keyword, Lines(s.data));
            r.Ok? ==>
              && r.value.total == |ms|
              && Fits(ms, |r.value.lines|, Min(maxLines, 10_000), 4_194_304)
              && r.value.lines == Last(ms, |r.value.lines|)
              && (forall k: nat :: Fits(ms, k, Min(maxLines, 10_000), 4_194_304) ==> k <= |r.value.lines|)
              && (!r.value.truncated ==> |r.value.lines| == Min(|ms|, maxLines))
  {
    var r := BoundedTailOf(s, f, maxLines, keyword);
    if r.Ok? {
      KeptForm(Matching(f, keyword, Lines(s.data)), Limit(maxLines), MAX_LOG_TAIL_BYTES, r.value.lines);
    }
  }

  /** It is set exactly when more than 10_000 lines are asked for or some run of matching lines is too heavy. */
  lemma FlaggedExactly(ms: seq<seq<byte>>, maxLines: nat)
    ensures TailOf(ms, maxLines).truncated <==>
            maxLines > 10_000 || (maxLines > 0 && exists n :: HeavyRunAt(ms, maxLines, 4_194_304, n))
  {
    hide CapHit, HeavyRunAt, Kept;
    CapHitExactly(ms, Limit(maxLines), MAX_LOG_TAIL_BYTES);
    assert MAX_LOG_TAIL_BYTES == 4_194_304;
    if maxLines <= 10_000 {
      assert Limit(maxLines) == maxLines;
    }
  }

  /// The flag on real files

  function FullText(): seq<byte> {
    Repeat(97, MAX_LOG_LINE_BYTES - 1)
  }

  /** A line that may just be read: as many bytes as it may have, its newline among them. */
  function FullLine(): seq<byte> {
    FullText() + [NEWLINE]
  }

  /** A file of `n` such lines. */
  function FullLines(n: nat): seq<byte> {
    if n == 0 then [] else FullLine() + FullLines(n - 1)
  }

  lemma {:induction false} LinesOfFull(n: nat)
    ensures Lines(FullLines(n)) == Repeat(FullLine(), n)
  {
    if n > 0 {
      LinesOfFull(n - 1);
      var body, rest := FullText(), FullLines(n - 1);
      assert Lines(FullLines(n)) == [FullLine()] + Lines(rest) by {
        LineEndIsFirstNewline(body);
        LinesComplete(body, [NEWLINE], rest);
        Regroup(body, [NEWLINE], rest);
        assert [NEWLINE][..1] == [NEWLINE] && [NEWLINE][1..] + rest == rest;
      }
      RepeatMore(FullLine(), n);
    }
  }

  lemma {:induction false} MatchingCopies(f: Decoder, l: seq<byte>, n: nat)
    ensures Matching(f, None, Repeat(l, n)) == Repeat(f(Stripped(l)), n)
  {
    if n > 0 {
      MatchingCopies(f, l, n - 1);
      RepeatMore(l, n);
      RepeatMore(f(Stripped(l)), n);
    }
  }

  lemma {:induction false} BytesOfCopies(t: seq<byte>, n: nat)
    ensures Bytes(Repeat(t, n)) == n * |t|
  {
    if n > 0 {
      BytesOfCopies(t, n - 1);
      assert Repeat(t, n)[..n - 1] == Repeat(t, n - 1);
    }
  }

  lemma FullTexts(f: Decoder, n: nat)
    ensures Matching(f, None, Lines(FullLines(n))) == Repeat(f(FullText()), n)
  {
    LinesOfFull(n);
    MatchingCopies(f, FullLine(), n);
    assert Stripped(FullLine()) == FullText();
  }

  lemma FullLinesRead(n: nat)
    ensures !HasLongLine(Lines(FullLines(n)))
  {
    LinesOfFull(n);
    assert |FullLine()| == MAX_LOG_LINE_BYTES;
  }

  lemma KeptCopies(t: seq<byte>, n: nat, limit: nat, cap: nat)
    requires limit <= n && Bytes(Repeat(t, limit)) <= cap
    ensures Kept(Repeat(t, n), limit, cap) == limit && Last(Repeat(t, n), limit) == Repeat(t, limit)
  {
    assert Last(Repeat(t, n), limit) == Repeat(t, limit);
    KeptIsLongest(Repeat(t, n), limit, cap, limit);
  }

  predicate Flagged(s: Stream, f: Decoder, maxLines: nat, keyword: Option<seq<byte>>) {
    var r := BoundedTailOf(s, f, maxLines, keyword);
    r.Ok? && r.value.truncated
  }

  lemma FlaggedBy(s: Stream, f: Decoder, maxLines: nat, keyword: Option<seq<byte>>, ms: seq<seq<byte>>)
    requires ms == Matching(f, keyword, Lines(s.data))
    ensures Flagged(s, f, maxLines, keyword)
            <==> && !HasLongLine(Lines(s.data)) && !s.broken
                 && ((maxLines > 0 && CapHit(ms, Limit(maxLines), MAX_LOG_TAIL_BYTES)) || maxLines > MAX_LOG_LINES)
  {
  }

  lemma FullFileFlagged(f: Decoder, t: seq<byte>, n: nat, maxLines: nat)
    requires t == f(FullText()) && Bytes(Repeat(t, n)) > MAX_LOG_TAIL_BYTES
    requires maxLines > 0 && n <= Limit(maxLines) + 1
    ensures Flagged(Stream(FullLines(n), false), f, maxLines, None)
  {
    FullTexts(f, n);
    FullLinesRead(n);
    assert CapHit(Repeat(t, n), Limit(maxLines), MAX_LOG_TAIL_BYTES) by {
      var ms := Repeat(t, n);
      assert ms[..n] == ms && Last(ms, n) == ms;
      CapHitExactly(ms, Limit(maxLines), MAX_LOG_TAIL_BYTES);
      assert HeavyRunAt(ms, Limit(maxLines), MAX_LOG_TAIL_BYTES, n);
    }
    FlaggedBy(Stream(FullLines(n), false), f, maxLines, None, Repeat(t, n));
  }

  lemma FullFileKept(f: Decoder, t: seq<byte>, n: nat, limit: nat)
    requires t == f(FullText()) && limit <= n && limit <= MAX_LOG_LINES
    requires Bytes(Repeat(t, limit)) <= MAX_LOG_TAIL_BYTES
    ensures var r := BoundedTailOf(Stream(FullLines(n), false), f, limit, None);
            r.Ok? && r.value.lines == Repeat(t, limit)
  {
    FullTexts(f, n);
    FullLinesRead(n);
    KeptCopies(t, n, limit, MAX_LOG_TAIL_BYTES);
  }

  /**
   Sixty-five full lines of a text that decodes to itself, with sixty-four asked for: just those are
   returned, and the flag is set.
   */
  lemma FlagWithoutLoss(f: Decoder)
    requires f(FullText()) == FullText()
    ensures var r := BoundedTailOf(Stream(FullLines(65), false), f, 64, None);
            && r.Ok? && r.value.truncated
            && r.value.lines == Repeat(FullText(), 64)
            && Matching(f, None, Lines(FullLines(65))) == Repeat(FullText(), 65)
  {
    BytesOfCopies(FullText(), 65);
    BytesOfCopies(FullText(), 64);
    FullFileFlagged(f, FullText(), 65, 64);
    FullFileKept(f, FullText(), 65, 64);
    FullTexts(f, 65);
  }

  lemma {:induction false} BytesWithin(ms: seq<seq<byte>>, a: nat, b: nat, bound: nat)
    requires a <= b <= |ms| && AllWithin(ms, bound)
    ensures Bytes(ms[a..b]) <= (b - a) * bound
  {
    if a < b {
      BytesWithin(ms, a, b - 1, bound);
      assert ms[a..b][..b - a - 1] == ms[a..b - 1];
      assert |ms[b - 1]| <= bound;
      assert (b - a) * bound == (b - 1 - a) * bound + bound;
    }
  }

  lemma LightRun(ms: seq<seq<byte>>, limit: nat, n: nat)
    requires AllWithin(ms, 3 * MAX_LOG_LINE_BYTES) && limit <= 20
    ensures !HeavyRunAt(ms, limit, MAX_LOG_TAIL_BYTES, n)
  {
    if n <= |ms| {
      var k := Min(n, limit + 1);
      assert Last(ms[..n], k) == ms[n - k..n];
      BytesWithin(ms, n - k, n, 3 * MAX_LOG_LINE_BYTES);
    }
  }

  lemma LightRuns(ms: seq<seq<byte>>, limit: nat)
    requires AllWithin(ms, 3 * MAX_LOG_LINE_BYTES) && limit <= 20
    ensures !CapHit(ms, limit, MAX_LOG_TAIL_BYTES)
  {
    if CapHit(ms, limit, MAX_LOG_TAIL_BYTES) {
      CapHitExactly(ms, limit, MAX_LOG_TAIL_BYTES);
      var n :| HeavyRunAt(ms, limit, MAX_LOG_TAIL_BYTES, n);
      LightRun(ms, limit, n);
    }
  }

  /** Every byte decoded at its worst. */
  function Tripled(l: seq<byte>): (r: seq<byte>)
    ensures |r| == 3 * |l|
  {
    l + l + l
  }

  lemma WorstFlagged(f: Decoder, t: seq<byte>, n: nat, maxLines: nat)
    requires t == f(FullText()) && |t| == 3 * |FullText()| && maxLines > 20 && n == 22
    ensures Flagged(Stream(FullLines(n), false), f, maxLines, None)
  {
    BytesOfCopies(t, n);
    assert n * |t| == 22 * |t|;
    FullFileFlagged(f, t, n, maxLines);
  }

  lemma FlaggedFrom21(maxLines: nat) returns (s: Stream, f: Decoder)
    requires maxLines > 20
    ensures Flagged(s, f, maxLines, None)
  {
    var n := 22;
    s, f := Stream(FullLines(n), false), Tripled;
    WorstFlagged(f, Tripled(FullText()), n, maxLines);
  }

  ghost predicate MayFlag(maxLines: nat) {
    exists s: Stream, f: Decoder, keyword: Option<seq<byte>> :: Flagged(s, f, maxLines, keyword)
  }

  /** Some file makes the flag set exactly when more than twenty lines are asked for. */
  lemma FlagNeedsMoreThan20(maxLines: nat)
    ensures MayFlag(maxLines) <==> maxLines > 20
  {
    if maxLines > 20 {
      var s, f := FlaggedFrom21(maxLines);
    } else {
      forall s: Stream, f: Decoder, keyword: Option<seq<byte>>
        ensures !Flagged(s, f, maxLines, keyword)
      {
        FlaggedBy(s, f, maxLines, keyword, Matching(f, keyword, Lines(s.data)));
        assert HasLongLine(Lines(s.data)) || !CapHit(Matching(f, keyword, Lines(s.data)), maxLines, MAX_LOG_TAIL_BYTES) by {
          if !HasLongLine(Lines(s.data)) {
            ReadTextsShort(f, keyword, Lines(s.data));
            LightRuns(Matching(f, keyword, Lines(s.data)), maxLines);
          }
        }
      }
    }
  }
}
