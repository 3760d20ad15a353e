/** Newline framing of a chunked stream. */
module Framing {

  import opened Utf8

  const NEWLINE: int := 0x0A

  predicate Blank(c: int) {
    || 0x09 <= c <= 0x0D || c == 0x20 || c == 0xA0 || c == 0x1680 || 0x2000 <= c <= 0x200A || c == 0x2028 || c == 0x2029
    || c == 0x202F || c == 0x205F || c == 0x3000 || c == 0xFEFF
  }

  function Trim(t: Text): Text
    decreases |t|
  {
    if t == [] then []
    else if Blank(t[0]) then Trim(t[1..])
    else if Blank(t[|t| - 1]) then Trim(t[..|t| - 1])
    else t
  }

  // ---------------------------------------------------------------------------------------
  // Lines

  datatype Split = Split(lines: seq<Text>, rest: Text)

  /** The finished lines of a text and what follows the last newline. */
  function Lines(t: Text): Split
    decreases |t|
  {
    if t == [] then Split([], [])
    else
      var before := Lines(t[..|t| - 1]);
      if t[|t| - 1] == NEWLINE then Split(before.lines + [before.rest], [])
      else Split(before.lines, before.rest + [t[|t| - 1]])
  }

  /** Blank lines are skipped, the others are trimmed. */
  function Messages(lines: seq<Text>): seq<Text>
    decreases |lines|
  {
    if lines == [] then []
    else
      var before := Messages(lines[..|lines| - 1]);
      var line := Trim(lines[|lines| - 1]);
      if line == [] then before else before + [line]
  }

  /** What the reader holds back, what it has dispatched, and whether the limit has tripped. */
  datatype Reader = Reader(accum: Text, dispatched: seq<Text>, tripped: bool)

  const FRESH: Reader := Reader([], [], false)

  function Feed(r: Reader, chunk: Text, limit: nat): Reader {
    var accum := r.accum + chunk;
    if Size(accum) > limit then Reader([], r.dispatched, true)
    else
      var s := Lines(accum);
      Reader(s.rest, r.dispatched + Messages(s.lines), r.tripped)
  }

  function FeedAll(r: Reader, chunks: seq<Text>, limit: nat): Reader
    decreases |chunks|
  {
    if chunks == [] then r else Feed(FeedAll(r, chunks[..|chunks| - 1], limit), chunks[|chunks| - 1], limit)
  }

  function Joined(chunks: seq<Text>): Text
    decreases |chunks|
  {
    if chunks == [] then [] else Joined(chunks[..|chunks| - 1]) + chunks[|chunks| - 1]
  }

  // ---------------------------------------------------------------------------------------
  // Chunking does not matter while the limit holds

  lemma {:induction false} MessagesJoin(a: seq<Text>, b: seq<Text>)
    ensures Messages(a + b) == Messages(a) + Messages(b)
    decreases |b|
  {
    if b == [] {
      assert a + b == a;
    } else {
      assert (a + b)[..|a + b| - 1] == a + b[..|b| - 1] && (a + b)[|a + b| - 1] == b[|b| - 1];
      MessagesJoin(a, b[..|b| - 1]);
    }
  }

  /** More text continues the unfinished line and changes no finished one. */
  lemma {:induction false} LinesContinue(a: Text, b: Text)
    ensures var s, u := Lines(a), Lines(Lines(a).rest + b);
            Lines(a + b) == Split(s.lines + u.lines, u.rest)
    decreases |b|
  {
    var s := Lines(a);
    if b == [] {
      assert a + b == a && s.rest + b == s.rest;
      RestIsUnfinished(a);
      assert s.lines + [] == s.lines;
    } else {
      var c, shorter := b[|b| - 1], b[..|b| - 1];
      assert (a + b)[..|a + b| - 1] == a + shorter && (a + b)[|a + b| - 1] == c;
      assert (s.rest + b)[..|s.rest + b| - 1] == s.rest + shorter && (s.rest + b)[|s.rest + b| - 1] == c;
      LinesContinue(a, shorter);
      var u := Lines(s.rest + shorter);
      assert (s.lines + u.lines) + [u.rest] == s.lines + (u.lines + [u.rest]);
    }
  }

  lemma {:induction false} RestIsUnfinished(a: Text)
    ensures Lines(Lines(a).rest) == Split([], Lines(a).rest)
    ensures NEWLINE !in Lines(a).rest
    decreases |a|
  {
    if a != [] && a[|a| - 1] != NEWLINE {
      RestIsUnfinished(a[..|a| - 1]);
      var before := Lines(a[..|a| - 1]).rest;
      var rest := before + [a[|a| - 1]];
      assert rest[..|rest| - 1] == before;
    }
  }

  /** While nothing trips, a reader has dispatched the messages of the whole text so far, and holds
      back exactly what follows its last newline. */
  lemma {:induction false} ReaderFollowsTheText(chunks: seq<Text>, limit: nat)
    requires !FeedAll(FRESH, chunks, limit).tripped
    ensures var s := Lines(Joined(chunks)); FeedAll(FRESH, chunks, limit) == Reader(s.rest, Messages(s.lines), false)
    decreases |chunks|
  {
    if chunks != [] {
      var before, chunk := chunks[..|chunks| - 1], chunks[|chunks| - 1];
      ReaderFollowsTheText(before, limit);
      LinesContinue(Joined(before), chunk);
      var s := Lines(Joined(before));
      MessagesJoin(s.lines, Lines(s.rest + chunk).lines);
    }
  }

  /** Any two ways to cut the same stream that stay within the limit dispatch the same messages. */
  lemma ChunkingDoesNotMatter(a: seq<Text>, b: seq<Text>, limit: nat)
    requires Joined(a) == Joined(b)
    requires !FeedAll(FRESH, a, limit).tripped && !FeedAll(FRESH, b, limit).tripped
    ensures FeedAll(FRESH, a, limit) == FeedAll(FRESH, b, limit)
    ensures FeedAll(FRESH, a, limit).dispatched == Messages(Lines(Joined(a)).lines)
  {
    ReaderFollowsTheText(a, limit);
    ReaderFollowsTheText(b, limit);
  }

  // ---------------------------------------------------------------------------------------
  // Exactly when the limit trips

  /** A chunk trips the limit when it and the unfinished line before it are too long together, however
      many newlines it has. */
  ghost predicate Overflows(chunks: seq<Text>, i: nat, limit: nat)
    requires i < |chunks|
  {
    Size(Lines(Joined(chunks[..i])).rest + chunks[i]) > limit
  }

  lemma {:induction false} TripsExactlyWhen(chunks: seq<Text>, limit: nat)
    ensures FeedAll(FRESH, chunks, limit).tripped <==> exists i: nat :: i < |chunks| && Overflows(chunks, i, limit)
    decreases |chunks|
  {
    if chunks != [] {
      var last := |chunks| - 1;
      var before := chunks[..last];
      TripsExactlyWhen(before, limit);
      forall i: nat | i < last ensures Overflows(before, i, limit) == Overflows(chunks, i, limit) {
        assert before[..i] == chunks[..i];
      }
      if !FeedAll(FRESH, before, limit).tripped {
        ReaderFollowsTheText(before, limit);
        assert Overflows(chunks, last, limit) <==> FeedAll(FRESH, chunks, limit).tripped;
      } else {
        var i: nat :| i < last && Overflows(before, i, limit);
        assert Overflows(chunks, i, limit);
        TrippedStays(FeedAll(FRESH, before, limit), chunks[last], limit);
      }
    }
  }

  lemma TrippedStays(r: Reader, chunk: Text, limit: nat)
    requires r.tripped
    ensures Feed(r, chunk, limit).tripped
  {
  }

  lemma FeedOne(chunk: Text, limit: nat)
    ensures FeedAll(FRESH, [chunk], limit) == Feed(FRESH, chunk, limit) && Joined([chunk]) == chunk && [] + chunk == chunk
  {
    var none: seq<Text> := [];
    assert [chunk][..0] == none;
  }

  /** So the limit does depend on the cut: two lines that pass one by one trip it together. */
  lemma OneChunkMayTripWhereTwoPass(a: Text, b: Text, limit: nat)
    requires NEWLINE !in a && NEWLINE !in b
    requires Size(a + [NEWLINE]) <= limit && Size(b + [NEWLINE]) <= limit < Size(a + [NEWLINE] + (b + [NEWLINE]))
    ensures Joined([a + [NEWLINE], b + [NEWLINE]]) == Joined([a + [NEWLINE] + (b + [NEWLINE])])
    ensures !FeedAll(FRESH, [a + [NEWLINE], b + [NEWLINE]], limit).tripped
    ensures FeedAll(FRESH, [a + [NEWLINE] + (b + [NEWLINE])], limit).tripped
  {
    var x, y := a + [NEWLINE], b + [NEWLINE];
    FeedOne(x, limit);
    FeedOne(x + y, limit);
    assert [x, y][..1] == [x];
    assert x[..|x| - 1] == a;
    assert Feed(FRESH, x, limit).accum == [];
    assert [] + y == y;
  }

  // ---------------------------------------------------------------------------------------
  // Bytes

  datatype ByteReader = ByteReader(decoder: Decoder, reader: Reader)

  const FRESH_BYTES: ByteReader := ByteReader(START, FRESH)

  function FeedBytes(r: ByteReader, raw: seq<Byte>, limit: nat): ByteReader {
    var (d, text) := Decode(r.decoder, raw);
    ByteReader(d, Feed(r.reader, text, limit))
  }

  function FeedAllBytes(chunks: seq<seq<Byte>>, limit: nat): ByteReader
    decreases |chunks|
  {
    if chunks == [] then FRESH_BYTES else FeedBytes(FeedAllBytes(chunks[..|chunks| - 1], limit), chunks[|chunks| - 1], limit)
  }

  function JoinedBytes(chunks: seq<seq<Byte>>): seq<Byte>
    decreases |chunks|
  {
    if chunks == [] then [] else JoinedBytes(chunks[..|chunks| - 1]) + chunks[|chunks| - 1]
  }

  /** The text each chunk brings out of the decoder. */
  ghost function Texts(chunks: seq<seq<Byte>>): (ts: seq<Text>)
    ensures |ts| == |chunks|
    decreases |chunks|
  {
    if chunks == [] then []
    else
      var before := chunks[..|chunks| - 1];
      Texts(before) + [Decode(Decode(START, JoinedBytes(before)).0, chunks[|chunks| - 1]).1]
  }

  /** Bytes are read as the text they decode to, cut where the decoder brings it out. */
  lemma {:induction false} BytesAreReadAsText(chunks: seq<seq<Byte>>, limit: nat)
    ensures FeedAllBytes(chunks, limit) == ByteReader(Decode(START, JoinedBytes(chunks)).0, FeedAll(FRESH, Texts(chunks), limit))
    ensures Joined(Texts(chunks)) == Decode(START, JoinedBytes(chunks)).1
    decreases |chunks|
  {
    if chunks != [] {
      var before, raw := chunks[..|chunks| - 1], chunks[|chunks| - 1];
      BytesAreReadAsText(before, limit);
      DecodingJoins(START, JoinedBytes(before), raw);
      assert Texts(chunks)[..|chunks| - 1] == Texts(before);
    }
  }

  /** The bytes of a stream may be cut anywhere, inside a character too: any two ways that stay within the limit leave
      the reader in the same state with the same messages dispatched. */
  lemma BytesMayBeCutAnywhere(a: seq<seq<Byte>>, b: seq<seq<Byte>>, limit: nat)
    requires JoinedBytes(a) == JoinedBytes(b)
    requires !FeedAllBytes(a, limit).reader.tripped && !FeedAllBytes(b, limit).reader.tripped
    ensures FeedAllBytes(a, limit) == FeedAllBytes(b, limit)
    ensures FeedAllBytes(a, limit).reader.dispatched == Messages(Lines(Decode(START, JoinedBytes(a)).1).lines)
  {
    BytesAreReadAsText(a, limit);
    BytesAreReadAsText(b, limit);
    ChunkingDoesNotMatter(Texts(a), Texts(b), limit);
  }

  /** Text written in UTF-8 arrives as its lines, however its bytes are cut, and the limit counts those bytes. */
  lemma WrittenLinesArrive(t: Text, chunks: seq<seq<Byte>>, limit: nat)
    requires IsWritten(t) && (t != [] ==> t[0] != BYTE_ORDER_MARK) && JoinedBytes(chunks) == BytesOf(t)
    requires !FeedAllBytes(chunks, limit).reader.tripped
    ensures FeedAllBytes(chunks, limit).reader == Reader(Lines(t).rest, Messages(Lines(t).lines), false)
    ensures |BytesOf(t)| == Size(t)
  {
    BytesAreReadAsText(chunks, limit);
    WrittenIsRead(t);
    SizeCountsBytes(t);
    ReaderFollowsTheText(Texts(chunks), limit);
  }

  // ---------------------------------------------------------------------------------------
  // The handler

  class StdoutReader {
    const limit: nat
    var decoder: Decoder
    var stdoutAccum: Text
    var dispatched: seq<Text>
    var tripped: bool

    ghost function Value(): ByteReader
      reads this
    {
      ByteReader(decoder, Reader(stdoutAccum, dispatched, tripped))
    }

    constructor (limit: nat)
      ensures Value() == FRESH_BYTES && this.limit == limit
    {
      this.limit, decoder := limit, START;
      stdoutAccum, dispatched, tripped := [], [], false;
    }

    method ByteLength(t: Text) returns (n: nat)
      ensures n == Size(t)
    {
      n := 0;
      for i := 0 to |t|
        invariant n == Size(t[..i])
      {
        assert t[..i + 1][..i] == t[..i];
        n := n + Width(t[i]);
      }
      assert t[..|t|] == t;
    }

    method SplitLines(t: Text) returns (lines: seq<Text>, rest: Text)
      ensures Split(lines, rest) == Lines(t)
    {
      lines, rest := [], [];
      for i := 0 to |t|
        invariant Split(lines, rest) == Lines(t[..i])
      {
        assert t[..i + 1][..i] == t[..i];
        if t[i] == NEWLINE {
          lines, rest := lines + [rest], [];
        } else {
          rest := rest + [t[i]];
        }
      }
      assert t[..|t|] == t;
    }

    method OnData(raw: seq<Byte>)
      modifies this
      ensures Value() == FeedBytes(old(Value()), raw, limit)
    {
      var (after, text) := Decode(decoder, raw);
      decoder, stdoutAccum := after, stdoutAccum + text;
      var size := ByteLength(stdoutAccum);
      if size > limit {
        stdoutAccum, tripped := [], true;
        return;
      }
      var lines, rest := SplitLines(stdoutAccum);
      stdoutAccum := rest;
      for i := 0 to |lines|
        invariant decoder == after && stdoutAccum == rest && tripped == old(tripped)
        invariant dispatched == old(dispatched) + Messages(lines[..i])
      {
        assert lines[..i + 1][..i] == lines[..i];
        var trimmed := Trim(lines[i]);
        if trimmed != [] {
          dispatched := dispatched + [trimmed];
        }
      }
      assert lines[..|lines|] == lines;
    }
  }

  // ---------------------------------------------------------------------------------------
  // Trimming

  /** White space and line terminators as ECMAScript has them. */
  const SPACES: set<int> := {
    0x09, 0x0A, 0x0B, 0x0C, 0x0D, 0x20, 0xA0, 0x1680, 0x2000, 0x2001, 0x2002, 0x2003, 0x2004, 0x2005, 0x2006, 0x2007, 0x2008, 0x2009,
    0x200A, 0x2028, 0x2029, 0x202F, 0x205F, 0x3000, 0xFEFF
  }

  lemma BlanksAreExact(c: int)
    ensures Blank(c) <==> c in SPACES
  {
  }

  /** The part between the white space at both ends. */
  ghost predicate IsMiddle(t: Text, i: nat, j: nat) {
    && i <= j <= |t| && (i < j ==> !Blank(t[i]) && !Blank(t[j - 1]))
    && (forall k :: 0 <= k < i ==> Blank(t[k])) && (forall k :: j <= k < |t| ==> Blank(t[k]))
  }

  lemma BlankInFront(t: Text, i: nat, j: nat)
    requires t != [] && Blank(t[0]) && IsMiddle(t[1..], i, j)
    ensures IsMiddle(t, i + 1, j + 1) && t[1..][i..j] == t[i + 1..j + 1]
  {
    assert forall k :: 0 < k < |t| ==> t[k] == t[1..][k - 1];
  }

  lemma BlankBehind(t: Text, i: nat, j: nat)
    requires t != [] && Blank(t[|t| - 1]) && IsMiddle(t[..|t| - 1], i, j)
    ensures IsMiddle(t, i, j) && t[..|t| - 1][i..j] == t[i..j]
  {
  }

  /** A trimmed text is what lies between the white space at both ends. */
  lemma {:induction false} TrimsExactly(t: Text) returns (i: nat, j: nat)
    ensures IsMiddle(t, i, j) && Trim(t) == t[i..j]
    decreases |t|
  {
    if t == [] {
      i, j := 0, 0;
    } else if Blank(t[0]) {
      var x, y := TrimsExactly(t[1..]);
      BlankInFront(t, x, y);
      i, j := x + 1, y + 1;
    } else if Blank(t[|t| - 1]) {
      i, j := TrimsExactly(t[..|t| - 1]);
      BlankBehind(t, i, j);
    } else {
      i, j := 0, |t|;
    }
  }
}
