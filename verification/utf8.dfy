/** The streaming UTF-8 decoder of the Encoding standard: bytes in any chunks, code points out. */
module Utf8 {

  /** Decoded text, one element per code point. */
  type Text = seq<int>

  type Byte = b: int | 0 <= b < 256

  const REPLACEMENT: int := 0xFFFD
  const BYTE_ORDER_MARK: int := 0xFEFF

  /** A byte inside a sequence. */
  type Inner = b: int | 0x80 <= b <= 0xBF witness 0x80

  /** How many bytes of a sequence are still to come, what those seen stand for, and where the next one may lie. */
  datatype Sequence = Sequence(left: nat, point: nat, lower: Inner, upper: Inner)

  const NO_SEQUENCE: Sequence := Sequence(0, 0, 0x80, 0xBF)

  /** What one byte makes of a sequence, and the code point it completes; None where it starts nothing. */
  function Lead(b: Byte): (Sequence, Text) {
    if b < 0x80 then (NO_SEQUENCE, [b])
    else if 0xC2 <= b <= 0xDF then (Sequence(1, b - 0xC0, 0x80, 0xBF), [])
    else if 0xE0 <= b <= 0xEF then
      (Sequence(2, b - 0xE0, if b == 0xE0 then 0xA0 else 0x80, if b == 0xED then 0x9F else 0xBF), [])
    else if 0xF0 <= b <= 0xF4 then
      (Sequence(3, b - 0xF0, if b == 0xF0 then 0x90 else 0x80, if b == 0xF4 then 0x8F else 0xBF), [])
    else (NO_SEQUENCE, [REPLACEMENT])
  }

  /** A byte that cannot continue a sequence ends it as unreadable, and is read again on its own. */
  function Next(q: Sequence, b: Byte): (Sequence, Text) {
    if q.left == 0 then Lead(b)
    else if b < q.lower || b > q.upper then (Lead(b).0, [REPLACEMENT] + Lead(b).1)
    else
      var point := 64 * q.point + (b - 0x80);
      if q.left == 1 then (NO_SEQUENCE, [point]) else (Sequence(q.left - 1, point, 0x80, 0xBF), [])
  }

  /** The sequence under way, and whether anything came out yet: a byte order mark is dropped there. */
  datatype Decoder = Decoder(sequence: Sequence, started: bool)

  const START: Decoder := Decoder(NO_SEQUENCE, false)

  function DecodeByte(d: Decoder, b: Byte): (Decoder, Text) {
    var (q, out) := Next(d.sequence, b);
    (Decoder(q, d.started || out != []), if !d.started && out != [] && out[0] == BYTE_ORDER_MARK then out[1..] else out)
  }

  function Decode(d: Decoder, bytes: seq<Byte>): (Decoder, Text)
    decreases |bytes|
  {
    if bytes == [] then (d, [])
    else
      var (e, before) := Decode(d, bytes[..|bytes| - 1]);
      var (f, last) := DecodeByte(e, bytes[|bytes| - 1]);
      (f, before + last)
  }

  lemma Associates(a: Text, b: Text, c: Text)
    ensures (a + b) + c == a + (b + c)
  {
  }

  lemma DecodeLast(d: Decoder, bytes: seq<Byte>, b: Byte)
    ensures Decode(d, bytes + [b])
            == (DecodeByte(Decode(d, bytes).0, b).0, Decode(d, bytes).1 + DecodeByte(Decode(d, bytes).0, b).1)
  {
    assert (bytes + [b])[..|bytes|] == bytes;
  }

  ghost predicate Joins(d: Decoder, a: seq<Byte>, b: seq<Byte>) {
    Decode(d, a + b) == (Decode(Decode(d, a).0, b).0, Decode(d, a).1 + Decode(Decode(d, a).0, b).1)
  }

  lemma JoinOneMore(d: Decoder, a: seq<Byte>, b: seq<Byte>, last: Byte)
    requires Joins(d, a, b)
    ensures Joins(d, a, b + [last])
  {
    var e := Decode(d, a).0;
    DecodeLast(d, a + b, last);
    DecodeLast(e, b, last);
    assert a + (b + [last]) == (a + b) + [last];
    Associates(Decode(d, a).1, Decode(e, b).1, DecodeByte(Decode(e, b).0, last).1);
  }

  lemma {:induction false} JoinsAlways(d: Decoder, a: seq<Byte>, b: seq<Byte>)
    ensures Joins(d, a, b)
    decreases |b|
  {
    if b == [] {
      JoinsNothing(d, a);
    } else {
      var front, last := b[..|b| - 1], b[|b| - 1];
      assert front + [last] == b;
      JoinsAlways(d, a, front);
      JoinOneMore(d, a, front, last);
    }
  }

  lemma JoinsNothing(d: Decoder, a: seq<Byte>)
    ensures Joins(d, a, [])
  {
    assert a + [] == a && Decode(d, a).1 + [] == Decode(d, a).1;
  }

  /** Decoding on is decoding the whole: a cut inside a sequence changes nothing. */
  lemma DecodingJoins(d: Decoder, a: seq<Byte>, b: seq<Byte>)
    ensures Decode(d, a + b) == (Decode(Decode(d, a).0, b).0, Decode(d, a).1 + Decode(Decode(d, a).0, b).1)
  {
    JoinsAlways(d, a, b);
  }

  // ---------------------------------------------------------------------------------------
  // What is written is read

  predicate IsScalar(c: int) { 0 <= c < 0xD800 || 0xE000 <= c < 0x11_0000 }

  predicate IsWritten(t: Text) { forall c :: c in t ==> IsScalar(c) }

  function Width(c: int): nat {
    if c < 0x80 then 1 else if c < 0x800 then 2 else if c < 0x1_0000 then 3 else 4
  }

  /** Bytes of the text in UTF-8. */
  function Size(t: Text): nat
    decreases |t|
  {
    if t == [] then 0 else Size(t[..|t| - 1]) + Width(t[|t| - 1])
  }

  function Bytes(c: int): seq<Byte>
    requires IsScalar(c)
  {
    if c < 0x80 then [c]
    else if c < 0x800 then [0xC0 + c / 64, 0x80 + c % 64]
    else if c < 0x1_0000 then [0xE0 + c / 4096, 0x80 + c / 64 % 64, 0x80 + c % 64]
    else [0xF0 + c / 262144, 0x80 + c / 4096 % 64, 0x80 + c / 64 % 64, 0x80 + c % 64]
  }

  function BytesOf(t: Text): seq<Byte>
    requires IsWritten(t)
    decreases |t|
  {
    if t == [] then [] else BytesOf(t[..|t| - 1]) + Bytes(t[|t| - 1])
  }

  lemma {:induction false} SizeCountsBytes(t: Text)
    requires IsWritten(t)
    ensures |BytesOf(t)| == Size(t)
    decreases |t|
  {
    if t != [] {
      SizeCountsBytes(t[..|t| - 1]);
    }
  }

  lemma DecodeOne(d: Decoder, b: Byte)
    ensures Decode(d, [b]) == DecodeByte(d, b)
  {
    DecodeLast(d, [], b);
    assert [] + [b] == [b] && [] + DecodeByte(d, b).1 == DecodeByte(d, b).1;
  }

  /** Inside a sequence a byte that may come next brings nothing out. */
  lemma Inside(d: Decoder, b: Byte)
    requires d.sequence.left > 1 && d.sequence.lower <= b <= d.sequence.upper
    ensures DecodeByte(d, b) == (Decoder(Sequence(d.sequence.left - 1, 64 * d.sequence.point + (b - 0x80), 0x80, 0xBF), d.started), [])
  {
  }

  /** The last byte of a sequence brings its code point out; a byte order mark only where something came before. */
  lemma Ends(d: Decoder, b: Byte)
    requires d.sequence.left == 1 && d.sequence.lower <= b <= d.sequence.upper
    requires d.started || 64 * d.sequence.point + (b - 0x80) != BYTE_ORDER_MARK
    ensures DecodeByte(d, b) == (Decoder(NO_SEQUENCE, true), [64 * d.sequence.point + (b - 0x80)])
  {
  }

  lemma {:induction false} Two(d: Decoder, a: Byte, b: Byte)
    ensures Decode(d, [a, b]) == (DecodeByte(DecodeByte(d, a).0, b).0, DecodeByte(d, a).1 + DecodeByte(DecodeByte(d, a).0, b).1)
  {
    assert [a, b] == [a] + [b];
    DecodeOne(d, a);
    DecodeLast(d, [a], b);
  }

  lemma {:induction false} Three(d: Decoder, a: Byte, b: Byte, c: Byte)
    requires DecodeByte(d, a).1 == [] && DecodeByte(DecodeByte(d, a).0, b).1 == []
    ensures Decode(d, [a, b, c]) == DecodeByte(DecodeByte(DecodeByte(d, a).0, b).0, c)
  {
    assert [a, b, c] == [a, b] + [c];
    Two(d, a, b);
    DecodeLast(d, [a, b], c);
    var last := DecodeByte(DecodeByte(DecodeByte(d, a).0, b).0, c).1;
    assert ([] + []) + last == last;
  }

  ghost predicate Fresh(d: Decoder, c: int) {
    d.sequence == NO_SEQUENCE && IsScalar(c) && (d.started || c != BYTE_ORDER_MARK)
  }

  lemma {:induction false} OneByteReads(d: Decoder, c: int)
    requires Fresh(d, c) && c < 0x80
    ensures Decode(d, Bytes(c)) == (Decoder(NO_SEQUENCE, true), [c])
  {
    DecodeOne(d, c);
  }

  lemma {:induction false} TwoBytesRead(d: Decoder, c: int)
    requires Fresh(d, c) && 0x80 <= c < 0x800
    ensures Decode(d, Bytes(c)) == (Decoder(NO_SEQUENCE, true), [c])
  {
    var a, b := 0xC0 + c / 64, 0x80 + c % 64;
    var e := Decoder(Sequence(1, c / 64, 0x80, 0xBF), d.started);
    assert DecodeByte(d, a) == (e, []);
    Ends(e, b);
    Two(d, a, b);
    assert [] + [c] == [c];
  }

  /** The three parts a code point of three bytes falls into. */
  lemma ThreeParts(c: int)
    requires IsScalar(c) && 0x800 <= c < 0x1_0000
    ensures c / 4096 < 16 && 64 * (64 * (c / 4096) + c / 64 % 64) + c % 64 == c
    ensures c / 4096 == 0 ==> c / 64 % 64 >= 32
    ensures c / 4096 == 13 ==> c / 64 % 64 < 32
  {
    var x := c / 64;
    assert c == 64 * x + c % 64 && x == 64 * (x / 64) + x % 64;
    assert c / 4096 == x / 64;
  }

  lemma {:induction false} ThreeRead(d: Decoder, x: nat, y: nat, z: nat)
    requires x < 16 && y < 64 && z < 64 && (x == 0 ==> y >= 32) && (x == 13 ==> y < 32)
    requires d.sequence == NO_SEQUENCE && (d.started || 64 * (64 * x + y) + z != BYTE_ORDER_MARK)
    ensures Decode(d, [0xE0 + x, 0x80 + y, 0x80 + z]) == (Decoder(NO_SEQUENCE, true), [64 * (64 * x + y) + z])
  {
    var e := Decoder(Sequence(2, x, if x == 0 then 0xA0 else 0x80, if x == 13 then 0x9F else 0xBF), d.started);
    assert DecodeByte(d, 0xE0 + x) == (e, []);
    Inside(e, 0x80 + y);
    Ends(DecodeByte(e, 0x80 + y).0, 0x80 + z);
    Three(d, 0xE0 + x, 0x80 + y, 0x80 + z);
  }

  lemma {:induction false} ThreeBytesRead(d: Decoder, c: int)
    requires Fresh(d, c) && 0x800 <= c < 0x1_0000
    ensures Decode(d, Bytes(c)) == (Decoder(NO_SEQUENCE, true), [c])
  {
    ThreeParts(c);
    ThreeRead(d, c / 4096, c / 64 % 64, c % 64);
  }

  lemma FourParts(c: int)
    requires 0x1_0000 <= c < 0x11_0000
    ensures c / 262144 <= 4 && 64 * (64 * (64 * (c / 262144) + c / 4096 % 64) + c / 64 % 64) + c % 64 == c
    ensures c / 262144 == 0 ==> c / 4096 % 64 >= 16
    ensures c / 262144 == 4 ==> c / 4096 % 64 < 16
  {
    var x, y := c / 64, c / 64 / 64;
    assert c == 64 * x + c % 64 && x == 64 * y + x % 64 && y == 64 * (y / 64) + y % 64;
    assert c / 4096 == y && c / 262144 == y / 64;
  }

  lemma {:induction false} ThreeOfFour(d: Decoder, w: nat, x: nat, y: nat)
    requires w <= 4 && x < 64 && y < 64 && (w == 0 ==> x >= 16) && (w == 4 ==> x < 16) && d.sequence == NO_SEQUENCE
    ensures Decode(d, [0xF0 + w, 0x80 + x, 0x80 + y])
            == (Decoder(Sequence(1, 64 * (64 * w + x) + y, 0x80, 0xBF), d.started), [])
  {
    var e := Decoder(Sequence(3, w, if w == 0 then 0x90 else 0x80, if w == 4 then 0x8F else 0xBF), d.started);
    assert DecodeByte(d, 0xF0 + w) == (e, []);
    Inside(e, 0x80 + x);
    Inside(DecodeByte(e, 0x80 + x).0, 0x80 + y);
    Three(d, 0xF0 + w, 0x80 + x, 0x80 + y);
  }

  lemma {:induction false} FourRead(d: Decoder, w: nat, x: nat, y: nat, z: nat)
    requires w <= 4 && x < 64 && y < 64 && z < 64 && (w == 0 ==> x >= 16) && (w == 4 ==> x < 16)
    requires d.sequence == NO_SEQUENCE && 64 * (64 * (64 * w + x) + y) + z >= 0x1_0000
    ensures Decode(d, [0xF0 + w, 0x80 + x, 0x80 + y, 0x80 + z])
            == (Decoder(NO_SEQUENCE, true), [64 * (64 * (64 * w + x) + y) + z])
  {
    var p := 64 * (64 * w + x) + y;
    ThreeOfFour(d, w, x, y);
    FourthEnds(d, 0xF0 + w, 0x80 + x, 0x80 + y, p, z);
  }

  lemma {:induction false} FourthEnds(d: Decoder, a: Byte, b: Byte, c: Byte, p: nat, z: nat)
    requires Decode(d, [a, b, c]) == (Decoder(Sequence(1, p, 0x80, 0xBF), d.started), []) && z < 64 && 64 * p + z >= 0x1_0000
    ensures Decode(d, [a, b, c, 0x80 + z]) == (Decoder(NO_SEQUENCE, true), [64 * p + z])
  {
    var g := Decoder(Sequence(1, p, 0x80, 0xBF), d.started);
    Ends(g, 0x80 + z);
    FourthByte(d, a, b, c, 0x80 + z, g);
  }

  lemma {:induction false} FourthByte(d: Decoder, a: Byte, b: Byte, c: Byte, last: Byte, g: Decoder)
    requires Decode(d, [a, b, c]) == (g, [])
    ensures Decode(d, [a, b, c, last]) == DecodeByte(g, last)
  {
    assert [a, b, c, last] == [a, b, c] + [last];
    DecodeLast(d, [a, b, c], last);
    assert [] + DecodeByte(g, last).1 == DecodeByte(g, last).1;
  }

  lemma {:induction false} FourBytesRead(d: Decoder, c: int)
    requires Fresh(d, c) && 0x1_0000 <= c
    ensures Decode(d, Bytes(c)) == (Decoder(NO_SEQUENCE, true), [c])
  {
    FourParts(c);
    FourRead(d, c / 262144, c / 4096 % 64, c / 64 % 64, c % 64);
  }

  lemma OnePointReads(d: Decoder, c: int)
    requires Fresh(d, c)
    ensures Decode(d, Bytes(c)) == (Decoder(NO_SEQUENCE, true), [c])
  {
    if c < 0x80 {
      OneByteReads(d, c);
    } else if c < 0x800 {
      TwoBytesRead(d, c);
    } else if c < 0x1_0000 {
      ThreeBytesRead(d, c);
    } else {
      FourBytesRead(d, c);
    }
  }

  /** The bytes are read as this text, with nothing under way. */
  ghost predicate ReadAs(bytes: seq<Byte>, t: Text) {
    Decode(START, bytes) == (Decoder(NO_SEQUENCE, t != []), t)
  }

  lemma {:induction false} OneMore(bytes: seq<Byte>, t: Text, c: int)
    requires ReadAs(bytes, t) && Fresh(Decoder(NO_SEQUENCE, t != []), c)
    ensures ReadAs(bytes + Bytes(c), t + [c])
  {
    DecodingJoins(START, bytes, Bytes(c));
    OnePointReads(Decoder(NO_SEQUENCE, t != []), c);
  }

  lemma OnePointMore(t: Text, c: int)
    requires IsWritten(t) && IsScalar(c)
    ensures IsWritten(t + [c]) && BytesOf(t + [c]) == BytesOf(t) + Bytes(c)
  {
    assert (t + [c])[..|t|] == t;
  }

  /** Text that is written in UTF-8 is read back as it was, but for a byte order mark in front of it. */
  lemma {:induction false} WrittenIsRead(t: Text)
    requires IsWritten(t) && (t != [] ==> t[0] != BYTE_ORDER_MARK)
    ensures ReadAs(BytesOf(t), t)
    decreases |t|
  {
    if t != [] {
      var front, c := t[..|t| - 1], t[|t| - 1];
      assert front + [c] == t && (front != [] ==> front[0] == t[0]);
      WrittenIsRead(front);
      OneMore(BytesOf(front), front, c);
      OnePointMore(front, c);
    }
  }

  lemma MarkIsSwallowed()
    ensures Decode(START, Bytes(BYTE_ORDER_MARK)) == (Decoder(NO_SEQUENCE, true), [])
  {
    var d, e := START, Decoder(Sequence(2, 15, 0x80, 0xBF), false);
    assert DecodeByte(d, 0xEF) == (e, []);
    Inside(e, 0xBB);
    var f := Decoder(Sequence(1, 1019, 0x80, 0xBF), false);
    assert DecodeByte(e, 0xBB) == (f, []);
    assert Next(f.sequence, 0xBF) == (NO_SEQUENCE, [BYTE_ORDER_MARK]) && [BYTE_ORDER_MARK][1..] == [];
    assert DecodeByte(f, 0xBF) == (Decoder(NO_SEQUENCE, true), []);
    Three(d, 0xEF, 0xBB, 0xBF);
    assert Bytes(BYTE_ORDER_MARK) == [0xEF, 0xBB, 0xBF];
  }

  /** The bytes are read as this text but for its first code point. */
  ghost predicate ReadPast(bytes: seq<Byte>, t: Text) {
    t != [] && Decode(START, bytes) == (Decoder(NO_SEQUENCE, true), t[1..])
  }

  lemma {:induction false} OneMorePast(bytes: seq<Byte>, t: Text, c: int)
    requires ReadPast(bytes, t) && IsScalar(c)
    ensures ReadPast(bytes + Bytes(c), t + [c])
  {
    DecodingJoins(START, bytes, Bytes(c));
    OnePointReads(Decoder(NO_SEQUENCE, true), c);
    assert t[1..] + [c] == (t + [c])[1..];
  }

  /** A byte order mark in front is dropped, once, and everything behind it is read as it was. */
  lemma {:induction false} MarksAreDropped(t: Text)
    requires IsWritten(t) && t != [] && t[0] == BYTE_ORDER_MARK
    ensures ReadPast(BytesOf(t), t)
    decreases |t|
  {
    if |t| == 1 {
      MarkAlone(t);
    } else {
      var front, c := t[..|t| - 1], t[|t| - 1];
      assert front + [c] == t;
      MarksAreDropped(front);
      OneMorePast(BytesOf(front), front, c);
      OnePointMore(front, c);
    }
  }

  lemma {:induction false} MarkAlone(t: Text)
    requires IsWritten(t) && t == [BYTE_ORDER_MARK]
    ensures ReadPast(BytesOf(t), t)
  {
    MarkIsSwallowed();
    OnePointMore([], BYTE_ORDER_MARK);
    assert [] + [BYTE_ORDER_MARK] == t && [] + Bytes(BYTE_ORDER_MARK) == Bytes(BYTE_ORDER_MARK) && t[1..] == [];
  }

  // ---------------------------------------------------------------------------------------
  // What is not

  ghost predicate Starts(a: Byte, c: int) { IsScalar(c) && Bytes(c)[0] == a }

  ghost predicate StartsBoth(a: Byte, b: Byte, c: int) { IsScalar(c) && |Bytes(c)| > 1 && Bytes(c)[0] == a && Bytes(c)[1] == b }

  /** A code point whose bytes start with this one, the least. */
  function Lowest(a: Byte): int
    requires a < 0x80 || 0xC2 <= a <= 0xF4
  {
    if a < 0x80 then a else if a <= 0xDF then 64 * (a - 0xC0) else if a == 0xE0 then 0x800 else if a <= 0xEF then 4096 * (a - 0xE0)
    else if a == 0xF0 then 0x1_0000 else 262144 * (a - 0xF0)
  }

  lemma LowestStarts(a: Byte)
    requires a < 0x80 || 0xC2 <= a <= 0xF4
    ensures Starts(a, Lowest(a))
  {
  }

  lemma FirstByte(c: int)
    requires IsScalar(c)
    ensures var a := Bytes(c)[0]; (a < 0x80 || 0xC2 <= a <= 0xF4) && Lead(a).0.left == Width(c) - 1 && |Bytes(c)| == Width(c)
  {
  }

  /** A byte starts nothing, and is read as unreadable on its own, if and only if no character is written with it in front;
      otherwise as many bytes are awaited as such a character takes. */
  lemma StartsExactlyWhen(a: Byte)
    ensures Lead(a) == (NO_SEQUENCE, [REPLACEMENT]) <==> forall c :: !Starts(a, c)
    ensures forall c :: Starts(a, c) ==> Lead(a).0.left == Width(c) - 1
  {
    forall c | Starts(a, c) ensures (a < 0x80 || 0xC2 <= a <= 0xF4) && Lead(a).0.left == Width(c) - 1 {
      FirstByte(c);
    }
    if a < 0x80 || 0xC2 <= a <= 0xF4 {
      LowestStarts(a);
    }
  }

  lemma TwoStart(a: Byte, b: Byte)
    requires 0xC2 <= a <= 0xDF && 0x80 <= b <= 0xBF
    ensures StartsBoth(a, b, 64 * (a - 0xC0) + (b - 0x80))
  {
    var c := 64 * (a - 0xC0) + (b - 0x80);
    assert c / 64 == a - 0xC0 && c % 64 == b - 0x80;
  }

  lemma TwoOfThreeStart(a: Byte, b: Byte)
    requires 0xE0 <= a <= 0xEF && Lead(a).0.lower <= b <= Lead(a).0.upper
    ensures StartsBoth(a, b, 4096 * (a - 0xE0) + 64 * (b - 0x80))
  {
    var c := 4096 * (a - 0xE0) + 64 * (b - 0x80);
    assert c / 4096 == a - 0xE0 && c / 64 == 64 * (a - 0xE0) + (b - 0x80);
  }

  lemma TwoOfFourStart(a: Byte, b: Byte)
    requires 0xF0 <= a <= 0xF4 && Lead(a).0.lower <= b <= Lead(a).0.upper
    ensures StartsBoth(a, b, 262144 * (a - 0xF0) + 4096 * (b - 0x80))
  {
    var c := 262144 * (a - 0xF0) + 4096 * (b - 0x80);
    assert c / 262144 == a - 0xF0 && c / 4096 == 64 * (a - 0xF0) + (b - 0x80);
  }

  lemma SecondByte(c: int)
    requires IsScalar(c) && c >= 0x80
    ensures Lead(Bytes(c)[0]).0.lower <= Bytes(c)[1] <= Lead(Bytes(c)[0]).0.upper
  {
    if 0x800 <= c < 0x1_0000 {
      ThreeParts(c);
    } else if 0x1_0000 <= c {
      FourParts(c);
    }
  }

  /** And a second byte is taken into the sequence if and only if some character is written with both in front. */
  lemma ContinuesExactlyWhen(a: Byte, b: Byte)
    requires Lead(a).0.left > 0
    ensures Lead(a).0.lower <= b <= Lead(a).0.upper <==> exists c :: StartsBoth(a, b, c)
  {
    forall c | StartsBoth(a, b, c) ensures Lead(a).0.lower <= b <= Lead(a).0.upper {
      SecondByte(c);
    }
    if Lead(a).0.lower <= b <= Lead(a).0.upper {
      if a <= 0xDF {
        TwoStart(a, b);
      } else if a <= 0xEF {
        TwoOfThreeStart(a, b);
      } else {
        TwoOfFourStart(a, b);
      }
    }
  }

  /** A byte that cannot go on ends the sequence as unreadable, and is read as if it stood alone. */
  lemma BrokenSequencesAreReplaced(d: Decoder, b: Byte)
    requires d.started && d.sequence.left > 0 && !(d.sequence.lower <= b <= d.sequence.upper)
    ensures DecodeByte(d, b).1 == [REPLACEMENT] + DecodeByte(Decoder(NO_SEQUENCE, true), b).1
    ensures DecodeByte(d, b).0 == DecodeByte(Decoder(NO_SEQUENCE, true), b).0
  {
  }
}
