/** Two values share a canonical text exactly when they are the same tree. */
module StableJsonUnique {
  import opened StableJson

  /** What the text can still distinguish: -0 prints as 0, and NaN and the infinities as null. */
  function Normal(v: Value): Value
    decreases v
  {
    match v
    case NegativeZero => Number(ZERO)
    case NonFinite => Null
    case Arr(xs) => Arr(NormalItems(xs))
    case Obj(m) => Obj(map k | k in m :: Normal(m[k]))
    case _ => v
  }

  function NormalItems(xs: seq<Value>): seq<Value>
    decreases xs
  {
    if xs == [] then [] else [Normal(xs[0])] + NormalItems(xs[1..])
  }

  /** No negative zero, NaN or infinity anywhere: the values the text was designed for. */
  predicate Printable(v: Value)
    decreases v
  {
    match v
    case NegativeZero => false
    case NonFinite => false
    case Arr(xs) => forall x :: x in xs ==> Printable(x)
    case Obj(m) => forall k :: k in m ==> Printable(m[k])
    case _ => true
  }

  lemma {:induction false} PrintableIsNormal(v: Value)
    requires Printable(v)
    ensures Normal(v) == v
    decreases v
  {
    match v
    case Arr(xs) => PrintableItemsAreNormal(xs);
    case Obj(m) =>
      forall k | k in m ensures Normal(m[k]) == m[k] {
        PrintableIsNormal(m[k]);
      }
      assert (map k | k in m :: Normal(m[k])) == m;
    case _ =>
  }

  lemma {:induction false} PrintableItemsAreNormal(xs: seq<Value>)
    requires forall x :: x in xs ==> Printable(x)
    ensures NormalItems(xs) == xs
    decreases xs
  {
    if xs != [] {
      PrintableIsNormal(xs[0]);
      PrintableItemsAreNormal(xs[1..]);
    }
  }

  // ---------------------------------------------------------------------------------------
  // Strings can be read back

  function HexValue(d: Unit): int {
    if d < 0x3A then d - 0x30 else d - 0x57
  }

  lemma Hex4Value(u: Unit)
    ensures var h := Hex4(u); u == 4096 * HexValue(h[0]) + 256 * HexValue(h[1]) + 16 * HexValue(h[2]) + HexValue(h[3])
  {
    var a, b, c := u / 4096, u / 256, u / 16;
    assert u == 16 * c + u % 16;
    assert c == 16 * b + c % 16;
    assert b == 16 * a + b % 16;
  }

  lemma SplitAt(a: Text, b: Text, x: Text, y: Text)
    requires a + x == b + y && |a| == |b|
    ensures a == b && x == y
  {
    assert a == (a + x)[..|a|] && b == (b + y)[..|b|];
    assert x == (a + x)[|a|..] && y == (b + y)[|b|..];
  }

  lemma Chain(a: Text, b: Text, c: Text, d: Text, e: Text)
    ensures (a + b + c) + d + e == a + (b + (c + d + e))
  {
  }

  lemma Bracket(open: Text, body: Text, close: Text, s: Text)
    ensures (open + body + close) + s == open + (body + close + s)
  {
  }

  lemma EscapeHeadUnique(s: Text, t: Text, x: Text, y: Text)
    requires s != [] && t != [] && EscapeHead(s) + x == EscapeHead(t) + y
    ensures HeadLength(s) == HeadLength(t) && s[..HeadLength(s)] == t[..HeadLength(t)] && x == y
  {
    var a, b := EscapeHead(s), EscapeHead(t);
    assert (a + x)[0] == a[0] && (b + y)[0] == b[0];
    if a[0] == BACKSLASH && |a| > 1 && |b| > 1 {
      assert (a + x)[1] == a[1] && (b + y)[1] == b[1];
    }
    assert |a| == |b|;
    SplitAt(a, b, x, y);
    if |a| == 6 {
      assert a[2..] == Hex4(s[0]) && b[2..] == Hex4(t[0]);
      Hex4Value(s[0]);
      Hex4Value(t[0]);
    }
    assert s[0] == t[0];
    assert HeadLength(s) == 2 ==> s[1] == a[1] == b[1] == t[1];
  }

  lemma EmptyEscape(s: Text, x: Text)
    ensures var l := Escape(s) + [QUOTE] + x; if s == [] then l == [QUOTE] + x else l[0] != QUOTE
  {
    if s != [] {
      assert Escape(s)[0] == EscapeHead(s)[0];
    }
  }

  lemma {:induction false} EscapeUnique(s: Text, t: Text, x: Text, y: Text)
    requires Escape(s) + [QUOTE] + x == Escape(t) + [QUOTE] + y
    ensures s == t && x == y
    decreases |s|
  {
    if s == [] || t == [] {
      EmptyEscape(s, x);
      EmptyEscape(t, y);
      SplitAt([QUOTE], [QUOTE], x, y);
    } else {
      var s', t' := s[HeadLength(s)..], t[HeadLength(t)..];
      var x', y' := Escape(s') + [QUOTE] + x, Escape(t') + [QUOTE] + y;
      Bracket(EscapeHead(s), Escape(s'), [QUOTE], x);
      Bracket(EscapeHead(t), Escape(t'), [QUOTE], y);
      EscapeHeadUnique(s, t, x', y');
      EscapeUnique(s', t', x, y);
      assert s == s[..HeadLength(s)] + s' && t == t[..HeadLength(t)] + t';
    }
  }

  lemma QuotedUnique(s: Text, t: Text, x: Text, y: Text)
    requires Quoted(s) + x == Quoted(t) + y
    ensures s == t && x == y
  {
    assert Quoted(s) + x == [QUOTE] + (Escape(s) + [QUOTE] + x);
    assert Quoted(t) + y == [QUOTE] + (Escape(t) + [QUOTE] + y);
    SplitAt([QUOTE], [QUOTE], Escape(s) + [QUOTE] + x, Escape(t) + [QUOTE] + y);
    EscapeUnique(s, t, x, y);
  }

  // ---------------------------------------------------------------------------------------
  // Values can be read back

  /** What may follow a value inside a canonical text. */
  ghost predicate Stop(s: Text) {
    s == [] || s[0] == COMMA || s[0] == CLOSE_ARRAY || s[0] == CLOSE_OBJECT
  }

  ghost predicate Leads(u: Unit, v: Value) {
    match v
    case Undefined => u == 0x75
    case Null => u == 0x6E
    case NonFinite => u == 0x6E
    case Bool(b) => u == if b then 0x74 else 0x66
    case Number(_) => IsDigit(u) || u == MINUS
    case NegativeZero => IsDigit(u)
    case Str(_) => u == QUOTE
    case Arr(_) => u == OPEN_ARRAY
    case Obj(_) => u == OPEN_OBJECT
  }

  lemma FirstUnit(v: Value, s: Text)
    ensures Encode(v) != [] && Leads((Encode(v) + s)[0], v)
  {
    assert (Encode(v) + s)[0] == Encode(v)[0];
  }

  function NumeralPrefix(t: Text): nat {
    if t != [] && IsNumeralUnit(t[0]) then 1 + NumeralPrefix(t[1..]) else 0
  }

  lemma {:induction false} NumeralEnds(a: Text, s: Text)
    requires (forall i :: 0 <= i < |a| ==> IsNumeralUnit(a[i])) && Stop(s)
    ensures NumeralPrefix(a + s) == |a|
  {
    if a == [] {
      assert a + s == s;
    } else {
      assert (a + s)[1..] == a[1..] + s;
      NumeralEnds(a[1..], s);
    }
  }

  lemma NumeralUnique(a: Numeral, b: Numeral, s: Text, t: Text)
    requires a + s == b + t && Stop(s) && Stop(t)
    ensures a == b && s == t
  {
    NumeralEnds(a, s);
    NumeralEnds(b, t);
    SplitAt(a, b, s, t);
  }

  lemma SameShape(a: Value, b: Value, s: Text, t: Text)
    requires Encode(a) + s == Encode(b) + t
    ensures a.Str? <==> b.Str?
    ensures a.Arr? <==> b.Arr?
    ensures a.Obj? <==> b.Obj?
    ensures a.Number? || a.NegativeZero? <==> b.Number? || b.NegativeZero?
    ensures a.Undefined? || a.Null? || a.NonFinite? || a.Bool? ==> Normal(a) == Normal(b) && Encode(a) == Encode(b)
  {
    FirstUnit(a, s);
    FirstUnit(b, t);
  }

  function Digits(v: Value): Numeral
    requires v.Number? || v.NegativeZero?
  {
    if v.Number? then v.numeral else ZERO
  }

  lemma {:induction false} ReadBack(a: Value, b: Value, s: Text, t: Text)
    requires Encode(a) + s == Encode(b) + t && Stop(s) && Stop(t)
    ensures Normal(a) == Normal(b) && s == t
    decreases a, 2
  {
    SameShape(a, b, s, t);
    if a.Number? || a.NegativeZero? {
      NumeralUnique(Digits(a), Digits(b), s, t);
    } else if a.Str? {
      QuotedUnique(a.text, b.text, s, t);
    } else if a.Arr? {
      ReadArrayBack(a, b, s, t);
    } else if a.Obj? {
      ReadObjectBack(a, b, s, t);
    } else {
      SplitAt(Encode(a), Encode(b), s, t);
    }
  }

  lemma {:induction false} ReadArrayBack(a: Value, b: Value, s: Text, t: Text)
    requires a.Arr? && b.Arr? && Encode(a) + s == Encode(b) + t
    ensures Normal(a) == Normal(b) && s == t
    decreases a, 1
  {
    var l, r := EncodeItems(a.items), EncodeItems(b.items);
    Bracket([OPEN_ARRAY], l, [CLOSE_ARRAY], s);
    Bracket([OPEN_ARRAY], r, [CLOSE_ARRAY], t);
    SplitAt([OPEN_ARRAY], [OPEN_ARRAY], l + [CLOSE_ARRAY] + s, r + [CLOSE_ARRAY] + t);
    ReadItemsBack(a.items, b.items, s, t);
  }

  lemma {:induction false} ReadObjectBack(a: Value, b: Value, s: Text, t: Text)
    requires a.Obj? && b.Obj? && Encode(a) + s == Encode(b) + t
    ensures Normal(a) == Normal(b) && s == t
    decreases a, 1
  {
    var ks, ls := SortedKeys(a.fields.Keys), SortedKeys(b.fields.Keys);
    var l, r := EncodeFields(a, ks), EncodeFields(b, ls);
    Bracket([OPEN_OBJECT], l, [CLOSE_OBJECT], s);
    Bracket([OPEN_OBJECT], r, [CLOSE_OBJECT], t);
    SplitAt([OPEN_OBJECT], [OPEN_OBJECT], l + [CLOSE_OBJECT] + s, r + [CLOSE_OBJECT] + t);
    ReadFieldsBack(a, b, ks, ls, s, t);
    SameKeys(a.fields, b.fields);
  }

  lemma SameKeys(m: map<Text, Value>, n: map<Text, Value>)
    requires SortedKeys(m.Keys) == SortedKeys(n.Keys)
    requires forall k :: k in SortedKeys(m.Keys) ==> Normal(m[k]) == Normal(n[k])
    ensures Normal(Obj(m)) == Normal(Obj(n))
  {
    SortedKeysTell(m.Keys, n.Keys);
    forall k | k in m ensures Normal(m[k]) == Normal(n[k]) {
      assert k in SortedKeys(m.Keys);
    }
    SameNormalFields(m, n);
  }

  lemma SortedKeysTell(a: set<Text>, b: set<Text>)
    requires SortedKeys(a) == SortedKeys(b)
    ensures a == b
  {
    forall k ensures k in a <==> k in b {
      assert k in SortedKeys(a) <==> k in a;
    }
  }

  lemma SameNormalFields(m: map<Text, Value>, n: map<Text, Value>)
    requires m.Keys == n.Keys && forall k :: k in m ==> Normal(m[k]) == Normal(n[k])
    ensures Normal(Obj(m)) == Normal(Obj(n))
  {
  }

  lemma {:induction false} ReadItemsBack(xs: seq<Value>, ys: seq<Value>, s: Text, t: Text)
    requires EncodeItems(xs) + [CLOSE_ARRAY] + s == EncodeItems(ys) + [CLOSE_ARRAY] + t
    ensures NormalItems(xs) == NormalItems(ys) && s == t
    decreases xs
  {
    if xs == [] || ys == [] {
      EmptyItems(xs, s);
      EmptyItems(ys, t);
      SplitAt([CLOSE_ARRAY], [CLOSE_ARRAY], s, t);
    } else {
      var x, y := AfterItem(xs, s), AfterItem(ys, t);
      FirstItem(xs, s);
      FirstItem(ys, t);
      ReadBack(xs[0], ys[0], x, y);
      if |xs| > 1 {
        SplitAt([COMMA], [COMMA], x[1..], y[1..]);
        ReadItemsBack(xs[1..], ys[1..], s, t);
      } else {
        SplitAt([CLOSE_ARRAY], [CLOSE_ARRAY], s, t);
      }
    }
  }

  lemma EmptyItems(xs: seq<Value>, s: Text)
    ensures var l := EncodeItems(xs) + [CLOSE_ARRAY] + s;
            if xs == [] then l == [CLOSE_ARRAY] + s else l[0] != CLOSE_ARRAY
  {
    if xs != [] {
      FirstUnit(xs[0], []);
      assert (Encode(xs[0]) + [])[0] == (EncodeItems(xs) + [CLOSE_ARRAY] + s)[0];
    }
  }

  /** What follows the first item of a list. */
  ghost function AfterItem(xs: seq<Value>, s: Text): Text
    requires xs != []
  {
    if |xs| == 1 then [CLOSE_ARRAY] + s else [COMMA] + (EncodeItems(xs[1..]) + [CLOSE_ARRAY] + s)
  }

  lemma FirstItem(xs: seq<Value>, s: Text)
    requires xs != []
    ensures EncodeItems(xs) + [CLOSE_ARRAY] + s == Encode(xs[0]) + AfterItem(xs, s)
  {
    var head := Encode(xs[0]);
    if |xs| == 1 {
      Bracket([], head, [CLOSE_ARRAY], s);
      assert head + [CLOSE_ARRAY] + s == head + ([CLOSE_ARRAY] + s);
    } else {
      Chain(head, [COMMA], EncodeItems(xs[1..]), [CLOSE_ARRAY], s);
    }
  }

  lemma {:induction false} ReadFieldsBack(v: Value, w: Value, ks: seq<Text>, ls: seq<Text>, s: Text, t: Text)
    requires v.Obj? && (forall k :: k in ks ==> k in v.fields)
    requires w.Obj? && (forall k :: k in ls ==> k in w.fields)
    requires EncodeFields(v, ks) + [CLOSE_OBJECT] + s == EncodeFields(w, ls) + [CLOSE_OBJECT] + t
    ensures ks == ls && s == t
    ensures forall k :: k in ks ==> Normal(v.fields[k]) == Normal(w.fields[k])
    decreases v, 0, |ks|
  {
    if ks == [] || ls == [] {
      EmptyFields(v, ks, s);
      EmptyFields(w, ls, t);
      SplitAt([CLOSE_OBJECT], [CLOSE_OBJECT], s, t);
    } else {
      var x, y := AfterField(v, ks, s), AfterField(w, ls, t);
      var p, q := Encode(v.fields[ks[0]]) + x, Encode(w.fields[ls[0]]) + y;
      FirstField(v, ks, s);
      FirstField(w, ls, t);
      QuotedUnique(ks[0], ls[0], [COLON] + p, [COLON] + q);
      SplitAt([COLON], [COLON], p, q);
      ReadBack(v.fields[ks[0]], w.fields[ls[0]], x, y);
      if |ks| > 1 {
        SplitAt([COMMA], [COMMA], x[1..], y[1..]);
        ReadFieldsBack(v, w, ks[1..], ls[1..], s, t);
      } else {
        SplitAt([CLOSE_OBJECT], [CLOSE_OBJECT], s, t);
      }
      assert ks == [ks[0]] + ks[1..] && ls == [ls[0]] + ls[1..];
    }
  }

  lemma EmptyFields(v: Value, ks: seq<Text>, s: Text)
    requires v.Obj? && (forall k :: k in ks ==> k in v.fields)
    ensures var l := EncodeFields(v, ks) + [CLOSE_OBJECT] + s;
            if ks == [] then l == [CLOSE_OBJECT] + s else l[0] == QUOTE
  {
    if ks != [] {
      assert EncodeField(v, ks[0])[0] == QUOTE;
      assert EncodeFields(v, ks)[0] == QUOTE;
    }
  }

  /** What follows the first field of an object. */
  ghost function AfterField(v: Value, ks: seq<Text>, s: Text): Text
    requires v.Obj? && ks != [] && (forall k :: k in ks ==> k in v.fields)
  {
    if |ks| == 1 then [CLOSE_OBJECT] + s else [COMMA] + (EncodeFields(v, ks[1..]) + [CLOSE_OBJECT] + s)
  }

  lemma FirstField(v: Value, ks: seq<Text>, s: Text)
    requires v.Obj? && ks != [] && (forall k :: k in ks ==> k in v.fields)
    ensures EncodeFields(v, ks) + [CLOSE_OBJECT] + s
            == Quoted(ks[0]) + ([COLON] + (Encode(v.fields[ks[0]]) + AfterField(v, ks, s)))
  {
    var field, after := EncodeField(v, ks[0]), AfterField(v, ks, s);
    if |ks| == 1 {
      assert field + [CLOSE_OBJECT] + s == field + ([CLOSE_OBJECT] + s);
    } else {
      Chain(field, [COMMA], EncodeFields(v, ks[1..]), [CLOSE_OBJECT], s);
    }
    Triple(Quoted(ks[0]), [COLON], Encode(v.fields[ks[0]]), after);
  }

  lemma Triple(a: Text, b: Text, c: Text, d: Text)
    ensures (a + b + c) + d == a + (b + (c + d))
  {
  }

  // ---------------------------------------------------------------------------------------
  // And the text depends on nothing else

  lemma {:induction false} EncodesAsNormal(v: Value)
    ensures Encode(Normal(v)) == Encode(v)
    decreases v
  {
    match v
    case Arr(xs) => ItemsEncodeAsNormal(xs);
    case Obj(m) =>
      assert Normal(v).fields.Keys == m.Keys;
      FieldsEncodeAsNormal(v, SortedKeys(m.Keys));
    case _ =>
  }

  lemma {:induction false} ItemsEncodeAsNormal(xs: seq<Value>)
    ensures EncodeItems(NormalItems(xs)) == EncodeItems(xs)
    decreases xs
  {
    if xs != [] {
      EncodesAsNormal(xs[0]);
      ItemsEncodeAsNormal(xs[1..]);
      assert NormalItems(xs)[1..] == NormalItems(xs[1..]);
    }
  }

  lemma {:induction false} FieldsEncodeAsNormal(v: Value, keys: seq<Text>)
    requires v.Obj? && forall k :: k in keys ==> k in v.fields
    ensures EncodeFields(Normal(v), keys) == EncodeFields(v, keys)
    decreases v, |keys|
  {
    if keys != [] {
      EncodesAsNormal(v.fields[keys[0]]);
      FieldsEncodeAsNormal(v, keys[1..]);
    }
  }

  /** The canonical text decides equality of trees, up to the three numbers it cannot show. */
  lemma StableJsonDecidesEquality(a: Value, b: Value)
    ensures Encode(a) == Encode(b) <==> Normal(a) == Normal(b)
    ensures Printable(a) && Printable(b) ==> (Encode(a) == Encode(b) <==> a == b)
  {
    if Encode(a) == Encode(b) {
      ReadBack(a, b, [], []);
    }
    EncodesAsNormal(a);
    EncodesAsNormal(b);
    if Printable(a) && Printable(b) {
      PrintableIsNormal(a);
      PrintableIsNormal(b);
    }
  }

  /** Outside that domain different values do collide. */
  lemma UnprintableNumbersCollide()
    ensures Encode(NegativeZero) == Encode(Number(ZERO))
    ensures Encode(NonFinite) == Encode(Null)
    ensures Encode(Arr([NonFinite])) == Encode(Arr([Null])) && Arr([NonFinite]) != Arr([Null])
  {
    assert EncodeItems([NonFinite]) == Encode(NonFinite);
    assert EncodeItems([Null]) == Encode(Null);
  }

  // ---------------------------------------------------------------------------------------
  // The escapes (QuoteJSONString, section 25.5.2.2 of ECMA-262)

  /** The units with an escape of their own, and its letter. */
  const LETTERS: map<int, int> := map[0x08 := 0x62, 0x09 := 0x74, 0x0A := 0x6E, 0x0C := 0x66, 0x0D := 0x72, 0x22 := 0x22, 0x5C := 0x5C]

  /** What a hexadecimal digit, in lower case, stands for. */
  function DigitValue(u: int): int { if 0x30 <= u <= 0x39 then u - 0x30 else if 0x61 <= u <= 0x66 then u - 0x61 + 10 else -1 }

  ghost predicate IsHex4(h: Text, u: int) {
    && |h| == 4 && (forall i :: 0 <= i < 4 ==> DigitValue(h[i]) >= 0)
    && 4096 * DigitValue(h[0]) + 256 * DigitValue(h[1]) + 16 * DigitValue(h[2]) + DigitValue(h[3]) == u
  }

  lemma DigitsAreExact(d: int)
    requires 0 <= d < 16
    ensures DigitValue(HexDigit(d)) == d == HexValue(HexDigit(d))
  {
  }

  lemma Hex4IsExact(u: Unit)
    ensures IsHex4(Hex4(u), u)
  {
    Hex4Value(u);
    DigitsAreExact(u / 4096);
    DigitsAreExact(u / 256 % 16);
    DigitsAreExact(u / 16 % 16);
    DigitsAreExact(u % 16);
  }

  /** A pair of surrogates goes through as it is, a unit with a letter by its letter, any other control unit and a surrogate
      that stands alone by its number, and everything else as it is. */
  lemma EscapesAreExact(s: Text)
    requires s != []
    ensures var (u, head) := (s[0], EscapeHead(s));
            var pair := |s| > 1 && 0xD800 <= u < 0xDC00 <= s[1] < 0xE000;
            && HeadLength(s) == (if pair then 2 else 1)
            && if pair then head == s[..2]
               else if u in LETTERS then head == [0x5C, LETTERS[u]]
               else if u < 0x20 || 0xD800 <= u < 0xE000 then |head| == 6 && head[..2] == [0x5C, 0x75] && IsHex4(head[2..], u)
               else head == [u]
  {
    Hex4IsExact(s[0]);
    assert |s| > 1 ==> s[..2] == [s[0], s[1]];
    assert ([BACKSLASH, 0x75] + Hex4(s[0]))[2..] == Hex4(s[0]);
  }
}
