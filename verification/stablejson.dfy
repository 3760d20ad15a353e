/** The canonical JSON text that cache keys and duplicate-call keys are digests of. */
module StableJson {

  /** UTF-16 code units, as the program's strings hold them. */
  type Unit = x: int | 0 <= x < 0x10000
  type Text = seq<Unit>

  const BACKSPACE: Unit := 0x08
  const TAB: Unit := 0x09
  const LINE_FEED: Unit := 0x0A
  const FORM_FEED: Unit := 0x0C
  const RETURN: Unit := 0x0D
  const QUOTE: Unit := 0x22
  const PLUS: Unit := 0x2B
  const COMMA: Unit := 0x2C
  const MINUS: Unit := 0x2D
  const POINT: Unit := 0x2E
  const COLON: Unit := 0x3A
  const OPEN_ARRAY: Unit := 0x5B
  const BACKSLASH: Unit := 0x5C
  const CLOSE_ARRAY: Unit := 0x5D
  const OPEN_OBJECT: Unit := 0x7B
  const CLOSE_OBJECT: Unit := 0x7D

  predicate IsDigit(u: Unit) { 0x30 <= u <= 0x39 }

  predicate IsNumeralUnit(u: Unit) {
    IsDigit(u) || u == MINUS || u == PLUS || u == POINT || u == 0x65
  }

  /** The shortest decimal text of a finite number other than negative zero. */
  ghost predicate IsNumeral(t: Text) {
    t != [] && (IsDigit(t[0]) || t[0] == MINUS) && forall i :: 0 <= i < |t| ==> IsNumeralUnit(t[i])
  }

  const ZERO: Text := [0x30]

  type Numeral = t: Text | IsNumeral(t) witness [0x30]

  /** A JavaScript value as the encoder sees it. An object is a map: its keys have no order. */
  datatype Value =
    | Undefined
    | Null
    | Bool(b: bool)
    | Number(numeral: Numeral)
    | NegativeZero
    | NonFinite
    | Str(text: Text)
    | Arr(items: seq<Value>)
    | Obj(fields: map<Text, Value>)

  // ---------------------------------------------------------------------------------------
  // Strings (section 7 of RFC 8259)

  predicate IsHigh(u: Unit) { 0xD800 <= u <= 0xDBFF }

  predicate IsLow(u: Unit) { 0xDC00 <= u <= 0xDFFF }

  function HexDigit(d: int): Unit
    requires 0 <= d < 16
  {
    if d < 10 then 0x30 + d else 0x57 + d
  }

  function Hex4(u: Unit): Text {
    [HexDigit(u / 4096), HexDigit(u / 256 % 16), HexDigit(u / 16 % 16), HexDigit(u % 16)]
  }

  /** How many units the next escape step consumes: a surrogate pair goes through whole. */
  function HeadLength(s: Text): (n: nat)
    requires s != []
    ensures 1 <= n <= |s|
  {
    if |s| > 1 && IsHigh(s[0]) && IsLow(s[1]) then 2 else 1
  }

  function EscapeHead(s: Text): Text
    requires s != []
  {
    var u := s[0];
    if HeadLength(s) == 2 then [s[0], s[1]]
    else if u == QUOTE then [BACKSLASH, QUOTE]
    else if u == BACKSLASH then [BACKSLASH, BACKSLASH]
    else if u == BACKSPACE then [BACKSLASH, 0x62]
    else if u == FORM_FEED then [BACKSLASH, 0x66]
    else if u == LINE_FEED then [BACKSLASH, 0x6E]
    else if u == RETURN then [BACKSLASH, 0x72]
    else if u == TAB then [BACKSLASH, 0x74]
    else if u < 0x20 || IsHigh(u) || IsLow(u) then [BACKSLASH, 0x75] + Hex4(u)
    else [u]
  }

  function Escape(s: Text): Text {
    if s == [] then [] else EscapeHead(s) + Escape(s[HeadLength(s)..])
  }

  function Quoted(s: Text): Text {
    [QUOTE] + Escape(s) + [QUOTE]
  }

  // ---------------------------------------------------------------------------------------
  // Key order

  /** Array.prototype.sort without a comparator: by UTF-16 code units. */
  predicate Before(a: Text, b: Text) {
    b != [] && (a == [] || a[0] < b[0] || (a[0] == b[0] && Before(a[1..], b[1..])))
  }

  lemma {:induction false} BeforeIsTotal(a: Text, b: Text)
    ensures a == b || Before(a, b) || Before(b, a)
  {
    if a != [] && b != [] && a[0] == b[0] {
      BeforeIsTotal(a[1..], b[1..]);
      assert a == [a[0]] + a[1..] && b == [b[0]] + b[1..];
    }
  }

  lemma {:induction false} BeforeIsStrict(a: Text, b: Text, c: Text)
    ensures !Before(a, a)
    ensures Before(a, b) && Before(b, c) ==> Before(a, c)
  {
    if a != [] {
      BeforeIsStrict(a[1..], if b == [] then [] else b[1..], if c == [] then [] else c[1..]);
    }
  }

  ghost predicate IsLeast(k: Text, keys: set<Text>) {
    k in keys && forall j :: j in keys && j != k ==> Before(k, j)
  }

  lemma {:induction false} LeastExists(keys: set<Text>)
    requires keys != {}
    ensures exists k :: IsLeast(k, keys)
  {
    var x :| x in keys;
    var rest := keys - {x};
    if rest == {} {
      assert keys == {x};
      assert IsLeast(x, keys);
    } else {
      LeastExists(rest);
      var k :| IsLeast(k, rest);
      BeforeIsTotal(x, k);
      if Before(x, k) {
        forall j | j in keys && j != x ensures Before(x, j) {
          BeforeIsStrict(x, k, j);
        }
        assert IsLeast(x, keys);
      } else {
        assert IsLeast(k, keys);
      }
    }
  }

  ghost function Least(keys: set<Text>): (k: Text)
    requires keys != {}
    ensures IsLeast(k, keys)
  {
    LeastExists(keys);
    var k :| IsLeast(k, keys);
    k
  }

  ghost function SortedKeys(keys: set<Text>): (s: seq<Text>)
    ensures forall k :: k in s <==> k in keys
    ensures |s| == |keys|
    ensures forall i, j :: 0 <= i < j < |s| ==> Before(s[i], s[j])
  {
    if keys == {} then [] else [Least(keys)] + SortedKeys(keys - {Least(keys)})
  }

  // ---------------------------------------------------------------------------------------
  // The encoder

  ghost function Encode(v: Value): Text
    decreases v
  {
    match v
    case Undefined => [0x75, 0x6E, 0x64, 0x65, 0x66, 0x69, 0x6E, 0x65, 0x64]
    case Null => [0x6E, 0x75, 0x6C, 0x6C]
    case Bool(b) => if b then [0x74, 0x72, 0x75, 0x65] else [0x66, 0x61, 0x6C, 0x73, 0x65]
    case Number(n) => n
    case NegativeZero => ZERO
    case NonFinite => [0x6E, 0x75, 0x6C, 0x6C]
    case Str(s) => Quoted(s)
    case Arr(xs) => [OPEN_ARRAY] + EncodeItems(xs) + [CLOSE_ARRAY]
    case Obj(m) => [OPEN_OBJECT] + EncodeFields(v, SortedKeys(m.Keys)) + [CLOSE_OBJECT]
  }

  ghost function EncodeItems(xs: seq<Value>): Text
    decreases xs
  {
    if xs == [] then []
    else if |xs| == 1 then Encode(xs[0])
    else Encode(xs[0]) + [COMMA] + EncodeItems(xs[1..])
  }

  ghost function EncodeField(v: Value, key: Text): Text
    requires v.Obj? && key in v.fields
    decreases v, 0, 0
  {
    Quoted(key) + [COLON] + Encode(v.fields[key])
  }

  ghost function EncodeFields(v: Value, keys: seq<Text>): Text
    requires v.Obj? && forall k :: k in keys ==> k in v.fields
    decreases v, 1, |keys|
  {
    if keys == [] then []
    else if |keys| == 1 then EncodeField(v, keys[0])
    else EncodeField(v, keys[0]) + [COMMA] + EncodeFields(v, keys[1..])
  }
}
