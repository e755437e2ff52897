/** The canonical JSON text a checksum is taken of (server/db/importer.ts), with a parser for
    the JSON grammar of RFC 8259 that inverts it. */
module CanonicalJson {
  import opened JsText
  import opened Options

  /** A JavaScript value.  A number is told by its JSON lexeme; `Opaque` is whatever
      `JSON.stringify` gives no better text for than `null`, or for nothing at all, without
      being `undefined`: NaN, the infinities, functions, symbols.  The properties of an
      object stand in the order `Object.entries` lists them. */
  datatype Value =
    | Undefined
    | Opaque
    | Null
    | Bool(on: bool)
    | Number(lexeme: Text)
    | Str(text: Text)
    | Arr(items: seq<Value>)
    | Obj(props: seq<Prop>)

  datatype Prop = Prop(key: Text, value: Value)

  // ----- sizes -----

  function Size(v: Value): nat
    decreases v
  {
    match v
    case Arr(items) => 1 + ItemsSize(items)
    case Obj(props) => 1 + PropsSize(props)
    case _ => 1
  }

  function ItemsSize(items: seq<Value>): nat
    decreases items
  {
    if items == [] then 0 else Size(items[0]) + ItemsSize(items[1..])
  }

  function PropsSize(props: seq<Prop>): nat
    decreases props
  {
    if props == [] then 0 else Size(props[0].value) + PropsSize(props[1..])
  }

  // ----- the order of keys -----

  /** `a < b` on strings: by code unit. */
  predicate Before(a: Text, b: Text) {
    b != [] && (a == [] || a[0] < b[0] || (a[0] == b[0] && Before(a[1..], b[1..])))
  }

  lemma {:induction false} BeforeTotal(a: Text, b: Text)
    ensures Before(a, b) || a == b || Before(b, a)
    ensures !(Before(a, b) && Before(b, a)) && !Before(a, a)
  {
    if a != [] && b != [] {
      BeforeTotal(a[1..], b[1..]);
      BeforeTotal(a[1..], a[1..]);
      if a[0] == b[0] && a[1..] == b[1..] { assert a == [a[0]] + a[1..] == b; }
    } else if a != [] {
      BeforeTotal(a[1..], a[1..]);
    }
  }

  /** The texts agree up to `n`, where the first ends or has the smaller unit. */
  predicate DiffersAt(a: Text, b: Text, n: nat) {
    && n <= |a| && n <= |b| && a[..n] == b[..n]
    && (n == |a| < |b| || (n < |a| && n < |b| && a[n] < b[n]))
  }

  lemma DiffersLater(a: Text, b: Text, n: nat)
    requires a != [] && b != [] && a[0] == b[0]
    ensures DiffersAt(a, b, n + 1) <==> DiffersAt(a[1..], b[1..], n)
  {
    if n < |a| && n < |b| {
      assert a[..n + 1] == [a[0]] + a[1..][..n] && b[..n + 1] == [b[0]] + b[1..][..n];
      assert a[..n + 1][1..] == a[1..][..n] && b[..n + 1][1..] == b[1..][..n];
    }
  }

  /** The order ascends: at the first difference, a proper prefix or the smaller unit comes
      first. */
  lemma {:induction false} BeforeAtFirstDifference(a: Text, b: Text)
    ensures Before(a, b) <==> exists n: nat :: DiffersAt(a, b, n)
    decreases |a|
  {
    forall n: nat | 0 < n <= |a| && n <= |b| && a[..n] == b[..n] ensures a[0] == b[0] {
      assert a[..n][0] == b[..n][0];
    }
    if a == [] || b == [] || a[0] != b[0] {
      assert Before(a, b) ==> DiffersAt(a, b, 0);
    } else {
      BeforeAtFirstDifference(a[1..], b[1..]);
      if n: nat :| DiffersAt(a[1..], b[1..], n) {
        DiffersLater(a, b, n);
        assert DiffersAt(a, b, n + 1);
      }
      forall n: nat | DiffersAt(a, b, n) ensures Before(a[1..], b[1..]) {
        assert n > 0;
        DiffersLater(a, b, n - 1);
      }
    }
  }

  lemma {:induction false} BeforeTransitive(a: Text, b: Text, c: Text)
    requires Before(a, b) && Before(b, c)
    ensures Before(a, c)
  {
    if a != [] && a[0] == b[0] == c[0] { BeforeTransitive(a[1..], b[1..], c[1..]); }
  }

  /** Entries whose value is `undefined` are dropped. */
  function Defined(props: seq<Prop>): (r: seq<Prop>)
    ensures PropsSize(r) <= PropsSize(props)
  {
    if props == [] then []
    else if props[0].value == Undefined then Defined(props[1..])
    else [props[0]] + Defined(props[1..])
  }

  function Insert(p: Prop, props: seq<Prop>): (r: seq<Prop>)
    ensures PropsSize(r) == Size(p.value) + PropsSize(props)
  {
    if props == [] || !Before(props[0].key, p.key) then [p] + props
    else [props[0]] + Insert(p, props[1..])
  }

  function Sorted(props: seq<Prop>): (r: seq<Prop>)
    ensures PropsSize(r) == PropsSize(props)
  {
    if props == [] then [] else Insert(props[0], Sorted(props[1..]))
  }

  // ----- the printer -----

  const QUOTE: Unit := 34
  const COMMA: Unit := 44
  const COLON: Unit := 58
  const OPEN_BRACKET: Unit := 91
  const BACKSLASH: Unit := 92
  const CLOSE_BRACKET: Unit := 93
  const OPEN_BRACE: Unit := 123
  const CLOSE_BRACE: Unit := 125

  const NULL: Text := [110, 117, 108, 108]
  const TRUE: Text := [116, 114, 117, 101]
  const FALSE: Text := [102, 97, 108, 115, 101]

  predicate High(u: Unit) {
    0xD800 <= u < 0xDC00
  }

  predicate Low(u: Unit) {
    0xDC00 <= u < 0xE000
  }

  function Hex(d: int): Unit
    requires 0 <= d < 16
  {
    if d < 10 then 48 + d else 87 + d
  }

  /** One unit inside a string, as `JSON.stringify` writes it when it is no part of a
      surrogate pair. */
  function EscapeUnit(u: Unit): Text {
    if u == QUOTE then [BACKSLASH, QUOTE]
    else if u == BACKSLASH then [BACKSLASH, BACKSLASH]
    else if u == 8 then [BACKSLASH, 98]
    else if u == 9 then [BACKSLASH, 116]
    else if u == 10 then [BACKSLASH, 110]
    else if u == 12 then [BACKSLASH, 102]
    else if u == 13 then [BACKSLASH, 114]
    else if u < 0x20 || High(u) || Low(u) then
      [BACKSLASH, 117, Hex(u / 4096), Hex(u / 256 % 16), Hex(u / 16 % 16), Hex(u % 16)]
    else [u]
  }

  /** A text of units below U+10000, told by its characters. */
  function Units(s: string): Text
    requires forall i :: 0 <= i < |s| ==> s[i] as int < 0x1_0000
  {
    seq(|s|, i requires 0 <= i < |s| => s[i] as int)
  }

  predicate Paired(s: Text) {
    |s| >= 2 && High(s[0]) && Low(s[1])
  }

  function Escape(s: Text): Text {
    if s == [] then []
    else if Paired(s) then s[..2] + Escape(s[2..])
    else EscapeUnit(s[0]) + Escape(s[1..])
  }

  function Quote(s: Text): Text {
    [QUOTE] + Escape(s) + [QUOTE]
  }

  function Print(v: Value): Text
    decreases Size(v), 0
  {
    match v
    case Undefined => NULL
    case Opaque => NULL
    case Null => NULL
    case Bool(on) => if on then TRUE else FALSE
    case Number(lexeme) => lexeme
    case Str(text) => Quote(text)
    case Arr(items) => [OPEN_BRACKET] + PrintItems(items) + [CLOSE_BRACKET]
    case Obj(props) => [OPEN_BRACE] + PrintProps(Sorted(Defined(props))) + [CLOSE_BRACE]
  }

  function PrintItems(items: seq<Value>): Text
    decreases ItemsSize(items), 1 + |items|
  {
    if items == [] then []
    else if |items| == 1 then Print(items[0])
    else Print(items[0]) + [COMMA] + PrintItems(items[1..])
  }

  function PrintProp(p: Prop): Text
    decreases Size(p.value), 1
  {
    Quote(p.key) + [COLON] + Print(p.value)
  }

  function PrintProps(props: seq<Prop>): Text
    decreases PropsSize(props), 2 + |props|
  {
    if props == [] then []
    else if |props| == 1 then PrintProp(props[0])
    else PrintProp(props[0]) + [COMMA] + PrintProps(props[1..])
  }

  // ----- the canonical value -----

  /** What the text says: `null` for everything without a text of its own, objects without
      `undefined` and in key order. */
  function Canon(v: Value): Value
    decreases Size(v), 0
  {
    match v
    case Undefined => Null
    case Opaque => Null
    case Arr(items) => Arr(CanonItems(items))
    case Obj(props) => Obj(CanonProps(Sorted(Defined(props))))
    case _ => v
  }

  function CanonItems(items: seq<Value>): (r: seq<Value>)
    ensures |r| == |items|
    decreases ItemsSize(items), 1 + |items|
  {
    if items == [] then [] else [Canon(items[0])] + CanonItems(items[1..])
  }

  function CanonProps(props: seq<Prop>): (r: seq<Prop>)
    ensures |r| == |props|
    decreases PropsSize(props), 1 + |props|
  {
    if props == [] then [] else [Prop(props[0].key, Canon(props[0].value))] + CanonProps(props[1..])
  }

  // ----- the grammar: sections 3 to 7 of RFC 8259, without insignificant white space -----

  datatype Parsed<T> = Fail | Done(value: T, next: nat)

  /** `p` stands at `i`. */
  predicate At(t: Text, i: nat, p: Text) {
    i + |p| <= |t| && forall k {:trigger p[k]} :: 0 <= k < |p| ==> t[i + k] == p[k]
  }

  predicate UnitAt(t: Text, i: nat, u: Unit) {
    i < |t| && t[i] == u
  }

  predicate WordAt(t: Text, i: nat, a: Unit, b: Unit, c: Unit, d: Unit) {
    i + 4 <= |t| && t[i] == a && t[i + 1] == b && t[i + 2] == c && t[i + 3] == d
  }

  predicate DigitAt(t: Text, i: nat) {
    i < |t| && 48 <= t[i] <= 57
  }

  function DigitsEnd(t: Text, i: nat): (end: nat)
    requires i <= |t|
    ensures i <= end <= |t|
    decreases |t| - i
  {
    if DigitAt(t, i) then DigitsEnd(t, i + 1) else i
  }

  /** Section 6: `[ minus ] int [ frac ] [ exp ]`, as long as it goes; -1 if there is none. */
  function NumberEnd(t: Text, i: nat): (end: int)
    requires i <= |t|
    ensures end == -1 || i < end <= |t|
  {
    var sign := if UnitAt(t, i, 45) then i + 1 else i;
    if !DigitAt(t, sign) then -1
    else FracEnd(t, if t[sign] == 48 then sign + 1 else DigitsEnd(t, sign + 1))
  }

  function FracEnd(t: Text, i: nat): (end: int)
    requires i <= |t|
    ensures end == -1 || i <= end <= |t|
  {
    if !UnitAt(t, i, 46) then ExpEnd(t, i)
    else if DigitAt(t, i + 1) then ExpEnd(t, DigitsEnd(t, i + 1))
    else -1
  }

  function ExpEnd(t: Text, i: nat): (end: int)
    requires i <= |t|
    ensures end == -1 || i <= end <= |t|
  {
    if !(UnitAt(t, i, 69) || UnitAt(t, i, 101)) then i
    else
      var sign := if UnitAt(t, i + 1, 43) || UnitAt(t, i + 1, 45) then i + 2 else i + 1;
      if DigitAt(t, sign) then DigitsEnd(t, sign) else -1
  }

  predicate Digits(t: Text, i: nat, end: nat) {
    i < end <= |t| && forall k :: i <= k < end ==> 48 <= t[k] <= 57
  }

  /** The number's whole part is from `s` to `a` (a minus before it), its fraction from there to
      `b`, and its exponent from there to the end. */
  predicate NumberParts(t: Text, s: nat, a: nat, b: nat) {
    && s <= 1 && s < |t| && (s == 1 ==> t[0] == 45) && Digits(t, s, a) && (t[s] == 48 ==> a == s + 1)
    && (b == a || (a < |t| && t[a] == 46 && Digits(t, a + 1, b)))
    && (b == |t| || (&& b < |t| && (t[b] == 69 || t[b] == 101)
                     && (Digits(t, b + 1, |t|)
                         || (b + 1 < |t| && (t[b + 1] == 43 || t[b + 1] == 45) && Digits(t, b + 2, |t|)))))
  }

  lemma {:induction false} DigitsEndIs(t: Text, i: nat)
    requires i <= |t|
    ensures var end := DigitsEnd(t, i);
            (end > i ==> Digits(t, i, end)) && (end < |t| ==> !(48 <= t[end] <= 57))
    decreases |t| - i
  {
    if DigitAt(t, i) { DigitsEndIs(t, i + 1); }
  }

  lemma {:induction false} DigitsEndAt(t: Text, i: nat, end: nat)
    requires i <= end <= |t| && (i < end ==> Digits(t, i, end)) && (end < |t| ==> !(48 <= t[end] <= 57))
    ensures DigitsEnd(t, i) == end
    decreases |t| - i
  {
    if i < end { DigitsEndAt(t, i + 1, end); }
  }

  lemma ExpAt(t: Text, b: nat)
    requires b <= |t|
    ensures ExpEnd(t, b) == |t| <==>
            (b == |t| || (&& b < |t| && (t[b] == 69 || t[b] == 101)
                          && (Digits(t, b + 1, |t|)
                              || (b + 1 < |t| && (t[b + 1] == 43 || t[b + 1] == 45) && Digits(t, b + 2, |t|)))))
  {
    if b < |t| && (t[b] == 69 || t[b] == 101) {
      var sign := if UnitAt(t, b + 1, 43) || UnitAt(t, b + 1, 45) then b + 2 else b + 1;
      if sign < |t| {
        DigitsEndIs(t, sign);
        if Digits(t, sign, |t|) { DigitsEndAt(t, sign, |t|); }
      }
    }
  }

  lemma FracAt(t: Text, a: nat)
    requires a <= |t|
    ensures FracEnd(t, a) == |t| <==>
            exists b: nat ::
              b <= |t| && (b == a || (a < |t| && t[a] == 46 && Digits(t, a + 1, b))) && ExpEnd(t, b) == |t|
  {
    if b: nat :| b <= |t| && (b == a || (a < |t| && t[a] == 46 && Digits(t, a + 1, b))) && ExpEnd(t, b) == |t| {
      ExpAt(t, b);
      if b != a { DigitsEndAt(t, a + 1, b); }
    }
    if FracEnd(t, a) == |t| && UnitAt(t, a, 46) {
      DigitsEndIs(t, a + 1);
      assert ExpEnd(t, DigitsEnd(t, a + 1)) == |t|;
    }
  }

  /** A number's lexeme is exactly what section 6 says: a minus or none, digits without a leading
      nought, and then a fraction, an exponent, both or neither. */
  lemma NumberGrammar(lexeme: Text)
    ensures WellFormed(Number(lexeme)) <==> exists s: nat, a: nat, b: nat :: NumberParts(lexeme, s, a, b)
  {
    if WellFormed(Number(lexeme)) { PartsOf(lexeme); }
    if s: nat, a: nat, b: nat :| NumberParts(lexeme, s, a, b) { WholeOf(lexeme, s, a, b); }
  }

  lemma PartsOf(t: Text)
    requires NumberEnd(t, 0) == |t|
    ensures exists s: nat, a: nat, b: nat :: NumberParts(t, s, a, b)
  {
    var s: nat := if UnitAt(t, 0, 45) then 1 else 0;
    var a := if t[s] == 48 then s + 1 else DigitsEnd(t, s + 1);
    DigitsEndIs(t, s + 1);
    FracAt(t, a);
    var b: nat :| b <= |t| && (b == a || (a < |t| && t[a] == 46 && Digits(t, a + 1, b))) && ExpEnd(t, b) == |t|;
    ExpAt(t, b);
    assert NumberParts(t, s, a, b);
  }

  lemma WholeOf(t: Text, s: nat, a: nat, b: nat)
    requires NumberParts(t, s, a, b)
    ensures NumberEnd(t, 0) == |t|
  {
    if t[s] != 48 { DigitsEndAt(t, s + 1, a); }
    ExpAt(t, b);
    FracAt(t, a);
  }

  function HexValue(u: Unit): (d: int)
    ensures -1 <= d < 16
  {
    if 48 <= u <= 57 then u - 48
    else if 97 <= u <= 102 then u - 87
    else if 65 <= u <= 70 then u - 55
    else -1
  }

  function ParseHex(t: Text, i: nat): (r: Parsed<Unit>)
    requires i <= |t|
    ensures r.Done? ==> i < r.next <= |t|
  {
    if i + 4 > |t| then Fail
    else
      var a, b, c, d := HexValue(t[i]), HexValue(t[i + 1]), HexValue(t[i + 2]), HexValue(t[i + 3]);
      if a < 0 || b < 0 || c < 0 || d < 0 then Fail else Done(4096 * a + 256 * b + 16 * c + d, i + 4)
  }

  /** Section 7: one unit of a string, escaped or not. */
  function ParseUnit(t: Text, i: nat): (r: Parsed<Unit>)
    requires i <= |t|
    ensures r.Done? ==> i < r.next <= |t|
  {
    if i == |t| || t[i] < 0x20 || t[i] == QUOTE then Fail
    else if t[i] != BACKSLASH then Done(t[i], i + 1)
    else if i + 1 == |t| then Fail
    else
      var e := t[i + 1];
      if e == QUOTE || e == BACKSLASH || e == 47 then Done(e, i + 2)
      else if e == 98 then Done(8, i + 2)
      else if e == 102 then Done(12, i + 2)
      else if e == 110 then Done(10, i + 2)
      else if e == 114 then Done(13, i + 2)
      else if e == 116 then Done(9, i + 2)
      else if e == 117 then ParseHex(t, i + 2)
      else Fail
  }

  /** The rest of a string after its opening quote. */
  function ParseChars(t: Text, i: nat): (r: Parsed<Text>)
    requires i <= |t|
    ensures r.Done? ==> i < r.next <= |t|
    decreases |t| - i
  {
    if UnitAt(t, i, QUOTE) then Done([], i + 1)
    else
      match ParseUnit(t, i)
      case Fail => Fail
      case Done(u, j) =>
        match ParseChars(t, j)
        case Fail => Fail
        case Done(s, k) => Done([u] + s, k)
  }

  function ParseValue(t: Text, i: nat): (r: Parsed<Value>)
    requires i <= |t|
    ensures r.Done? ==> i < r.next <= |t|
    decreases |t| - i, 0
  {
    if WordAt(t, i, 110, 117, 108, 108) then Done(Null, i + 4)
    else if WordAt(t, i, 116, 114, 117, 101) then Done(Bool(true), i + 4)
    else if UnitAt(t, i, 102) && WordAt(t, i + 1, 97, 108, 115, 101) then Done(Bool(false), i + 5)
    else if UnitAt(t, i, QUOTE) then
      match ParseChars(t, i + 1)
      case Fail => Fail
      case Done(s, j) => Done(Str(s), j)
    else if UnitAt(t, i, OPEN_BRACKET) then
      if UnitAt(t, i + 1, CLOSE_BRACKET) then Done(Arr([]), i + 2)
      else
        match ParseItems(t, i + 1)
        case Fail => Fail
        case Done(items, j) => Done(Arr(items), j)
    else if UnitAt(t, i, OPEN_BRACE) then
      if UnitAt(t, i + 1, CLOSE_BRACE) then Done(Obj([]), i + 2)
      else
        match ParseProps(t, i + 1)
        case Fail => Fail
        case Done(props, j) => Done(Obj(props), j)
    else if NumberEnd(t, i) < 0 then Fail
    else Done(Number(t[i..NumberEnd(t, i)]), NumberEnd(t, i))
  }

  /** The values of an array up to its closing bracket. */
  function ParseItems(t: Text, i: nat): (r: Parsed<seq<Value>>)
    requires i <= |t|
    ensures r.Done? ==> i < r.next <= |t|
    decreases |t| - i, 1
  {
    match ParseValue(t, i)
    case Fail => Fail
    case Done(v, j) =>
      if UnitAt(t, j, CLOSE_BRACKET) then Done([v], j + 1)
      else if !UnitAt(t, j, COMMA) then Fail
      else
        match ParseItems(t, j + 1)
        case Fail => Fail
        case Done(rest, k) => Done([v] + rest, k)
  }

  function ParseProp(t: Text, i: nat): (r: Parsed<Prop>)
    requires i <= |t|
    ensures r.Done? ==> i < r.next <= |t|
    decreases |t| - i, 1
  {
    if !UnitAt(t, i, QUOTE) then Fail
    else
      match ParseChars(t, i + 1)
      case Fail => Fail
      case Done(key, j) =>
        if !UnitAt(t, j, COLON) then Fail
        else
          match ParseValue(t, j + 1)
          case Fail => Fail
          case Done(v, k) => Done(Prop(key, v), k)
  }

  /** The members of an object up to its closing brace. */
  function ParseProps(t: Text, i: nat): (r: Parsed<seq<Prop>>)
    requires i <= |t|
    ensures r.Done? ==> i < r.next <= |t|
    decreases |t| - i, 2
  {
    match ParseProp(t, i)
    case Fail => Fail
    case Done(p, j) =>
      if UnitAt(t, j, CLOSE_BRACE) then Done([p], j + 1)
      else if !UnitAt(t, j, COMMA) then Fail
      else
        match ParseProps(t, j + 1)
        case Fail => Fail
        case Done(rest, k) => Done([p] + rest, k)
  }

  /** A whole JSON text. */
  function Parse(t: Text): Parsed<Value> {
    var r := ParseValue(t, 0);
    if r.Done? && r.next == |t| then r else Fail
  }

  // ----- well-formed values -----

  function Keys(props: seq<Prop>): set<Text> {
    if props == [] then {} else {props[0].key} + Keys(props[1..])
  }

  /** No key twice, every number a JSON number, all the way down. */
  predicate WellFormed(v: Value)
    decreases Size(v), 0
  {
    match v
    case Number(lexeme) => NumberEnd(lexeme, 0) == |lexeme|
    case Arr(items) => WellFormedItems(items)
    case Obj(props) => WellFormedProps(props)
    case _ => true
  }

  predicate WellFormedItems(items: seq<Value>)
    decreases ItemsSize(items), 1 + |items|
  {
    items != [] ==> WellFormed(items[0]) && WellFormedItems(items[1..])
  }

  predicate WellFormedProps(props: seq<Prop>)
    decreases PropsSize(props), 1 + |props|
  {
    props != [] ==> WellFormed(props[0].value) && props[0].key !in Keys(props[1..]) && WellFormedProps(props[1..])
  }

  predicate WellFormedValues(props: seq<Prop>) {
    props != [] ==> WellFormed(props[0].value) && WellFormedValues(props[1..])
  }

  lemma {:induction false} DefinedValues(props: seq<Prop>)
    requires WellFormedProps(props)
    ensures WellFormedValues(Defined(props))
  {
    if props != [] {
      DefinedValues(props[1..]);
      if props[0].value != Undefined { assert Defined(props)[1..] == Defined(props[1..]); }
    }
  }

  lemma {:induction false} InsertValues(p: Prop, props: seq<Prop>)
    requires WellFormed(p.value) && WellFormedValues(props)
    ensures WellFormedValues(Insert(p, props))
  {
    if props == [] || !Before(props[0].key, p.key) {
      assert ([p] + props)[1..] == props;
    } else {
      InsertValues(p, props[1..]);
      assert Insert(p, props)[1..] == Insert(p, props[1..]);
    }
  }

  lemma {:induction false} SortedValues(props: seq<Prop>)
    requires WellFormedValues(props)
    ensures WellFormedValues(Sorted(props))
  {
    if props != [] {
      SortedValues(props[1..]);
      InsertValues(props[0], Sorted(props[1..]));
    }
  }

  // ----- reading back what was printed -----

  lemma AtConcat(t: Text, i: nat, whole: Text, a: Text, b: Text)
    requires whole == a + b && At(t, i, whole)
    ensures |whole| == |a| + |b| && At(t, i, a) && At(t, i + |a|, b)
  {
    forall k | 0 <= k < |a| ensures t[i + k] == a[k] { assert whole[k] == a[k]; }
    forall k | 0 <= k < |b| ensures t[i + |a| + k] == b[k] { assert whole[|a| + k] == b[k]; }
  }

  lemma AtSlice(t: Text, i: nat, p: Text)
    requires At(t, i, p)
    ensures t[i..i + |p|] == p
  {
  }

  lemma AtFirst(t: Text, i: nat, p: Text)
    requires At(t, i, p) && p != []
    ensures UnitAt(t, i, p[0])
  {
    assert t[i + 0] == p[0];
  }

  /** A separator between two pieces. */
  lemma AtSeparated(t: Text, i: nat, whole: Text, first: Text, separator: Unit, rest: Text)
    requires whole == first + [separator] + rest && At(t, i, whole)
    ensures |whole| == |first| + 1 + |rest|
    ensures At(t, i, first) && UnitAt(t, i + |first|, separator) && At(t, i + |first| + 1, rest)
  {
    AtConcat(t, i, whole, first + [separator], rest);
    AtConcat(t, i, first + [separator], first, [separator]);
    AtFirst(t, i + |first|, [separator]);
  }

  /** The first of several pieces in a list that `close` ends. */
  lemma AtJoined(t: Text, i: nat, list: Text, first: Text, rest: Text, close: Unit)
    requires list == first + [COMMA] + rest && At(t, i, list + [close])
    ensures At(t, i, first) && UnitAt(t, i + |first|, COMMA) && At(t, i + |first| + 1, rest + [close])
  {
    Regroup(first + [COMMA], rest, [close]);
    AtSeparated(t, i, list + [close], first, COMMA, rest + [close]);
  }

  lemma HexRoundTrip(u: Unit)
    ensures 0 <= u / 4096 < 16
    ensures 4096 * (u / 4096) + 256 * (u / 256 % 16) + 16 * (u / 16 % 16) + u % 16 == u
  {
    var a := u / 16;
    var b := a / 16;
    var c := b / 16;
    assert u == 16 * a + u % 16 && a == 16 * b + a % 16 && b == 16 * c + b % 16;
    assert b == u / 256 && c == u / 4096;
  }

  lemma HexDigit(d: int)
    requires 0 <= d < 16
    ensures HexValue(Hex(d)) == d
  {
  }

  lemma EscapedUnit(u: Unit, t: Text, i: nat)
    requires At(t, i, EscapeUnit(u))
    ensures ParseUnit(t, i) == Done(u, i + |EscapeUnit(u)|) && !UnitAt(t, i, QUOTE)
  {
    var e := EscapeUnit(u);
    assert t[i + 0] == e[0];
    if |e| == 2 {
      assert t[i + 1] == e[1];
    } else if |e| == 6 {
      EscapedHex(u, t, i);
    }
  }

  lemma EscapedHex(u: Unit, t: Text, i: nat)
    requires At(t, i, EscapeUnit(u)) && |EscapeUnit(u)| == 6
    ensures t[i + 1] == 117 && ParseHex(t, i + 2) == Done(u, i + 6)
  {
    var e := EscapeUnit(u);
    HexRoundTrip(u);
    HexDigit(u / 4096);
    HexDigit(u / 256 % 16);
    HexDigit(u / 16 % 16);
    HexDigit(u % 16);
    assert t[i + 1] == e[1] && t[i + 2] == e[2] && t[i + 3] == e[3] && t[i + 4] == e[4] && t[i + 5] == e[5];
  }

  lemma EscapedPair(s: Text, t: Text, i: nat)
    requires Paired(s) && At(t, i, Escape(s) + [QUOTE])
    ensures At(t, i + 2, Escape(s[2..]) + [QUOTE])
    ensures ParseUnit(t, i) == Done(s[0], i + 1) && ParseUnit(t, i + 1) == Done(s[1], i + 2)
    ensures !UnitAt(t, i, QUOTE) && !UnitAt(t, i + 1, QUOTE)
  {
    var pair, rest := s[..2], Escape(s[2..]) + [QUOTE];
    assert Escape(s) + [QUOTE] == pair + rest;
    AtConcat(t, i, Escape(s) + [QUOTE], pair, rest);
    assert t[i + 0] == pair[0] && t[i + 1] == pair[1];
  }

  lemma EscapeFirst(s: Text)
    requires s != [] && !Paired(s)
    ensures Escape(s) + [QUOTE] == EscapeUnit(s[0]) + (Escape(s[1..]) + [QUOTE])
  {
    Regroup(EscapeUnit(s[0]), Escape(s[1..]), [QUOTE]);
  }

  /** The front of a quoted text, and the rest of it with the closing quote. */
  lemma AtFront(t: Text, i: nat, whole: Text, first: Text, rest: Text)
    requires whole + [QUOTE] == first + (rest + [QUOTE]) && At(t, i, whole + [QUOTE])
    ensures |whole| == |first| + |rest| && At(t, i, first) && At(t, i + |first|, rest + [QUOTE])
  {
    AtConcat(t, i, whole + [QUOTE], first, rest + [QUOTE]);
  }

  lemma EscapedFirst(s: Text, t: Text, i: nat)
    requires s != [] && !Paired(s) && At(t, i, Escape(s) + [QUOTE])
    ensures var n := |EscapeUnit(s[0])|;
            |Escape(s)| == n + |Escape(s[1..])| && At(t, i + n, Escape(s[1..]) + [QUOTE])
            && ParseUnit(t, i) == Done(s[0], i + n) && !UnitAt(t, i, QUOTE)
  {
    hide At, Escape, ParseUnit;
    EscapeFirst(s);
    AtFront(t, i, Escape(s), EscapeUnit(s[0]), Escape(s[1..]));
    EscapedUnit(s[0], t, i);
  }

  lemma MoreChars(t: Text, i: nat, u: Unit, j: nat, rest: Text, k: nat)
    requires i <= |t| && !UnitAt(t, i, QUOTE) && ParseUnit(t, i) == Done(u, j) && ParseChars(t, j) == Done(rest, k)
    ensures ParseChars(t, i) == Done([u] + rest, k)
  {
  }

  lemma EscapePair(s: Text)
    requires Paired(s)
    ensures |Escape(s)| == 2 + |Escape(s[2..])|
  {
  }

  lemma PairRead(s: Text, t: Text, i: nat, end: nat)
    requires Paired(s) && At(t, i, Escape(s) + [QUOTE]) && i + 2 <= |t| && ParseChars(t, i + 2) == Done(s[2..], end)
    ensures ParseChars(t, i) == Done(s, end)
  {
    hide At, Escape, ParseChars, ParseUnit;
    EscapedPair(s, t, i);
    MoreChars(t, i + 1, s[1], i + 2, s[2..], end);
    MoreChars(t, i, s[0], i + 1, [s[1]] + s[2..], end);
    assert s == [s[0]] + ([s[1]] + s[2..]);
  }

  lemma UnitRead(s: Text, t: Text, i: nat, end: nat)
    requires s != [] && !Paired(s) && At(t, i, Escape(s) + [QUOTE]) && i + |EscapeUnit(s[0])| <= |t|
    requires ParseChars(t, i + |EscapeUnit(s[0])|) == Done(s[1..], end)
    ensures ParseChars(t, i) == Done(s, end)
  {
    hide At, Escape, ParseChars, ParseUnit;
    EscapedFirst(s, t, i);
    MoreChars(t, i, s[0], i + |EscapeUnit(s[0])|, s[1..], end);
    assert s == [s[0]] + s[1..];
  }

  lemma EmptyRead(s: Text, t: Text, i: nat)
    requires s == [] && At(t, i, Escape(s) + [QUOTE])
    ensures ParseChars(t, i) == Done(s, i + |Escape(s)| + 1)
  {
    assert Escape(s) + [QUOTE] == [QUOTE];
    AtFirst(t, i, [QUOTE]);
  }

  lemma {:induction false} EscapedText(s: Text, t: Text, i: nat)
    requires At(t, i, Escape(s) + [QUOTE])
    ensures ParseChars(t, i) == Done(s, i + |Escape(s)| + 1)
    decreases |s|
  {
    hide At, Escape, ParseChars, ParseUnit;
    if s == [] {
      EmptyRead(s, t, i);
    } else if Paired(s) {
      EscapedPair(s, t, i);
      EscapedText(s[2..], t, i + 2);
      EscapePair(s);
      PairRead(s, t, i, i + |Escape(s)| + 1);
    } else {
      var n := |EscapeUnit(s[0])|;
      EscapedFirst(s, t, i);
      EscapedText(s[1..], t, i + n);
      UnitRead(s, t, i, i + |Escape(s)| + 1);
    }
  }

  lemma QuotedText(s: Text, t: Text, i: nat)
    requires At(t, i, Quote(s))
    ensures UnitAt(t, i, QUOTE) && ParseChars(t, i + 1) == Done(s, i + |Quote(s)|)
  {
    assert Quote(s) == [QUOTE] + (Escape(s) + [QUOTE]);
    AtConcat(t, i, Quote(s), [QUOTE], Escape(s) + [QUOTE]);
    AtFirst(t, i, [QUOTE]);
    EscapedText(s, t, i + 1);
  }

  /** Nothing that would carry on a number. */
  predicate Follow(t: Text, i: nat) {
    i == |t| || (i < |t| && (t[i] == COMMA || t[i] == CLOSE_BRACKET || t[i] == CLOSE_BRACE))
  }

  /** The lexeme stands at `i` and ends there. */
  predicate Stands(t: Text, i: nat, lexeme: Text) {
    At(t, i, lexeme) && Follow(t, i + |lexeme|)
  }

  lemma SameUnits(t: Text, i: nat, lexeme: Text, k: nat)
    requires Stands(t, i, lexeme) && k <= |lexeme|
    ensures DigitAt(t, i + k) == DigitAt(lexeme, k)
    ensures forall u: Unit :: u != COMMA && u != CLOSE_BRACKET && u != CLOSE_BRACE ==>
              UnitAt(t, i + k, u) == UnitAt(lexeme, k, u)
  {
    if k < |lexeme| {
      assert t[i + k] == lexeme[k];
    }
  }

  lemma {:induction false} DigitsShift(t: Text, i: nat, lexeme: Text, k: nat)
    requires Stands(t, i, lexeme) && k <= |lexeme|
    ensures DigitsEnd(t, i + k) == i + DigitsEnd(lexeme, k)
    decreases |lexeme| - k
  {
    SameUnits(t, i, lexeme, k);
    if DigitAt(lexeme, k) { DigitsShift(t, i, lexeme, k + 1); }
  }

  function Shift(end: int, i: nat): int {
    if end < 0 then -1 else end + i
  }

  lemma ExpShift(t: Text, i: nat, lexeme: Text, k: nat)
    requires Stands(t, i, lexeme) && k <= |lexeme|
    ensures ExpEnd(t, i + k) == Shift(ExpEnd(lexeme, k), i)
  {
    SameUnits(t, i, lexeme, k);
    if UnitAt(lexeme, k, 69) || UnitAt(lexeme, k, 101) {
      SameUnits(t, i, lexeme, k + 1);
      var sign := if UnitAt(lexeme, k + 1, 43) || UnitAt(lexeme, k + 1, 45) then k + 2 else k + 1;
      SameUnits(t, i, lexeme, sign);
      DigitsShift(t, i, lexeme, sign);
    }
  }

  lemma FracShift(t: Text, i: nat, lexeme: Text, k: nat)
    requires Stands(t, i, lexeme) && k <= |lexeme|
    ensures FracEnd(t, i + k) == Shift(FracEnd(lexeme, k), i)
  {
    SameUnits(t, i, lexeme, k);
    if UnitAt(lexeme, k, 46) {
      SameUnits(t, i, lexeme, k + 1);
      DigitsShift(t, i, lexeme, k + 1);
      ExpShift(t, i, lexeme, DigitsEnd(lexeme, k + 1));
    } else {
      ExpShift(t, i, lexeme, k);
    }
  }

  /** A number reads the same wherever it stands. */
  lemma NumberShift(t: Text, i: nat, lexeme: Text)
    requires Stands(t, i, lexeme)
    ensures NumberEnd(t, i) == Shift(NumberEnd(lexeme, 0), i)
  {
    SameUnits(t, i, lexeme, 0);
    var sign := if UnitAt(lexeme, 0, 45) then 1 else 0;
    SameUnits(t, i, lexeme, sign);
    if DigitAt(lexeme, sign) {
      assert t[i + sign] == lexeme[sign];
      DigitsShift(t, i, lexeme, sign + 1);
      FracShift(t, i, lexeme, if lexeme[sign] == 48 then sign + 1 else DigitsEnd(lexeme, sign + 1));
    }
  }

  lemma NumberStarts(t: Text)
    requires NumberEnd(t, 0) > 0
    ensures t[0] == 45 || 48 <= t[0] <= 57
  {
  }

  lemma ReadWord(t: Text, i: nat, w: Text, at: nat)
    requires At(t, i, w) && at + 4 <= |w|
    ensures WordAt(t, i + at, w[at], w[at + 1], w[at + 2], w[at + 3])
  {
    assert t[i + at] == w[at] && t[i + (at + 1)] == w[at + 1];
    assert t[i + (at + 2)] == w[at + 2] && t[i + (at + 3)] == w[at + 3];
  }

  lemma PrintStarts(v: Value)
    requires WellFormed(v)
    ensures Print(v) != [] && Print(v)[0] != CLOSE_BRACKET
  {
    if v.Number? { NumberStarts(v.lexeme); }
  }

  lemma ReadConstant(v: Value, t: Text, i: nat)
    requires v.Undefined? || v.Opaque? || v.Null? || v.Bool?
    requires At(t, i, Print(v))
    ensures ParseValue(t, i) == Done(Canon(v), i + |Print(v)|)
  {
    ReadWord(t, i, Print(v), if v.Bool? && !v.on then 1 else 0);
    AtFirst(t, i, Print(v));
  }

  lemma ReadNumber(lexeme: Text, t: Text, i: nat)
    requires NumberEnd(lexeme, 0) == |lexeme| && lexeme != [] && Stands(t, i, lexeme)
    ensures ParseValue(t, i) == Done(Number(lexeme), i + |lexeme|)
  {
    NumberStarts(lexeme);
    AtFirst(t, i, lexeme);
    NumberShift(t, i, lexeme);
    AtSlice(t, i, lexeme);
  }

  lemma ReadString(text: Text, t: Text, i: nat)
    requires At(t, i, Quote(text))
    ensures ParseValue(t, i) == Done(Str(text), i + |Quote(text)|)
  {
    QuotedText(text, t, i);
  }

  lemma {:induction false} ReadValue(v: Value, t: Text, i: nat)
    requires WellFormed(v) && Stands(t, i, Print(v))
    ensures ParseValue(t, i) == Done(Canon(v), i + |Print(v)|)
    decreases Size(v), 0
  {
    hide At, ParseValue, Follow;
    PrintStarts(v);
    match v
    case Number(lexeme) => ReadNumber(lexeme, t, i);
    case Str(text) => ReadString(text, t, i);
    case Arr(items) => ReadArray(items, t, i);
    case Obj(props) =>
      DefinedValues(props);
      SortedValues(Defined(props));
      ReadObject(Sorted(Defined(props)), t, i);
    case _ => ReadConstant(v, t, i);
  }

  lemma {:induction false} ReadArray(items: seq<Value>, t: Text, i: nat)
    requires WellFormedItems(items)
    requires At(t, i, [OPEN_BRACKET] + PrintItems(items) + [CLOSE_BRACKET])
    ensures ParseValue(t, i) == Done(Arr(CanonItems(items)), i + |PrintItems(items)| + 2)
    decreases ItemsSize(items), 2 + |items|
  {
    var body := PrintItems(items) + [CLOSE_BRACKET];
    assert [OPEN_BRACKET] + PrintItems(items) + [CLOSE_BRACKET] == [OPEN_BRACKET] + body;
    AtConcat(t, i, [OPEN_BRACKET] + body, [OPEN_BRACKET], body);
    AtFirst(t, i, [OPEN_BRACKET]);
    AtFirst(t, i + 1, body);
    if items != [] {
      ItemsStart(items);
      ReadItems(items, t, i + 1);
    }
  }

  lemma ItemsStart(items: seq<Value>)
    requires items != [] && WellFormedItems(items)
    ensures PrintItems(items) != [] && PrintItems(items)[0] != CLOSE_BRACKET
  {
    PrintStarts(items[0]);
  }

  lemma SplitItems(items: seq<Value>, t: Text, i: nat)
    requires |items| > 1 && At(t, i, PrintItems(items) + [CLOSE_BRACKET])
    ensures var n := |Print(items[0])|;
            && Stands(t, i, Print(items[0])) && UnitAt(t, i + n, COMMA)
            && At(t, i + n + 1, PrintItems(items[1..]) + [CLOSE_BRACKET])
            && |PrintItems(items)| == n + 1 + |PrintItems(items[1..])|
  {
    AtJoined(t, i, PrintItems(items), Print(items[0]), PrintItems(items[1..]), CLOSE_BRACKET);
  }

  lemma LastItem(t: Text, i: nat, v: Value, j: nat)
    requires i <= |t| && ParseValue(t, i) == Done(v, j) && UnitAt(t, j, CLOSE_BRACKET)
    ensures ParseItems(t, i) == Done([v], j + 1)
  {
  }

  lemma MoreItems(t: Text, i: nat, v: Value, j: nat, rest: seq<Value>, k: nat, all: seq<Value>)
    requires i <= |t| && ParseValue(t, i) == Done(v, j) && UnitAt(t, j, COMMA)
    requires ParseItems(t, j + 1) == Done(rest, k) && all == [v] + rest
    ensures ParseItems(t, i) == Done(all, k)
  {
  }

  lemma {:induction false} ReadLastItem(v: Value, t: Text, i: nat)
    requires WellFormed(v) && At(t, i, Print(v) + [CLOSE_BRACKET])
    ensures ParseItems(t, i) == Done([Canon(v)], i + |Print(v)| + 1)
    decreases Size(v), 1
  {
    assert Print(v) + [CLOSE_BRACKET] + [] == Print(v) + [CLOSE_BRACKET];
    AtSeparated(t, i, Print(v) + [CLOSE_BRACKET], Print(v), CLOSE_BRACKET, []);
    ReadValue(v, t, i);
    LastItem(t, i, Canon(v), i + |Print(v)|);
  }

  lemma CanonItemsNext(items: seq<Value>)
    requires items != []
    ensures CanonItems(items) == [Canon(items[0])] + CanonItems(items[1..])
  {
  }

  lemma {:induction false} ReadItems(items: seq<Value>, t: Text, i: nat)
    requires items != [] && WellFormedItems(items) && At(t, i, PrintItems(items) + [CLOSE_BRACKET])
    ensures ParseItems(t, i) == Done(CanonItems(items), i + |PrintItems(items)| + 1)
    decreases ItemsSize(items), 1 + |items|
  {
    hide At, Stands, ParseItems, ParseValue, Print, Canon;
    if |items| == 1 {
      ReadLastItem(items[0], t, i);
      assert CanonItems(items) == [Canon(items[0])] by { assert items[1..] == []; }
    } else {
      var j, rest := i + |Print(items[0])|, items[1..];
      SplitItems(items, t, i);
      ReadValue(items[0], t, i);
      ReadItems(rest, t, j + 1);
      CanonItemsNext(items);
      MoreItems(t, i, Canon(items[0]), j, CanonItems(rest), j + 1 + |PrintItems(rest)| + 1, CanonItems(items));
    }
  }

  lemma {:induction false} ReadObject(props: seq<Prop>, t: Text, i: nat)
    requires WellFormedValues(props)
    requires At(t, i, [OPEN_BRACE] + PrintProps(props) + [CLOSE_BRACE])
    ensures ParseValue(t, i) == Done(Obj(CanonProps(props)), i + |PrintProps(props)| + 2)
    decreases PropsSize(props), 3 + |props|
  {
    var body := PrintProps(props) + [CLOSE_BRACE];
    assert [OPEN_BRACE] + PrintProps(props) + [CLOSE_BRACE] == [OPEN_BRACE] + body;
    AtConcat(t, i, [OPEN_BRACE] + body, [OPEN_BRACE], body);
    AtFirst(t, i, [OPEN_BRACE]);
    AtFirst(t, i + 1, body);
    if props != [] {
      PropsStart(props);
      ReadProps(props, t, i + 1);
    }
  }

  lemma PropsStart(props: seq<Prop>)
    requires props != []
    ensures PrintProps(props) != [] && PrintProps(props)[0] == QUOTE
  {
    assert PrintProp(props[0])[0] == QUOTE;
  }

  lemma OneProp(t: Text, i: nat, key: Text, j: nat, v: Value, k: nat)
    requires UnitAt(t, i, QUOTE) && ParseChars(t, i + 1) == Done(key, j)
    requires UnitAt(t, j, COLON) && ParseValue(t, j + 1) == Done(v, k)
    ensures ParseProp(t, i) == Done(Prop(key, v), k)
  {
  }

  lemma {:induction false} ReadProp(p: Prop, t: Text, i: nat)
    requires WellFormed(p.value) && Stands(t, i, PrintProp(p))
    ensures ParseProp(t, i) == Done(Prop(p.key, Canon(p.value)), i + |PrintProp(p)|)
    decreases Size(p.value), 1
  {
    hide At, Follow, ParseProp, ParseChars, ParseValue, Quote, Print, Canon;
    var key, value := Quote(p.key), Print(p.value);
    var j := i + |key|;
    AtSeparated(t, i, PrintProp(p), key, COLON, value);
    assert Stands(t, j + 1, value);
    QuotedText(p.key, t, i);
    ReadValue(p.value, t, j + 1);
    OneProp(t, i, p.key, j, Canon(p.value), j + 1 + |value|);
  }

  lemma SplitProps(props: seq<Prop>, t: Text, i: nat)
    requires |props| > 1 && At(t, i, PrintProps(props) + [CLOSE_BRACE])
    ensures var n := |PrintProp(props[0])|;
            && Stands(t, i, PrintProp(props[0])) && UnitAt(t, i + n, COMMA)
            && At(t, i + n + 1, PrintProps(props[1..]) + [CLOSE_BRACE])
            && |PrintProps(props)| == n + 1 + |PrintProps(props[1..])|
  {
    AtJoined(t, i, PrintProps(props), PrintProp(props[0]), PrintProps(props[1..]), CLOSE_BRACE);
  }

  lemma LastProp(t: Text, i: nat, p: Prop, j: nat)
    requires i <= |t| && ParseProp(t, i) == Done(p, j) && UnitAt(t, j, CLOSE_BRACE)
    ensures ParseProps(t, i) == Done([p], j + 1)
  {
  }

  lemma MoreProps(t: Text, i: nat, p: Prop, j: nat, rest: seq<Prop>, k: nat, all: seq<Prop>)
    requires i <= |t| && ParseProp(t, i) == Done(p, j) && UnitAt(t, j, COMMA)
    requires ParseProps(t, j + 1) == Done(rest, k) && all == [p] + rest
    ensures ParseProps(t, i) == Done(all, k)
  {
  }

  lemma {:induction false} ReadLastProp(p: Prop, t: Text, i: nat)
    requires WellFormed(p.value) && At(t, i, PrintProp(p) + [CLOSE_BRACE])
    ensures ParseProps(t, i) == Done([Prop(p.key, Canon(p.value))], i + |PrintProp(p)| + 1)
    decreases Size(p.value), 2
  {
    assert PrintProp(p) + [CLOSE_BRACE] + [] == PrintProp(p) + [CLOSE_BRACE];
    AtSeparated(t, i, PrintProp(p) + [CLOSE_BRACE], PrintProp(p), CLOSE_BRACE, []);
    ReadProp(p, t, i);
    LastProp(t, i, Prop(p.key, Canon(p.value)), i + |PrintProp(p)|);
  }

  lemma PropsShrink(props: seq<Prop>)
    requires props != []
    ensures PropsSize(props[1..]) <= PropsSize(props)
  {
  }

  lemma CanonPropsNext(props: seq<Prop>)
    requires props != []
    ensures CanonProps(props) == [Prop(props[0].key, Canon(props[0].value))] + CanonProps(props[1..])
    ensures |props| == 1 ==> CanonProps(props) == [Prop(props[0].key, Canon(props[0].value))]
  {
  }

  lemma {:induction false} ReadProps(props: seq<Prop>, t: Text, i: nat)
    requires props != [] && WellFormedValues(props) && At(t, i, PrintProps(props) + [CLOSE_BRACE])
    ensures ParseProps(t, i) == Done(CanonProps(props), i + |PrintProps(props)| + 1)
    decreases PropsSize(props), 2 + |props|
  {
    hide At, Stands, ParseProps, ParseProp, PrintProp, Canon;
    if |props| == 1 {
      ReadLastProp(props[0], t, i);
      CanonPropsNext(props);
    } else {
      var p, j, rest := Prop(props[0].key, Canon(props[0].value)), i + |PrintProp(props[0])|, props[1..];
      SplitProps(props, t, i);
      ReadProp(props[0], t, i);
      PropsShrink(props);
      ReadProps(rest, t, j + 1);
      CanonPropsNext(props);
      MoreProps(t, i, p, j, CanonProps(rest), j + 1 + |PrintProps(rest)| + 1, CanonProps(props));
    }
  }

  /** Parsing the canonical text of a value gives the value back, in canonical form. */
  lemma LeftInverse(v: Value)
    requires WellFormed(v)
    ensures Parse(Print(v)) == Done(Canon(v), |Print(v)|)
  {
    var p := Print(v);
    ReadValue(v, p, 0);
  }

  // ----- when two values print the same -----

  /** Strictly increasing keys, nothing undefined. */
  predicate Ordered(props: seq<Prop>) {
    props != [] ==>
      && props[0].value != Undefined && Ordered(props[1..])
      && (|props| > 1 ==> Before(props[0].key, props[1].key))
  }

  /** The defined value under a key. */
  function Lookup(props: seq<Prop>, key: Text): (r: Option<Value>)
    ensures r.Some? ==> r.value != Undefined && Size(r.value) <= PropsSize(props) && key in Keys(props)
  {
    if props == [] then None
    else if props[0].key == key && props[0].value != Undefined then Some(props[0].value)
    else Lookup(props[1..], key)
  }

  lemma {:induction false} DefinedKeys(props: seq<Prop>)
    requires WellFormedProps(props)
    ensures WellFormedProps(Defined(props)) && Keys(Defined(props)) <= Keys(props) && AllDefined(Defined(props))
    ensures forall k :: Lookup(Defined(props), k) == Lookup(props, k)
  {
    if props != [] {
      DefinedKeys(props[1..]);
      if props[0].value != Undefined { assert Defined(props)[1..] == Defined(props[1..]); }
    }
  }

  predicate AllDefined(props: seq<Prop>) {
    props != [] ==> props[0].value != Undefined && AllDefined(props[1..])
  }

  lemma {:induction false} InsertLookup(p: Prop, props: seq<Prop>)
    requires p.key !in Keys(props) && p.value != Undefined
    ensures Keys(Insert(p, props)) == {p.key} + Keys(props)
    ensures forall k :: Lookup(Insert(p, props), k) == if k == p.key then Some(p.value) else Lookup(props, k)
  {
    if props == [] || !Before(props[0].key, p.key) {
      assert ([p] + props)[1..] == props;
    } else {
      InsertLookup(p, props[1..]);
      assert Insert(p, props)[1..] == Insert(p, props[1..]);
    }
  }

  lemma {:induction false} InsertOrdered(p: Prop, props: seq<Prop>)
    requires p.key !in Keys(props) && p.value != Undefined && Ordered(props)
    ensures Ordered(Insert(p, props))
  {
    if props == [] || !Before(props[0].key, p.key) {
      assert ([p] + props)[1..] == props;
      if props != [] { BeforeTotal(p.key, props[0].key); }
    } else {
      InsertOrdered(p, props[1..]);
      assert Insert(p, props)[1..] == Insert(p, props[1..]);
    }
  }

  lemma {:induction false} SortedLookup(props: seq<Prop>)
    requires WellFormedProps(props) && AllDefined(props)
    ensures Ordered(Sorted(props)) && Keys(Sorted(props)) == Keys(props)
    ensures forall k :: Lookup(Sorted(props), k) == Lookup(props, k)
  {
    if props != [] {
      SortedLookup(props[1..]);
      InsertOrdered(props[0], Sorted(props[1..]));
      InsertLookup(props[0], Sorted(props[1..]));
    }
  }

  /** The members in the order they are printed. */
  function Members(props: seq<Prop>): (r: seq<Prop>)
    ensures PropsSize(r) <= PropsSize(props)
  {
    Sorted(Defined(props))
  }

  /** Sorting drops nothing that is defined, and what is printed does not depend on where the
      properties stood. */
  lemma MembersLookup(props: seq<Prop>)
    requires WellFormedProps(props)
    ensures Ordered(Members(props)) && WellFormedValues(Members(props))
    ensures forall k :: Lookup(Members(props), k) == Lookup(props, k)
  {
    DefinedKeys(props);
    SortedLookup(Defined(props));
    DefinedValues(props);
    SortedValues(Defined(props));
  }

  lemma {:induction false} OrderedAscends(props: seq<Prop>, i: nat, j: nat)
    requires Ordered(props) && i < j < |props|
    ensures Before(props[i].key, props[j].key)
    decreases |props|
  {
    if i > 0 {
      OrderedAscends(props[1..], i - 1, j - 1);
    } else if j > 1 {
      OrderedAscends(props[1..], 0, j - 1);
      BeforeTransitive(props[0].key, props[1].key, props[j].key);
    }
  }

  /** The members are printed in ascending order of their keys' first difference. */
  lemma MembersAscend(props: seq<Prop>, i: nat, j: nat)
    requires WellFormedProps(props) && i < j < |Members(props)|
    ensures exists n: nat :: DiffersAt(Members(props)[i].key, Members(props)[j].key, n)
  {
    MembersLookup(props);
    OrderedAscends(Members(props), i, j);
    BeforeAtFirstDifference(Members(props)[i].key, Members(props)[j].key);
  }

  function CanonOption(v: Option<Value>): Option<Value> {
    if v.Some? then Some(Canon(v.value)) else None
  }

  lemma {:induction false} CanonLookup(props: seq<Prop>)
    requires Ordered(props)
    ensures Ordered(CanonProps(props))
    ensures forall k :: Lookup(CanonProps(props), k) == CanonOption(Lookup(props, k))
  {
    if props != [] {
      CanonLookup(props[1..]);
      assert CanonProps(props)[1..] == CanonProps(props[1..]);
      if |props| > 1 { assert CanonProps(props)[1] == CanonProps(props[1..])[0]; }
    }
  }

  lemma {:induction false} NothingBelow(props: seq<Prop>, key: Text)
    requires Ordered(props) && (props != [] ==> Before(key, props[0].key))
    ensures Lookup(props, key) == None
  {
    if props != [] {
      BeforeTotal(key, props[0].key);
      if |props| > 1 { BeforeTransitive(key, props[0].key, props[1].key); }
      NothingBelow(props[1..], key);
    }
  }

  lemma FirstOnce(props: seq<Prop>)
    requires props != [] && Ordered(props)
    ensures Lookup(props[1..], props[0].key) == None
  {
    NothingBelow(props[1..], props[0].key);
  }

  /** Ordered members are told apart by what can be looked up in them. */
  lemma {:induction false} OrderedUnique(a: seq<Prop>, b: seq<Prop>)
    requires Ordered(a) && Ordered(b) && forall k :: Lookup(a, k) == Lookup(b, k)
    ensures a == b
  {
    if a != [] { assert Lookup(a, a[0].key) == Some(a[0].value) == Lookup(b, a[0].key); }
    if b != [] { assert Lookup(b, b[0].key) == Some(b[0].value) == Lookup(a, b[0].key); }
    if a != [] && b != [] {
      BeforeTotal(a[0].key, b[0].key);
      if Before(a[0].key, b[0].key) { NothingBelow(b, a[0].key); }
      if Before(b[0].key, a[0].key) { NothingBelow(a, b[0].key); }
      FirstOnce(a);
      FirstOnce(b);
      forall k ensures Lookup(a[1..], k) == Lookup(b[1..], k) {
        assert Lookup(a, k) == Lookup(b, k);
      }
      OrderedUnique(a[1..], b[1..]);
      assert a == [a[0]] + a[1..] && b == [b[0]] + b[1..];
    }
  }

  predicate PrintsNull(v: Value) {
    v.Undefined? || v.Opaque? || v.Null?
  }

  /** Equal up to the order of keys, properties that are `undefined`, and what prints `null`. */
  ghost predicate Equivalent(v: Value, w: Value)
    decreases Size(v), 0
  {
    if PrintsNull(v) || PrintsNull(w) then PrintsNull(v) && PrintsNull(w)
    else
      match v
      case Arr(items) => w.Arr? && |items| == |w.items| && EquivalentItems(items, w.items)
      case Obj(props) => w.Obj? && EquivalentProps(props, w.props)
      case _ => v == w
  }

  ghost predicate EquivalentItems(a: seq<Value>, b: seq<Value>)
    requires |a| == |b|
    decreases ItemsSize(a), 1 + |a|
  {
    a == [] || (Equivalent(a[0], b[0]) && EquivalentItems(a[1..], b[1..]))
  }

  ghost predicate EquivalentProps(a: seq<Prop>, b: seq<Prop>)
    decreases PropsSize(a), 2
  {
    forall k :: EquivalentAt(a, b, k)
  }

  ghost predicate EquivalentAt(a: seq<Prop>, b: seq<Prop>, k: Text)
    decreases PropsSize(a), 1
  {
    match Lookup(a, k)
    case None => Lookup(b, k) == None
    case Some(x) => Lookup(b, k).Some? && Equivalent(x, Lookup(b, k).value)
  }

  lemma {:induction false} CanonEquivalent(v: Value, w: Value)
    requires WellFormed(v) && WellFormed(w)
    ensures Canon(v) == Canon(w) <==> Equivalent(v, w)
    decreases Size(v), 0
  {
    if v.Arr? && w.Arr? {
      if |v.items| == |w.items| { CanonEquivalentItems(v.items, w.items); }
      else { assert |CanonItems(v.items)| != |CanonItems(w.items)|; }
    } else if v.Obj? && w.Obj? {
      CanonEquivalentProps(v.props, w.props);
      SameMembers(v.props, w.props);
    }
  }

  lemma {:induction false} CanonEquivalentProps(a: seq<Prop>, b: seq<Prop>)
    requires WellFormedProps(a) && WellFormedProps(b)
    ensures SameCanon(a, b) <==> EquivalentProps(a, b)
    decreases PropsSize(a), 2
  {
    forall k ensures CanonAt(a, k) == CanonAt(b, k) <==> EquivalentAt(a, b, k) { CanonEquivalentAt(a, b, k); }
    if SameCanon(a, b) {
      forall k ensures EquivalentAt(a, b, k) { assert CanonAt(a, k) == CanonAt(b, k); }
    }
    if EquivalentProps(a, b) {
      forall k ensures CanonAt(a, k) == CanonAt(b, k) { assert EquivalentAt(a, b, k); }
    }
  }

  lemma {:induction false} CanonEquivalentItems(a: seq<Value>, b: seq<Value>)
    requires |a| == |b| && WellFormedItems(a) && WellFormedItems(b)
    ensures CanonItems(a) == CanonItems(b) <==> EquivalentItems(a, b)
    decreases ItemsSize(a), 1 + |a|
  {
    if a != [] {
      CanonEquivalent(a[0], b[0]);
      CanonEquivalentItems(a[1..], b[1..]);
      assert CanonItems(a)[0] == Canon(a[0]) && CanonItems(a)[1..] == CanonItems(a[1..]);
      assert CanonItems(b)[0] == Canon(b[0]) && CanonItems(b)[1..] == CanonItems(b[1..]);
    }
  }

  lemma {:induction false} LookupWellFormed(props: seq<Prop>, k: Text)
    requires WellFormedProps(props)
    ensures Lookup(props, k).Some? ==> WellFormed(Lookup(props, k).value)
  {
    if props != [] { LookupWellFormed(props[1..], k); }
  }

  lemma {:induction false} CanonEquivalentAt(a: seq<Prop>, b: seq<Prop>, k: Text)
    requires WellFormedProps(a) && WellFormedProps(b)
    ensures CanonAt(a, k) == CanonAt(b, k) <==> EquivalentAt(a, b, k)
    decreases PropsSize(a), 1
  {
    LookupWellFormed(a, k);
    LookupWellFormed(b, k);
    if Lookup(a, k).Some? && Lookup(b, k).Some? { CanonEquivalent(Lookup(a, k).value, Lookup(b, k).value); }
  }

  ghost predicate SameCanon(a: seq<Prop>, b: seq<Prop>) {
    forall k :: CanonAt(a, k) == CanonAt(b, k)
  }

  function CanonAt(props: seq<Prop>, k: Text): Option<Value> {
    CanonOption(Lookup(props, k))
  }

  lemma CanonMembers(props: seq<Prop>)
    requires WellFormedProps(props)
    ensures Ordered(CanonProps(Members(props)))
    ensures forall k :: Lookup(CanonProps(Members(props)), k) == CanonAt(props, k)
  {
    MembersLookup(props);
    CanonLookup(Members(props));
  }

  lemma SameMembers(a: seq<Prop>, b: seq<Prop>)
    requires WellFormedProps(a) && WellFormedProps(b)
    ensures CanonProps(Members(a)) == CanonProps(Members(b)) <==> SameCanon(a, b)
  {
    CanonMembers(a);
    CanonMembers(b);
    var x, y := CanonProps(Members(a)), CanonProps(Members(b));
    if SameCanon(a, b) {
      forall k ensures Lookup(x, k) == Lookup(y, k) { assert CanonAt(a, k) == CanonAt(b, k); }
      OrderedUnique(x, y);
    } else {
      var k :| CanonAt(a, k) != CanonAt(b, k);
      assert Lookup(x, k) != Lookup(y, k);
    }
  }

  // ----- canonical values print as what they stand for -----

  lemma {:induction false} MembersOfOrdered(props: seq<Prop>)
    requires Ordered(props)
    ensures Members(props) == props
  {
    OrderedDefined(props);
    OrderedSorted(props);
  }

  lemma {:induction false} OrderedDefined(props: seq<Prop>)
    requires Ordered(props)
    ensures Defined(props) == props
  {
    if props != [] { OrderedDefined(props[1..]); }
  }

  lemma {:induction false} OrderedSorted(props: seq<Prop>)
    requires Ordered(props)
    ensures Sorted(props) == props
  {
    if props != [] {
      OrderedSorted(props[1..]);
      if |props| > 1 { BeforeTotal(props[0].key, props[1].key); }
    }
  }

  lemma {:induction false} PrintCanon(v: Value)
    requires WellFormed(v)
    ensures Print(Canon(v)) == Print(v)
    decreases Size(v), 0
  {
    match v
    case Arr(items) => PrintCanonItems(items);
    case Obj(props) =>
      MembersLookup(props);
      CanonLookup(Members(props));
      MembersOfOrdered(CanonProps(Members(props)));
      PrintCanonProps(Members(props));
    case _ =>
  }

  lemma {:induction false} PrintCanonItems(items: seq<Value>)
    requires WellFormedItems(items)
    ensures PrintItems(CanonItems(items)) == PrintItems(items)
    decreases ItemsSize(items), 1 + |items|
  {
    if items != [] {
      PrintCanon(items[0]);
      PrintCanonItems(items[1..]);
      assert CanonItems(items)[0] == Canon(items[0]) && CanonItems(items)[1..] == CanonItems(items[1..]);
    }
  }

  lemma {:induction false} PrintCanonProps(props: seq<Prop>)
    requires WellFormedValues(props)
    ensures PrintProps(CanonProps(props)) == PrintProps(props)
    decreases PropsSize(props), 1 + |props|
  {
    if props != [] {
      PrintCanon(props[0].value);
      PrintCanonProps(props[1..]);
      var canon := CanonProps(props);
      assert canon[0] == Prop(props[0].key, Canon(props[0].value)) && canon[1..] == CanonProps(props[1..]);
      assert PrintProp(canon[0]) == PrintProp(props[0]);
    }
  }

  /** Two values get the same checksum text exactly when they are the same up to key order and
      `undefined` properties. */
  lemma SameTextExactlyWhenEquivalent(v: Value, w: Value)
    requires WellFormed(v) && WellFormed(w)
    ensures Print(v) == Print(w) <==> Equivalent(v, w)
  {
    CanonEquivalent(v, w);
    LeftInverse(v);
    LeftInverse(w);
    PrintCanon(v);
    PrintCanon(w);
  }

  // ----- the texts themselves -----

  /** Escapes by name for those that have one, by four lower-case hexadecimal digits for the
      other control characters and for lone surrogates, and nothing else escaped. */
  lemma EscapesAsJson(u: Unit)
    ensures EscapeUnit(34) == Units("\\\"") && EscapeUnit(92) == Units("\\\\")
    ensures EscapeUnit(8) == Units("\\b") && EscapeUnit(9) == Units("\\t") && EscapeUnit(10) == Units("\\n")
    ensures EscapeUnit(12) == Units("\\f") && EscapeUnit(13) == Units("\\r")
    ensures EscapeUnit(0x1F) == Units("\\u001f") && EscapeUnit(0xDABC) == Units("\\udabc")
    ensures EscapeUnit(u) == [u] <==> u != 34 && u != 92 && u >= 0x20 && !(0xD800 <= u < 0xE000)
  {
  }

  /** Two halves of one character stand as they are; any other unit is escaped on its own. */
  lemma PairsKept(u: Unit, v: Unit, rest: Text)
    ensures Escape([u, v] + rest) ==
            if 0xD800 <= u < 0xDC00 <= v < 0xE000 then [u, v] + Escape(rest)
            else EscapeUnit(u) + Escape([v] + rest)
  {
    var s := [u, v] + rest;
    assert s[..2] == [u, v] && s[2..] == rest && s[1..] == [v] + rest;
  }

  lemma PrintsConstants()
    ensures Print(Undefined) == Print(Opaque) == Print(Null) == Units("null")
    ensures Print(Bool(true)) == Units("true") && Print(Bool(false)) == Units("false")
    ensures Print(Str([])) == Units("\"\"") && Print(Arr([])) == Units("[]") && Print(Obj([])) == Units("{}")
  {
  }

  lemma Marks()
    ensures Units("[") == [91] && Units("]") == [93] && Units(",") == [44]
    ensures Units("{") == [123] && Units("}") == [125] && Units(":") == [58]
  {
  }

  lemma Flat(open: Text, a: Text, mark: Text, b: Text, close: Text)
    ensures open + (a + mark + b) + close == open + a + mark + b + close
  {
  }

  lemma PrintsPair(v: Value, w: Value)
    ensures Print(Arr([v, w])) == Units("[") + Print(v) + Units(",") + Print(w) + Units("]")
  {
    Marks();
    hide Units;
    assert [v, w][1..] == [w] && PrintItems([w]) == Print(w);
    assert Print(Arr([v, w])) == [91] + (Print(v) + [44] + Print(w)) + [93];
    Flat([91], Print(v), [44], Print(w), [93]);
  }

  lemma OneMember(p: Prop)
    requires p.value != Undefined
    ensures Sorted(Defined([p])) == [p]
  {
    assert [p][1..] == [] && Defined([p]) == [p] + [] == [p];
    assert Sorted([p]) == Insert(p, []) == [p];
  }

  lemma PrintsMember(key: Text, v: Value)
    requires v != Undefined
    ensures Print(Obj([Prop(key, v)])) == Units("{") + Quote(key) + Units(":") + Print(v) + Units("}")
  {
    var p := Prop(key, v);
    Marks();
    OneMember(p);
    hide Units, Sorted, Defined, Quote;
    assert PrintProps([p]) == PrintProp(p);
    assert Print(Obj([p])) == [123] + (Quote(key) + [58] + Print(v)) + [125];
    Flat([123], Quote(key), [58], Print(v), [125]);
  }
}
