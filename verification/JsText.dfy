/** JavaScript strings: sequences of UTF-16 code units, and the few string methods the
    modelled files lean on. */
module JsText {

  type Unit = u: int | 0 <= u < 0x1_0000
  type Text = seq<Unit>

  const NEWLINE: Unit := 10
  const SPACE: Unit := 32

  /** What `trim` and `\s` take for white space. */
  predicate IsSpace(u: Unit) {
    || 9 <= u <= 13 || u == 0x20 || u == 0xA0 || u == 0x1680 || 0x2000 <= u <= 0x200A
    || u == 0x2028 || u == 0x2029 || u == 0x202F || u == 0x205F || u == 0x3000 || u == 0xFEFF
  }

  /** The WhiteSpace and LineTerminator units of ECMAScript, sections 12.2 and 12.3. */
  lemma SpaceUnits(u: Unit)
    ensures IsSpace(u) <==>
            u in {9, 10, 11, 12, 13, 32, 160, 5760, 8192, 8193, 8194, 8195, 8196, 8197, 8198, 8199, 8200, 8201, 8202,
                  8232, 8233, 8239, 8287, 12288, 65279}
    ensures NEWLINE == '\n' as int && SPACE == ' ' as int
  {
  }

  predicate Blank(t: Text) {
    forall i :: 0 <= i < |t| ==> IsSpace(t[i])
  }

  function TrimEnd(t: Text): (r: Text)
    ensures r <= t && Blank(t[|r|..])
    ensures r != [] ==> !IsSpace(r[|r| - 1])
  {
    t[..EndOfSolid(t, |t|)]
  }

  function EndOfSolid(t: Text, n: nat): (m: nat)
    requires n <= |t|
    ensures m <= n && forall i :: m <= i < n ==> IsSpace(t[i])
    ensures m > 0 ==> !IsSpace(t[m - 1])
  {
    if n > 0 && IsSpace(t[n - 1]) then EndOfSolid(t, n - 1) else n
  }

  function TrimStart(t: Text): (r: Text)
    ensures |r| <= |t| && r == t[|t| - |r|..] && Blank(t[..|t| - |r|])
    ensures r != [] ==> !IsSpace(r[0])
  {
    t[StartOfSolid(t, 0)..]
  }

  function StartOfSolid(t: Text, n: nat): (m: nat)
    requires n <= |t|
    ensures n <= m <= |t| && forall i :: n <= i < m ==> IsSpace(t[i])
    ensures m < |t| ==> !IsSpace(t[m])
    decreases |t| - n
  {
    if n < |t| && IsSpace(t[n]) then StartOfSolid(t, n + 1) else n
  }

  function Trim(t: Text): Text {
    TrimStart(TrimEnd(t))
  }

  predicate OccursAt(t: Text, p: Text, i: int) {
    0 <= i && i + |p| <= |t| && t[i..i + |p|] == p
  }

  /** `indexOf`: the least occurrence, or -1. */
  function IndexOf(t: Text, p: Text): (i: int)
    ensures i == -1 || OccursAt(t, p, i)
    ensures forall j :: OccursAt(t, p, j) ==> 0 <= i <= j
  {
    IndexFrom(t, p, 0)
  }

  function IndexFrom(t: Text, p: Text, from: nat): (i: int)
    ensures i == -1 || (from <= i && OccursAt(t, p, i))
    ensures forall j :: from <= j && OccursAt(t, p, j) ==> 0 <= i <= j
    decreases |t| - from
  {
    if from + |p| > |t| then -1
    else if t[from..from + |p|] == p then from
    else IndexFrom(t, p, from + 1)
  }

  /** `lastIndexOf(c, from)` for one unit: the greatest index up to `from`, or -1. */
  function LastIndexOf(t: Text, c: Unit, from: nat): (i: int)
    requires from < |t|
    ensures -1 <= i <= from
    ensures i >= 0 ==> t[i] == c
    ensures forall j :: i < j <= from ==> t[j] != c
  {
    if t[from] == c then from else if from == 0 then -1 else LastIndexOf(t, c, from - 1)
  }

  lemma Regroup(a: Text, b: Text, c: Text)
    ensures a + (b + c) == (a + b) + c
  {
  }

  const LETTER_I: Unit := 105
  const DOTTED_I: Unit := 0x130
  const DOT_ABOVE: Unit := 0x307

  /** `toLowerCase` of one unit, as far as ASCII letters can come of it: U+0130 gives an i and
      a dot above, the Kelvin sign a k, and no other letter outside ASCII an ASCII one. */
  function LowerUnit(u: Unit): Text {
    if 65 <= u <= 90 then [u + 32]
    else if u == DOTTED_I then [LETTER_I, DOT_ABOVE]
    else if u == 0x212A then [107]
    else [u]
  }

  /** The capital letters of ASCII become the small ones, and nothing else in ASCII changes. */
  lemma LowerAscii(u: Unit)
    ensures var capitals, small := "ABCDEFGHIJKLMNOPQRSTUVWXYZ", "abcdefghijklmnopqrstuvwxyz";
            && (forall k :: 0 <= k < 26 ==> LowerUnit(capitals[k] as int) == [small[k] as int])
            && (u < 128 && (forall k :: 0 <= k < 26 ==> u != capitals[k] as int) ==> LowerUnit(u) == [u])
  {
    var capitals := "ABCDEFGHIJKLMNOPQRSTUVWXYZ";
    if 65 <= u <= 90 { assert capitals[u - 65] as int == u; }
  }

  function Lower(t: Text): Text {
    if t == [] then [] else LowerUnit(t[0]) + Lower(t[1..])
  }

  lemma {:induction false} LowerConcat(a: Text, b: Text)
    ensures Lower(a + b) == Lower(a) + Lower(b)
  {
    if a == [] {
      assert a + b == b;
    } else {
      LowerConcat(a[1..], b);
      assert (a + b)[1..] == a[1..] + b;
      Regroup(LowerUnit(a[0]), Lower(a[1..]), Lower(b));
    }
  }

  /** The non-blank units, in order. */
  function Solid(t: Text): Text {
    if t == [] then []
    else (if IsSpace(t[0]) then [] else [t[0]]) + Solid(t[1..])
  }

  lemma {:induction false} SolidConcat(a: Text, b: Text)
    ensures Solid(a + b) == Solid(a) + Solid(b)
  {
    if a == [] {
      assert a + b == b;
    } else {
      SolidConcat(a[1..], b);
      assert (a + b)[1..] == a[1..] + b;
      Regroup(if IsSpace(a[0]) then [] else [a[0]], Solid(a[1..]), Solid(b));
    }
  }

  /** A text without white space is all there. */
  lemma {:induction false} SolidWhole(t: Text)
    requires forall i :: 0 <= i < |t| ==> !IsSpace(t[i])
    ensures Solid(t) == t
  {
    if t != [] {
      SolidWhole(t[1..]);
      assert t == [t[0]] + t[1..];
    }
  }

  lemma {:induction false} SolidBlank(t: Text)
    requires Blank(t)
    ensures Solid(t) == []
  {
    if t != [] { SolidBlank(t[1..]); }
  }

  lemma BlankTail(t: Text, n: nat)
    requires n <= |t| && Blank(t[n..])
    ensures forall i :: n <= i < |t| ==> IsSpace(t[i])
  {
    forall i | n <= i < |t| ensures IsSpace(t[i]) { assert t[n..][i - n] == t[i]; }
  }

  /** The trimmed text is the longest prefix not ending in white space. */
  lemma TrimEndUnique(t: Text, n: nat)
    requires n <= |t| && Blank(t[n..]) && (n > 0 ==> !IsSpace(t[n - 1]))
    ensures TrimEnd(t) == t[..n]
  {
    BlankTail(t, |TrimEnd(t)|);
    BlankTail(t, n);
  }

  predicate Trimmed(t: Text) {
    t == [] || (!IsSpace(t[0]) && !IsSpace(t[|t| - 1]))
  }

  lemma TrimStartUnique(t: Text, n: nat)
    requires n <= |t| && Blank(t[..n]) && (n < |t| ==> !IsSpace(t[n]))
    ensures TrimStart(t) == t[n..]
  {
    var k := |t| - |TrimStart(t)|;
    assert forall i :: 0 <= i < n ==> t[..n][i] == t[i];
    assert forall i :: 0 <= i < k ==> t[..k][i] == t[i];
    assert TrimStart(t) == t[k..];
  }

  lemma TrimTrimmed(t: Text)
    requires Trimmed(t)
    ensures Trim(t) == t
  {
    TrimEndUnique(t, |t|);
    assert t[..|t|] == t;
    TrimStartUnique(t, 0);
  }

  lemma TrimEndMonotone(t: Text, m: nat, n: nat)
    requires m <= n <= |t|
    ensures TrimEnd(t[..m]) <= TrimEnd(t[..n])
  {
    BlankTail(t[..n], |TrimEnd(t[..n])|);
  }

  lemma TrimEndAppendBlank(t: Text, blank: Text)
    requires Blank(blank)
    ensures TrimEnd(t + blank) == TrimEnd(t)
  {
    var n := |TrimEnd(t)|;
    forall i | 0 <= i < |(t + blank)[n..]| ensures IsSpace((t + blank)[n..][i]) {
      if n + i < |t| { assert (t + blank)[n..][i] == t[n..][i]; }
      else { assert (t + blank)[n..][i] == blank[n + i - |t|]; }
    }
    TrimEndUnique(t + blank, n);
  }

  lemma TrimEndIdempotent(t: Text)
    ensures TrimEnd(TrimEnd(t)) == TrimEnd(t)
  {
  }
}
