/** Hiding the machine-readable option trailer from a reply, whole or streamed
    (server/response-options.ts).  The opening of the trailer is a parameter of everything
    proved; `OPENING` is the one the program uses. */
module ResponseOptions {
  import opened JsText

  /** `<velarix_options>` */
  const OPENING: Text := [60, 118, 101, 108, 97, 114, 105, 120, 95, 111, 112, 116, 105, 111, 110, 115, 62]

  /** What the proofs need of an opening. */
  predicate Marker(o: Text) {
    && |o| > 1 && DOT_ABOVE !in o && o[0] != LETTER_I && o[|o| - 1] != LETTER_I
    && (forall k :: 0 <= k < |o| ==> LowerUnit(o[k]) == [o[k]] && !IsSpace(o[k]))
  }

  lemma OpeningIsMarker()
    ensures Marker(OPENING)
    ensures var text := "<velarix_options>";
            |OPENING| == |text| && forall i :: 0 <= i < |text| ==> OPENING[i] == text[i] as int
  {
  }

  // ----- what the two filters compute -----

  function Min(a: nat, b: nat): nat {
    if a < b then a else b
  }

  /** `slice(0, n)` never reaches past the end. */
  function Slice(t: Text, n: nat): Text {
    t[..Min(n, |t|)]
  }

  predicate Opened(value: Text, o: Text) {
    IndexOf(Lower(value), o) >= 0
  }

  /** The batch filter. */
  function VisibleText(value: Text, o: Text): Text {
    TrimEnd(if Opened(value, o) then Slice(value, IndexOf(Lower(value), o)) else value)
  }

  predicate EndsWith(t: Text, p: Text) {
    |p| <= |t| && t[|t| - |p|..] == p
  }

  /** The longest prefix of the opening, up to `n` units, that the text ends with. */
  function Partial(lower: Text, o: Text, n: nat): (m: nat)
    requires n <= |o|
    ensures m <= n && (m > 0 ==> m <= |lower|)
  {
    if n == 0 || EndsWith(lower, o[..n]) then n else Partial(lower, o, n - 1)
  }

  /** Where the stream filter cuts: at the opening or before a tail that may become one. */
  function StreamCut(value: Text, o: Text): (n: nat)
    requires Marker(o)
    ensures n <= |value|
  {
    if Opened(value, o) then Min(IndexOf(Lower(value), o), |value|)
    else |value| - Partial(Lower(value), o, Min(|o| - 1, |value|))
  }

  /** The stream filter, which leaves the text untrimmed when it cuts nothing. */
  function VisibleStreaming(value: Text, o: Text): Text
    requires Marker(o)
  {
    if Opened(value, o) || StreamCut(value, o) < |value| then TrimEnd(value[..StreamCut(value, o)]) else value
  }

  function VisibleResponseText(value: Text): Text {
    VisibleText(value, OPENING)
  }

  method Stream(value: Text, o: Text) returns (r: Text)
    requires Marker(o)
    ensures r == VisibleStreaming(value, o)
  {
    hide Lower, LowerUnit, IndexOf, EndsWith;
    var lower := Lower(value);
    var marker := IndexOf(lower, o);
    if marker >= 0 { return TrimEnd(Slice(value, marker)); }
    var max := Min(|o| - 1, |value|);
    var length := max;
    while length > 0
      invariant 0 <= length <= max
      invariant Partial(lower, o, length) == Partial(lower, o, max)
    {
      if EndsWith(lower, o[..length]) { return TrimEnd(value[..|value| - length]); }
      length := length - 1;
    }
    return value;
  }

  method VisibleStreamingResponseText(value: Text) returns (r: Text)
    ensures Marker(OPENING) && r == VisibleStreaming(value, OPENING)
  {
    OpeningIsMarker();
    var opening := OPENING;
    r := Stream(value, opening);
  }

  // ----- the text itself: where the opening stands, in any case -----

  /** The first `n` units of the opening stand at `i`. */
  predicate Match(t: Text, o: Text, n: nat, i: int) {
    && 0 <= i && i + n <= |t| && n <= |o|
    && forall k {:trigger o[k]} :: 0 <= k < n ==> LowerUnit(t[i + k]) == [o[k]]
  }

  predicate MarkerAt(t: Text, o: Text, i: int) {
    Match(t, o, |o|, i)
  }

  /** The text ends in the first `n` units of the opening. */
  predicate TailOf(t: Text, o: Text, n: nat) {
    Match(t, o, n, |t| - n)
  }

  function MarkerFrom(t: Text, o: Text, from: nat): (end: nat)
    requires from <= |t|
    ensures from <= end <= |t| && (end < |t| ==> MarkerAt(t, o, end))
    ensures forall i :: from <= i < end ==> !MarkerAt(t, o, i)
    decreases |t| - from
  {
    if from == |t| || MarkerAt(t, o, from) then from else MarkerFrom(t, o, from + 1)
  }

  /** Where the first opening stands, or the end of the text. */
  function AnswerEnd(t: Text, o: Text): (end: nat)
    ensures end <= |t|
  {
    MarkerFrom(t, o, 0)
  }

  function Answer(t: Text, o: Text): Text {
    t[..AnswerEnd(t, o)]
  }

  predicate HasMarker(t: Text, o: Text) {
    AnswerEnd(t, o) < |t|
  }

  /** The longest tail that may yet become an opening, up to `n` units. */
  function Tail(t: Text, o: Text, n: nat): (m: nat)
    requires n <= |o|
    ensures m <= n && m <= |t|
  {
    if n == 0 || TailOf(t, o, n) then n else Tail(t, o, n - 1)
  }

  lemma {:induction false} TailLongest(t: Text, o: Text, n: nat, k: nat)
    requires k <= n <= |o|
    ensures TailOf(t, o, Tail(t, o, n)) && (TailOf(t, o, k) ==> k <= Tail(t, o, n))
  {
    if k < n { TailLongest(t, o, n - 1, k); }
    else if 0 < n { TailLongest(t, o, n - 1, 0); }
  }

  function Dangling(t: Text, o: Text): (m: nat)
    requires Marker(o)
    ensures m <= |t|
  {
    Tail(t, o, |o| - 1)
  }

  function DottedIs(t: Text): nat {
    if t == [] then 0 else (if t[0] == DOTTED_I then 1 else 0) + DottedIs(t[1..])
  }

  /** How much of the text may be shown: up to the first opening, overshooting by one unit
      for every U+0130 before it; without an opening, up to a tail that may become one. */
  function Shows(t: Text, o: Text): (n: nat)
    requires Marker(o)
    ensures n <= |t|
  {
    if HasMarker(t, o) then Min(|t|, AnswerEnd(t, o) + DottedIs(Answer(t, o))) else |t| - Dangling(t, o)
  }

  // ----- the lower-cased copy finds the same places -----

  lemma {:induction false} LowerLength(t: Text)
    ensures |Lower(t)| == |t| + DottedIs(t)
    ensures DottedIs(t) == 0 <==> DOTTED_I !in t
  {
    if t != [] {
      LowerLength(t[1..]);
      assert DOTTED_I in t <==> t[0] == DOTTED_I || DOTTED_I in t[1..];
    }
  }

  predicate Starts(t: Text, p: Text) {
    |p| <= |t| && forall k :: 0 <= k < |p| ==> LowerUnit(t[k]) == [p[k]]
  }

  lemma MatchStarts(t: Text, p: Text, i: nat)
    requires i <= |t|
    ensures Match(t, p, |p|, i) <==> Starts(t[i..], p)
  {
  }

  lemma MatchPrefix(t: Text, o: Text, n: nat, i: int)
    requires n <= |o|
    ensures Match(t, o, n, i) <==> Match(t, o[..n], n, i)
  {
    assert forall k :: 0 <= k < n ==> o[..n][k] == o[k];
  }

  lemma {:induction false} LowerStarts(t: Text, p: Text)
    requires Starts(t, p)
    ensures p <= Lower(t)
    ensures |t| == |p| ==> Lower(t) == p
  {
    if p != [] {
      assert Starts(t[1..], p[1..]);
      LowerStarts(t[1..], p[1..]);
      assert p == [p[0]] + p[1..];
    }
  }

  lemma DottedStops(rest: Text, p: Text)
    requires p != [] && p <= [LETTER_I, DOT_ABOVE] + rest && DOT_ABOVE !in p
    ensures p == [LETTER_I]
  {
    var q := [LETTER_I, DOT_ABOVE] + rest;
    var second := q[1];
    assert |p| > 1 ==> second in p;
  }

  /** A match that neither holds nor stops inside the image of U+0130 is a match of the text. */
  lemma {:induction false} StartsLower(t: Text, p: Text)
    requires p <= Lower(t) && DOT_ABOVE !in p
    requires p == [] || p[|p| - 1] != LETTER_I || p == Lower(t)
    ensures Starts(t, p)
  {
    if p != [] {
      var u, rest := LowerUnit(t[0]), Lower(t[1..]);
      assert Lower(t) == u + rest && p[0] == u[0];
      if t[0] == DOTTED_I { DottedStops(rest, p); }
      assert |u| == 1;
      assert p[1..] <= rest by { assert (u + rest)[1..] == rest; }
      StartsLower(t[1..], p[1..]);
      forall k | 0 <= k < |p| ensures LowerUnit(t[k]) == [p[k]] {
        if k > 0 { assert t[1..][k - 1] == t[k] && p[1..][k - 1] == p[k]; }
      }
    }
  }

  lemma FindAtStart(t: Text, p: Text)
    requires OccursAt(Lower(t), p, 0) && DOT_ABOVE !in p && p != []
    requires p[|p| - 1] != LETTER_I || |p| == |Lower(t)|
    ensures Match(t, p, |p|, 0)
  {
    var lower := Lower(t);
    assert lower[0..|p|] == p;
    assert |p| == |lower| ==> p == lower;
    StartsLower(t, p);
    assert t[0..] == t;
    MatchStarts(t, p, 0);
  }

  /** No match starts at the dot of a lower-cased U+0130. */
  lemma NotInside(u: Text, rest: Text, p: Text, pos: nat)
    requires OccursAt(u + rest, p, pos) && pos > 0 && p != [] && DOT_ABOVE !in p
    requires |u| == 1 || u == [LETTER_I, DOT_ABOVE]
    ensures |u| <= pos
  {
    assert (u + rest)[pos..pos + |p|][0] == p[0] && p[0] in p;
  }

  lemma {:induction false} FindInText(t: Text, p: Text, pos: nat) returns (i: nat)
    requires OccursAt(Lower(t), p, pos) && DOT_ABOVE !in p && p != []
    requires p[|p| - 1] != LETTER_I || pos + |p| == |Lower(t)|
    ensures i <= |t| && |Lower(t[..i])| == pos && Match(t, p, |p|, i)
  {
    hide Match;
    if pos == 0 {
      i := 0;
      FindAtStart(t, p);
    } else {
      var u, rest := LowerUnit(t[0]), Lower(t[1..]);
      assert Lower(t) == u + rest;
      NotInside(u, rest, p, pos);
      SkipUnit(u, rest, p, pos);
      var j := FindInText(t[1..], p, pos - |u|);
      i := j + 1;
      LowerNext(t, j);
      MatchNext(t, p, j);
    }
  }

  lemma MatchNext(t: Text, p: Text, j: nat)
    requires t != [] && Match(t[1..], p, |p|, j)
    ensures Match(t, p, |p|, j + 1)
  {
    assert forall k :: 0 <= k < |t| - 1 ==> t[1..][k] == t[k + 1];
  }

  lemma LowerNext(t: Text, j: nat)
    requires t != [] && j <= |t| - 1
    ensures Lower(t[..j + 1]) == LowerUnit(t[0]) + Lower(t[1..][..j])
  {
    assert t[..j + 1][1..] == t[1..][..j];
  }

  lemma SkipUnit(u: Text, rest: Text, p: Text, pos: nat)
    requires OccursAt(u + rest, p, pos) && |u| <= pos
    ensures OccursAt(rest, p, pos - |u|)
  {
    assert (u + rest)[pos..pos + |p|] == rest[pos - |u|..pos - |u| + |p|];
  }

  lemma PrefixOccurs(before: Text, after: Text, p: Text)
    requires p <= after
    ensures OccursAt(before + after, p, |before|)
    ensures p == after ==> EndsWith(before + after, p)
  {
    assert (before + after)[|before|..|before| + |p|] == p;
  }

  lemma FindInLower(t: Text, p: Text, i: nat)
    requires Match(t, p, |p|, i)
    ensures OccursAt(Lower(t), p, |Lower(t[..i])|)
    ensures |t| == i + |p| ==> EndsWith(Lower(t), p)
  {
    assert i <= |t|;
    hide Match, Lower, LowerUnit, OccursAt, EndsWith;
    MatchStarts(t, p, i);
    LowerStarts(t[i..], p);
    LowerConcat(t[..i], t[i..]);
    assert t == t[..i] + t[i..];
    PrefixOccurs(Lower(t[..i]), Lower(t[i..]), p);
  }

  lemma LowerGrows(t: Text, i: nat, j: nat)
    requires i <= j <= |t|
    ensures |Lower(t[..i])| + (j - i) <= |Lower(t[..j])|
  {
    LowerConcat(t[..i], t[i..j]);
    LowerLength(t[i..j]);
    assert t[..j] == t[..i] + t[i..j];
  }

  lemma MarkerIndex(t: Text, o: Text)
    requires Marker(o)
    ensures IndexOf(Lower(t), o) == if HasMarker(t, o) then |Lower(Answer(t, o))| else -1
  {
    var pos := IndexOf(Lower(t), o);
    if HasMarker(t, o) {
      FindInLower(t, o, AnswerEnd(t, o));
    }
    if pos >= 0 {
      var i := FindInText(t, o, pos);
      assert MarkerAt(t, o, i);
      LowerGrows(t, AnswerEnd(t, o), i);
    }
  }

  lemma TailFound(t: Text, p: Text)
    requires p != [] && DOT_ABOVE !in p && EndsWith(Lower(t), p)
    ensures Match(t, p, |p|, |t| - |p|)
  {
    hide Lower, LowerUnit, OccursAt, EndsWith;
    EndOccurs(Lower(t), p);
    var i := FindInText(t, p, |Lower(t)| - |p|);
    AlignTail(t, i, |p|);
  }

  lemma EndOccurs(t: Text, p: Text)
    requires EndsWith(t, p)
    ensures |p| <= |t| && OccursAt(t, p, |t| - |p|)
  {
    assert t[|t| - |p|..|t| - |p| + |p|] == t[|t| - |p|..];
  }

  lemma AlignTail(t: Text, i: nat, n: nat)
    requires i <= |t| && n <= |t| - i && |Lower(t[..i])| + n == |Lower(t)|
    ensures i == |t| - n
  {
    LowerGrows(t, i, |t|);
    assert t[..|t|] == t;
  }

  lemma TailInText(t: Text, o: Text, n: nat)
    requires 0 < n <= |o| && DOT_ABOVE !in o && EndsWith(Lower(t), o[..n])
    ensures TailOf(t, o, n)
  {
    hide Lower, LowerUnit, EndsWith, Match;
    var p := o[..n];
    assert p <= o && DOT_ABOVE !in p;
    TailFound(t, p);
    MatchPrefix(t, o, n, |t| - n);
  }

  lemma TailInLower(t: Text, o: Text, n: nat)
    requires n <= |o| && TailOf(t, o, n)
    ensures EndsWith(Lower(t), o[..n])
  {
    MatchPrefix(t, o, n, |t| - n);
    FindInLower(t, o[..n], |t| - n);
  }

  lemma TailEnds(t: Text, o: Text, n: nat)
    requires 0 < n <= |o| && DOT_ABOVE !in o
    ensures TailOf(t, o, n) <==> EndsWith(Lower(t), o[..n])
  {
    if EndsWith(Lower(t), o[..n]) {
      TailInText(t, o, n);
    } else if TailOf(t, o, n) {
      TailInLower(t, o, n);
    }
  }

  lemma {:induction false} PartialIsTail(t: Text, o: Text, n: nat)
    requires Marker(o) && n <= |o|
    ensures Partial(Lower(t), o, Min(n, |t|)) == Tail(t, o, n)
  {
    if n > 0 {
      PartialIsTail(t, o, n - 1);
      if n > |t| {
        assert !TailOf(t, o, n);
      } else {
        TailEnds(t, o, n);
        PartialStep(Lower(t), t, o, n);
      }
    }
  }

  lemma PartialStep(lower: Text, t: Text, o: Text, n: nat)
    requires 0 < n <= |o| && (TailOf(t, o, n) <==> EndsWith(lower, o[..n]))
    requires Partial(lower, o, n - 1) == Tail(t, o, n - 1)
    ensures Partial(lower, o, n) == Tail(t, o, n)
  {
  }

  lemma CutIsShown(t: Text, o: Text)
    requires Marker(o)
    ensures Opened(t, o) <==> HasMarker(t, o)
    ensures StreamCut(t, o) == Shows(t, o)
  {
    MarkerIndex(t, o);
    LowerLength(Answer(t, o));
    PartialIsTail(t, o, |o| - 1);
  }

  /** The stream filter on any text, told without lower-casing it. */
  lemma ShownText(t: Text, o: Text)
    requires Marker(o)
    ensures VisibleStreaming(t, o) == if HasMarker(t, o) || Shows(t, o) < |t| then TrimEnd(t[..Shows(t, o)]) else t
    ensures VisibleText(t, o) == TrimEnd(if HasMarker(t, o) then t[..Shows(t, o)] else t)
  {
    CutIsShown(t, o);
  }

  lemma ShownTrimmed(t: Text, o: Text)
    requires Marker(o)
    ensures TrimEnd(VisibleStreaming(t, o)) == TrimEnd(t[..Shows(t, o)])
  {
    ShownText(t, o);
    TrimEndIdempotent(t[..Shows(t, o)]);
    assert t[..|t|] == t;
  }

  // ----- streams -----

  /** What stands in the text seen so far stands there still when more has come; what
      stands there then and began inside has begun already. */
  lemma MatchKept(seen: Text, more: Text, o: Text, n: nat, i: nat)
    requires i <= |seen|
    ensures Match(seen, o, n, i) ==> Match(seen + more, o, n, i)
    ensures Match(seen + more, o, n, i) ==> Match(seen, o, Min(n, |seen| - i), i)
  {
    assert forall k :: 0 <= k < |seen| ==> (seen + more)[k] == seen[k];
  }

  lemma AnswerKept(seen: Text, more: Text, o: Text)
    requires Marker(o)
    ensures HasMarker(seen, o) ==> AnswerEnd(seen + more, o) == AnswerEnd(seen, o)
    ensures !HasMarker(seen, o) ==> Shows(seen, o) <= AnswerEnd(seen + more, o)
  {
    var all := seen + more;
    var end := AnswerEnd(all, o);
    if HasMarker(seen, o) {
      MatchKept(seen, more, o, |o|, AnswerEnd(seen, o));
      assert MarkerAt(all, o, AnswerEnd(seen, o));
    }
    if end < |seen| {
      MatchKept(seen, more, o, |o|, end);
      if end + |o| > |seen| {
        assert TailOf(seen, o, |seen| - end);
        TailLongest(seen, o, |o| - 1, |seen| - end);
      } else {
        assert MarkerAt(seen, o, end);
      }
    }
  }

  lemma ShowsGrows(seen: Text, more: Text, o: Text)
    requires Marker(o)
    ensures Shows(seen, o) <= Shows(seen + more, o)
  {
    AnswerKept(seen, more, o);
    if HasMarker(seen, o) {
      assert Answer(seen + more, o) == Answer(seen, o);
    } else if !HasMarker(seen + more, o) {
      DanglingGrew(seen, more, o);
    }
  }

  lemma DanglingGrew(seen: Text, more: Text, o: Text)
    requires Marker(o)
    ensures Dangling(seen + more, o) <= Dangling(seen, o) + |more|
  {
    hide Match, Tail;
    var k := Dangling(seen + more, o);
    TailLongest(seen + more, o, |o| - 1, k);
    if |more| <= k {
      MatchKept(seen, more, o, k, |seen + more| - k);
      TailLongest(seen, o, |o| - 1, k - |more|);
    }
  }

  /** Nothing already shown is ever taken back, however the stream is chunked: the trimmed
      text on show only grows. */
  lemma ShownOnlyGrows(seen: Text, more: Text, o: Text)
    requires Marker(o)
    ensures TrimEnd(VisibleStreaming(seen, o)) <= TrimEnd(VisibleStreaming(seen + more, o))
  {
    hide Shows, VisibleStreaming, Marker;
    var all := seen + more;
    var m := Shows(seen, o);
    ShownTrimmed(seen, o);
    ShownTrimmed(all, o);
    ShowsGrows(seen, more, o);
    TrimEndMonotone(all, m, Shows(all, o));
    assert all[..m] == seen[..m];
  }

  lemma DotLeaks(t: Text, o: Text)
    requires Marker(o) && HasMarker(t, o) && DOTTED_I in Answer(t, o)
    ensures |VisibleStreaming(t, o)| > |Answer(t, o)|
  {
    ShownText(t, o);
    LowerLength(Answer(t, o));
    var end := AnswerEnd(t, o);
    MatchLess(t, o, |o|, end, 1);
    SolidMarker(t, o, end, 0);
    SolidStays(t[..Shows(t, o)], end);
  }

  lemma MatchLess(t: Text, o: Text, n: nat, i: nat, m: nat)
    requires Match(t, o, n, i) && m <= n
    ensures Match(t, o, m, i)
  {
  }

  lemma SolidMarker(t: Text, o: Text, i: nat, k: nat)
    requires Marker(o) && k < |o| && Match(t, o, k + 1, i)
    ensures !IsSpace(t[i + k])
  {
    assert LowerUnit(o[k]) == [o[k]];
  }

  lemma ShowsWithinAnswer(seen: Text, more: Text, o: Text)
    requires Marker(o) && (HasMarker(seen, o) ==> DOTTED_I !in Answer(seen, o))
    ensures Shows(seen, o) <= AnswerEnd(seen + more, o)
  {
    AnswerKept(seen, more, o);
    if HasMarker(seen, o) { LowerLength(Answer(seen, o)); }
  }

  lemma ShownWithinAnswer(seen: Text, more: Text, o: Text)
    requires Marker(o) && Shows(seen, o) <= AnswerEnd(seen + more, o)
    ensures VisibleStreaming(seen, o) <= Answer(seen + more, o)
  {
    hide Shows, AnswerEnd, HasMarker;
    var m := Shows(seen, o);
    StartKept(seen, more, m);
    assert m == |seen| ==> seen[..m] == seen;
    ShownText(seen, o);
  }

  lemma StartKept(seen: Text, more: Text, m: nat)
    requires m <= |seen|
    ensures (seen + more)[..m] == seen[..m]
  {
  }

  /** Every prefix of a stream shows only a prefix of what precedes the opening, whatever comes
      next, exactly unless the whole opening has arrived with a U+0130 before it. */
  lemma OnlyAnswerShown(seen: Text, more: Text, o: Text)
    requires Marker(o)
    ensures VisibleStreaming(seen, o) <= Answer(seen + more, o) <==>
            !(HasMarker(seen, o) && DOTTED_I in Answer(seen, o))
  {
    if HasMarker(seen, o) && DOTTED_I in Answer(seen, o) {
      DotLeaks(seen, o);
      AnswerKept(seen, more, o);
    } else {
      ShowsWithinAnswer(seen, more, o);
      ShownWithinAnswer(seen, more, o);
    }
  }

  /** For a complete opening: after a U+0130 the opening itself shows. */
  lemma LeaksExactlyAfterDottedI(t: Text, o: Text)
    requires Marker(o) && HasMarker(t, o)
    ensures VisibleStreaming(t, o) <= Answer(t, o) <==> DOTTED_I !in Answer(t, o)
  {
    assert t + [] == t;
    OnlyAnswerShown(t, [], o);
  }

  /** `İ<velarix_options>` shows its `<`. */
  lemma DottedILeaks()
    ensures var t := [DOTTED_I] + OPENING; Marker(OPENING) && !(VisibleStreaming(t, OPENING) <= Answer(t, OPENING))
  {
    OpeningIsMarker();
    var o := OPENING;
    var t := [DOTTED_I] + o;
    LeadingDot(t, o);
    LeaksExactlyAfterDottedI(t, o);
  }

  lemma LeadingDot(t: Text, o: Text)
    requires Marker(o) && t == [DOTTED_I] + o
    ensures HasMarker(t, o) && DOTTED_I in Answer(t, o)
  {
    assert MarkerAt(t, o, 1) by { assert forall k :: 0 <= k < |o| ==> t[1 + k] == o[k]; }
    assert !MarkerAt(t, o, 0) by { assert LowerUnit(t[0]) != [o[0]]; }
    assert AnswerEnd(t, o) == 1 && Answer(t, o)[0] == DOTTED_I;
  }

  lemma SolidStays(t: Text, i: nat)
    requires i < |t| && !IsSpace(t[i])
    ensures i < |TrimEnd(t)|
  {
    BlankTail(t, |TrimEnd(t)|);
  }

  lemma SameCutExactlyWhenBlank(t: Text, m: nat, n: nat)
    requires m <= n <= |t|
    ensures TrimEnd(t[..m]) == TrimEnd(t[..n]) <==> Blank(t[m..n])
  {
    if Blank(t[m..n]) {
      TrimEndAppendBlank(t[..m], t[m..n]);
      assert t[..m] + t[m..n] == t[..n];
    } else {
      var k :| 0 <= k < n - m && !IsSpace(t[m..n][k]);
      SolidStays(t[..n], m + k);
    }
  }

  lemma CutKept(seen: Text, more: Text, o: Text)
    requires Marker(o) && HasMarker(seen, o)
    ensures HasMarker(seen + more, o) && Shows(seen, o) <= Shows(seen + more, o)
    ensures AnswerEnd(seen, o) + DottedIs(Answer(seen, o)) <= |seen| ==> Shows(seen, o) == Shows(seen + more, o)
  {
    AnswerKept(seen, more, o);
    assert Answer(seen, o) == Answer(seen + more, o);
  }

  /** Once the opening has arrived the two filters agree, and what is shown is the batch
      filter's result on whatever the whole turns out to be, exactly when the overshoot still
      to come, one unit for every U+0130 before the opening, is blank; without any such unit,
      or with all of them in, it always is. */
  lemma SettledOnceOpened(seen: Text, more: Text, o: Text)
    requires Marker(o) && HasMarker(seen, o)
    ensures Shows(seen, o) <= Shows(seen + more, o) && VisibleStreaming(seen + more, o) == VisibleText(seen + more, o)
    ensures VisibleStreaming(seen, o) == VisibleText(seen + more, o) <==>
            Blank((seen + more)[Shows(seen, o)..Shows(seen + more, o)])
    ensures AnswerEnd(seen, o) + DottedIs(Answer(seen, o)) <= |seen| ==> Shows(seen, o) == Shows(seen + more, o)
  {
    var all := seen + more;
    CutKept(seen, more, o);
    ShownText(seen, o);
    ShownText(all, o);
    SameCutExactlyWhenBlank(all, Shows(seen, o), Shows(all, o));
    StartKept(seen, more, Shows(seen, o));
  }

  lemma DanglingHidden(t: Text, o: Text)
    requires Marker(o) && !HasMarker(t, o) && Dangling(t, o) > 0
    ensures |TrimEnd(t[..Shows(t, o)])| < |TrimEnd(t)|
  {
    var n := Dangling(t, o);
    TailLongest(t, o, |o| - 1, n);
    SolidMarker(t, o, |t| - n, n - 1);
    SolidStays(t, |t| - 1);
  }

  /** When the stream stops, the text on show is the batch filter's exactly when no beginning
      of an opening dangles at its end. */
  lemma EndOfStream(t: Text, o: Text)
    requires Marker(o)
    ensures TrimEnd(VisibleStreaming(t, o)) == VisibleText(t, o) <==> HasMarker(t, o) || Dangling(t, o) == 0
  {
    var streamed, batch := VisibleStreaming(t, o), VisibleText(t, o);
    ShownTrimmed(t, o);
    ShownText(t, o);
    if HasMarker(t, o) {
      assert batch == TrimEnd(t[..Shows(t, o)]);
    } else if Dangling(t, o) > 0 {
      DanglingHidden(t, o);
    } else {
      assert t[..|t|] == t;
    }
  }

  // ----- the program's own opening -----

  /** What a chat shows once the whole opening is in, against the reply as it is stored. */
  lemma SettledReply(seen: Text, more: Text)
    requires HasMarker(seen, OPENING)
    ensures Marker(OPENING) && Shows(seen, OPENING) <= Shows(seen + more, OPENING)
    ensures VisibleStreaming(seen, OPENING) == VisibleResponseText(seen + more) <==>
            Blank((seen + more)[Shows(seen, OPENING)..Shows(seen + more, OPENING)])
  {
    OpeningIsMarker();
    SettledOnceOpened(seen, more, OPENING);
  }

  /** What a chat shows when its stream stops, against the reply as it is stored. */
  lemma EndOfReply(reply: Text)
    ensures Marker(OPENING)
    ensures TrimEnd(VisibleStreaming(reply, OPENING)) == VisibleResponseText(reply) <==>
            HasMarker(reply, OPENING) || Dangling(reply, OPENING) == 0
  {
    OpeningIsMarker();
    EndOfStream(reply, OPENING);
  }

  // ----- feeding a stream -----

  /** `appendStreamingResponseText`: the raw text so far and what may be shown of it. */
  method AppendStreamingResponseText(raw: Text, delta: Text) returns (nextRaw: Text, visible: Text)
    ensures nextRaw == raw + delta
    ensures Marker(OPENING) && visible == VisibleStreaming(nextRaw, OPENING)
  {
    nextRaw := raw + delta;
    visible := VisibleStreamingResponseText(nextRaw);
  }

  function Joined(deltas: seq<Text>): Text {
    if deltas == [] then [] else deltas[0] + Joined(deltas[1..])
  }

  lemma {:induction false} JoinedConcat(a: seq<Text>, b: seq<Text>)
    ensures Joined(a + b) == Joined(a) + Joined(b)
  {
    if a == [] {
      assert a + b == b;
    } else {
      JoinedConcat(a[1..], b);
      assert (a + b)[1..] == a[1..] + b;
      Regroup(a[0], Joined(a[1..]), Joined(b));
    }
  }

  /** What has been received is the chunks one after another. */
  lemma OneMoreChunk(deltas: seq<Text>, delta: Text)
    ensures Joined([]) == [] && Joined(deltas + [delta]) == Joined(deltas) + delta
  {
    JoinedConcat(deltas, [delta]);
    assert [delta][1..] == [] && delta + [] == delta;
  }

  /** A whole stream, chunk by chunk: no update takes back what an earlier one showed. */
  lemma StreamGrows(deltas: seq<Text>, i: nat, j: nat, o: Text)
    requires Marker(o) && i <= j <= |deltas|
    ensures TrimEnd(VisibleStreaming(Joined(deltas[..i]), o)) <= TrimEnd(VisibleStreaming(Joined(deltas[..j]), o))
  {
    JoinedConcat(deltas[..i], deltas[i..j]);
    assert deltas[..j] == deltas[..i] + deltas[i..j];
    ShownOnlyGrows(Joined(deltas[..i]), Joined(deltas[i..j]), o);
  }
}
