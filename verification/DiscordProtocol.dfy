/** Text splitting and the bounded id memory of the Discord channel
    (server/channels/discord-protocol.ts). */
module DiscordProtocol {
  import opened JsText

  // ----- splitDiscordText -----

  /** Chunks laid out again between their gaps. */
  function Weave(gaps: seq<Text>, chunks: seq<Text>): Text
    requires |gaps| == |chunks| + 1
  {
    if chunks == [] then gaps[0] else gaps[0] + chunks[0] + Weave(gaps[1..], chunks[1..])
  }

  function Concat(chunks: seq<Text>): Text {
    if chunks == [] then [] else chunks[0] + Concat(chunks[1..])
  }

  /** `filter(Boolean)`. */
  function NonEmpty(chunks: seq<Text>): (r: seq<Text>)
    ensures |r| <= |chunks|
    ensures forall c :: c in r <==> c in chunks && c != []
  {
    if chunks == [] then [] else (if chunks[0] == [] then [] else [chunks[0]]) + NonEmpty(chunks[1..])
  }

  /** White space before, between and after `n` chunks. */
  predicate Gaps(gaps: seq<Text>, n: nat) {
    |gaps| == n + 1 && forall i :: 0 <= i < |gaps| ==> Blank(gaps[i])
  }

  lemma FirstGap(extra: Text, gaps: seq<Text>, chunks: seq<Text>)
    requires |gaps| == |chunks| + 1
    ensures Weave([extra + gaps[0]] + gaps[1..], chunks) == extra + Weave(gaps, chunks)
  {
    var longer := [extra + gaps[0]] + gaps[1..];
    assert longer[1..] == gaps[1..];
    if chunks != [] {
      Regroup(extra, gaps[0], chunks[0]);
      Regroup(extra, gaps[0] + chunks[0], Weave(gaps[1..], chunks[1..]));
    }
  }

  /** An empty chunk: the gap before it joins the next. */
  lemma MergeGap(gap: Text, gaps: seq<Text>, chunks: seq<Text>) returns (merged: seq<Text>)
    requires Blank(gap) && Gaps(gaps, |chunks|)
    ensures Gaps(merged, |chunks|) && Weave(merged, chunks) == gap + Weave(gaps, chunks)
  {
    merged := [gap + gaps[0]] + gaps[1..];
    BlankConcat(gap, gaps[0]);
    FirstGap(gap, gaps, chunks);
  }

  /** A chunk that stays: the gap before it stays too. */
  lemma KeepGap(gap: Text, piece: Text, gaps: seq<Text>, chunks: seq<Text>) returns (kept: seq<Text>)
    requires Blank(gap) && Gaps(gaps, |chunks|)
    ensures Gaps(kept, |chunks| + 1) && Weave(kept, [piece] + chunks) == gap + piece + Weave(gaps, chunks)
  {
    kept := [gap] + gaps;
    assert kept[1..] == gaps && ([piece] + chunks)[1..] == chunks;
  }

  lemma BlankConcat(a: Text, b: Text)
    requires Blank(a) && Blank(b)
    ensures Blank(a + b)
  {
  }

  /** Dropping empty chunks only merges gaps. */
  lemma {:induction false} WeaveFiltered(gaps: seq<Text>, chunks: seq<Text>) returns (merged: seq<Text>)
    requires Gaps(gaps, |chunks|)
    ensures Gaps(merged, |NonEmpty(chunks)|)
    ensures Weave(merged, NonEmpty(chunks)) == Weave(gaps, chunks)
  {
    if chunks == [] {
      merged := gaps;
    } else {
      var rest := WeaveFiltered(gaps[1..], chunks[1..]);
      if chunks[0] == [] {
        merged := MergeGap(gaps[0], rest, NonEmpty(chunks[1..]));
        assert gaps[0] + chunks[0] == gaps[0] && NonEmpty(chunks) == NonEmpty(chunks[1..]);
      } else {
        merged := KeepGap(gaps[0], chunks[0], rest, NonEmpty(chunks[1..]));
      }
    }
  }

  lemma {:induction false} WeaveSolid(gaps: seq<Text>, chunks: seq<Text>)
    requires Gaps(gaps, |chunks|)
    ensures Solid(Weave(gaps, chunks)) == Solid(Concat(chunks))
  {
    SolidBlank(gaps[0]);
    if chunks != [] {
      WeaveSolid(gaps[1..], chunks[1..]);
      SolidConcat(gaps[0] + chunks[0], Weave(gaps[1..], chunks[1..]));
      SolidConcat(gaps[0], chunks[0]);
      SolidConcat(chunks[0], Concat(chunks[1..]));
      assert [] + Solid(chunks[0]) == Solid(chunks[0]);
    }
  }

  /** Where the next chunk ends: at the last newline of the back half, without one at its
      last space, without either at the limit. */
  function Cut(rest: Text, limit: nat): (cut: nat)
    requires 1 <= limit < |rest|
    ensures 1 <= cut <= limit
    ensures forall i :: limit <= 2 * i && i <= limit && rest[i] == NEWLINE ==> i <= cut && rest[cut] == NEWLINE
    ensures forall i :: limit <= 2 * i && i <= limit && rest[i] == SPACE ==>
              rest[cut] == NEWLINE || (i <= cut && rest[cut] == SPACE)
    ensures cut == limit || (limit <= 2 * cut && (rest[cut] == NEWLINE || rest[cut] == SPACE))
  {
    var newline := LastIndexOf(rest, NEWLINE, limit);
    var soft := if 2 * newline < limit then LastIndexOf(rest, SPACE, limit) else newline;
    if 2 * soft < limit then limit else soft
  }

  function Pieces(rest: Text, limit: nat): seq<Text>
    requires limit >= 1
    decreases |rest|
  {
    if rest == [] then []
    else if |rest| <= limit then [rest]
    else [TrimEnd(rest[..Cut(rest, limit)])] + Pieces(TrimStart(rest[Cut(rest, limit)..]), limit)
  }

  lemma UnfoldPieces(done: seq<Text>, rest: Text, limit: nat, cut: nat)
    requires 1 <= limit < |rest| && cut == Cut(rest, limit)
    ensures done + Pieces(rest, limit) == done + [TrimEnd(rest[..cut])] + Pieces(TrimStart(rest[cut..]), limit)
  {
    Associate(done, TrimEnd(rest[..cut]), Pieces(TrimStart(rest[cut..]), limit), Pieces(rest, limit));
  }

  lemma Associate(done: seq<Text>, piece: Text, more: seq<Text>, all: seq<Text>)
    requires all == [piece] + more
    ensures done + all == done + [piece] + more
  {
  }

  /** The pieces of a text in order, each within the limit, nothing between them but white space. */
  lemma {:induction false} PiecesWeave(rest: Text, limit: nat) returns (gaps: seq<Text>)
    requires limit >= 1
    ensures forall c :: c in Pieces(rest, limit) ==> |c| <= limit
    ensures Gaps(gaps, |Pieces(rest, limit)|)
    ensures Weave(gaps, Pieces(rest, limit)) == rest
    decreases |rest|
  {
    if rest == [] {
      gaps := [[]];
    } else if |rest| <= limit {
      gaps := [[], []];
      assert [] + rest + Weave([[]], []) == rest && gaps[1..] == [[]] && [rest][1..] == [];
    } else {
      var cut := Cut(rest, limit);
      var more := PiecesWeave(TrimStart(rest[cut..]), limit);
      var gap := Between(rest, cut);
      gaps := PrependPiece(TrimEnd(rest[..cut]), gap, more, Pieces(TrimStart(rest[cut..]), limit));
    }
  }

  lemma PrependPiece(piece: Text, gap: Text, more: seq<Text>, pieces: seq<Text>) returns (gaps: seq<Text>)
    requires Gaps(more, |pieces|) && Blank(gap)
    ensures Gaps(gaps, |pieces| + 1)
    ensures Weave(gaps, [piece] + pieces) == piece + gap + Weave(more, pieces)
  {
    var rest := MergeGap(gap, more, pieces);
    gaps := KeepGap([], piece, rest, pieces);
    assert [] + piece == piece;
    Regroup(piece, gap, Weave(more, pieces));
  }

  /** No chunk is empty or over the limit, and no non-blank unit is lost, added or moved. */
  ghost predicate Faithful(chunks: seq<Text>, text: Text, limit: nat) {
    (forall c :: c in chunks ==> 0 < |c| <= limit) && Solid(Concat(chunks)) == Solid(text)
  }

  lemma ShortText(text: Text, limit: nat)
    requires limit >= 1
    ensures |text| <= limit ==> NonEmpty(Pieces(text, limit)) == if text == [] then [] else [text]
  {
    assert [text][1..] == [] && NonEmpty([text]) == (if text == [] then [] else [text]) + NonEmpty([]);
  }

  /** The chunks posted: none empty, none over the limit, pieces of the text in order with
      nothing but white space between them. */
  lemma ChunksCoverText(text: Text, limit: nat) returns (gaps: seq<Text>)
    requires limit >= 1
    ensures var chunks := NonEmpty(Pieces(text, limit));
            && Gaps(gaps, |chunks|) && Weave(gaps, chunks) == text
            && Faithful(chunks, text, limit)
  {
    var all := PiecesWeave(text, limit);
    gaps := WeaveFiltered(all, Pieces(text, limit));
    WeaveSolid(gaps, NonEmpty(Pieces(text, limit)));
  }

  method NextCut(rest: Text, limit: nat) returns (cut: int)
    requires 1 <= limit < |rest|
    ensures cut == Cut(rest, limit)
  {
    cut := LastIndexOf(rest, NEWLINE, limit);
    if 2 * cut < limit { cut := LastIndexOf(rest, SPACE, limit); }
    if 2 * cut < limit { cut := limit; }
  }

  method SplitDiscordText(text: Text, limit: nat) returns (chunks: seq<Text>)
    requires limit >= 1
    ensures chunks == NonEmpty(Pieces(text, limit))
    ensures Faithful(chunks, text, limit)
  {
    ghost var gaps := ChunksCoverText(text, limit);
    ShortText(text, limit);
    if text == [] { return []; }
    if |text| <= limit { return [text]; }
    var pieces := CutUp(text, limit);
    return NonEmpty(pieces);
  }

  /** The loop, and the push of what is left after it. */
  method CutUp(text: Text, limit: nat) returns (pieces: seq<Text>)
    requires limit >= 1
    ensures pieces == Pieces(text, limit)
  {
    hide Pieces, Cut;
    var rest := text;
    pieces := [];
    while |rest| > limit
      invariant pieces + Pieces(rest, limit) == Pieces(text, limit)
      decreases |rest|
    {
      var cut := NextCut(rest, limit);
      UnfoldPieces(pieces, rest, limit, cut);
      pieces, rest := pieces + [TrimEnd(rest[..cut])], TrimStart(rest[cut..]);
    }
    LastPiece(pieces, rest, limit);
    if rest != [] { pieces := pieces + [rest]; }
  }

  lemma LastPiece(pieces: seq<Text>, rest: Text, limit: nat)
    requires |rest| <= limit && limit >= 1
    ensures pieces + Pieces(rest, limit) == if rest == [] then pieces else pieces + [rest]
  {
  }

  /** The white space trimmed away on both sides of a cut. */
  lemma Between(rest: Text, cut: nat) returns (gap: Text)
    requires cut <= |rest|
    ensures Blank(gap) && rest == TrimEnd(rest[..cut]) + gap + TrimStart(rest[cut..])
  {
    var left, right := rest[..cut], rest[cut..];
    var a := TrimmedEnd(left);
    var b := TrimmedStart(right);
    gap := a + b;
    BlankConcat(a, b);
    assert rest == left + right;
    AroundCut(rest, left, right, TrimEnd(left), a, b, TrimStart(right));
  }

  lemma TrimmedEnd(t: Text) returns (gap: Text)
    ensures Blank(gap) && t == TrimEnd(t) + gap
  {
    gap := t[|TrimEnd(t)|..];
  }

  lemma TrimmedStart(t: Text) returns (gap: Text)
    ensures Blank(gap) && t == gap + TrimStart(t)
  {
    gap := t[..|t| - |TrimStart(t)|];
  }

  lemma AroundCut(whole: Text, left: Text, right: Text, a: Text, b: Text, c: Text, d: Text)
    requires whole == left + right && left == a + b && right == c + d
    ensures whole == a + (b + c) + d
  {
  }

  // ----- BoundedIdSet -----

  function Last(ids: seq<string>, n: nat): seq<string> {
    if |ids| <= n then ids else ids[|ids| - n..]
  }

  predicate Distinct(ids: seq<string>) {
    forall i, j :: 0 <= i < j < |ids| ==> ids[i] != ids[j]
  }

  lemma SplitFirst(ids: seq<string>)
    requires ids != [] && Distinct(ids)
    ensures Distinct(ids[1..]) && forall x :: x in ids[1..] <==> x in ids && x != ids[0]
  {
    assert ids == [ids[0]] + ids[1..];
  }

  /** The ids held are the last ones accepted, each once, and the empty string once accepted. */
  ghost predicate Held(accepted: seq<string>, order: seq<string>, ids: set<string>) {
    && |order| <= |accepted| && order == accepted[|accepted| - |order|..] && Distinct(order)
    && forall x :: x in ids <==> x in order || (x == "" && "" in accepted)
  }

  lemma HeldWithoutFirst(accepted: seq<string>, order: seq<string>, ids: set<string>)
    requires Held(accepted, order, ids) && order != []
    ensures Held(accepted, order[1..], if order[0] == "" then ids else ids - {order[0]})
  {
    SplitFirst(order);
    assert order[0] == accepted[|accepted| - |order|] && order[0] in accepted;
  }

  lemma HeldWithOneMore(accepted: seq<string>, order: seq<string>, ids: set<string>, id: string)
    requires Held(accepted, order, ids) && id !in ids
    ensures Held(accepted + [id], order + [id], ids + {id})
  {
    assert (accepted + [id])[|accepted| - |order|..] == order + [id];
    assert forall x :: x in order + [id] <==> x in order || x == id;
    assert forall x :: x in accepted + [id] <==> x in accepted || x == id;
  }

  lemma LastLength(accepted: seq<string>, order: seq<string>, ids: set<string>, n: nat)
    requires Held(accepted, order, ids)
    ensures |Last(accepted, n)| <= |accepted| && (order == Last(accepted, n) <==> |order| == |Last(accepted, n)|)
  {
  }

  lemma InLast(ids: seq<string>, n: nat, id: string)
    ensures id in Last(ids, n) <==> exists i :: 0 <= i < |ids| && |ids| - n <= i && ids[i] == id
  {
    if |ids| > n {
      if id in Last(ids, n) {
        var k :| 0 <= k < n && Last(ids, n)[k] == id;
        assert ids[|ids| - n + k] == id;
      }
      if i :| 0 <= i < |ids| && |ids| - n <= i && ids[i] == id { assert Last(ids, n)[i - (|ids| - n)] == id; }
    }
  }

  /** A set that forgets its oldest ids.  `accepted` is every id `add` ever answered true
      for, in order; what the set remembers is told in terms of it alone. */
  class BoundedIdSet {
    var ids: set<string>
    var order: seq<string>
    const max: nat
    ghost var accepted: seq<string>

    /** The last `max` accepted ids, and the empty string for ever: evicting it is skipped. */
    ghost predicate Remembers(id: string)
      reads this
    {
      || (exists i :: 0 <= i < |accepted| && |accepted| - max <= i && accepted[i] == id)
      || (id == "" && "" in accepted)
    }

    ghost predicate Valid()
      reads this
    {
      order == Last(accepted, max) && Held(accepted, order, ids)
    }

    method EvictOldest()
      requires Held(accepted, order, ids) && order != []
      modifies this`order, this`ids
      ensures Held(accepted, order, ids) && order == old(order[1..])
    {
      hide Held;
      HeldWithoutFirst(accepted, order, ids);
      var oldest := order[0];
      order := order[1..];
      if oldest != "" { ids := ids - {oldest}; }
    }

    constructor (max: nat)
      ensures Valid() && accepted == [] && this.max == max
    {
      ids, order, this.max, accepted := {}, [], max, [];
    }

    method Has(id: string) returns (r: bool)
      requires Valid()
      ensures r == Remembers(id)
    {
      InLast(accepted, max, id);
      r := id in ids;
    }

    method Add(id: string) returns (r: bool)
      requires Valid()
      modifies this
      ensures Valid() && r == !old(Remembers(id))
      ensures accepted == if r then old(accepted) + [id] else old(accepted)
    {
      InLast(accepted, max, id);
      if id in ids { return false; }
      hide Held;
      HeldWithOneMore(accepted, order, ids, id);
      ids := ids + {id};
      order := order + [id];
      accepted := accepted + [id];
      while |order| > max
        decreases |order|
        invariant accepted == old(accepted) + [id]
        invariant Held(accepted, order, ids) && |Last(accepted, max)| <= |order|
      {
        EvictOldest();
      }
      LastLength(accepted, order, ids, max);
      return true;
    }
  }
}
