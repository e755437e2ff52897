/** Notes files: a user part and a distilled part around a marker (server/memory.ts).  The
    marker is a parameter of everything proved; `DISTILL_MARKER` is the program's. */
module Memory {
  import opened JsText

  /** `<!-- velarixbot:distilled -->` */
  const DISTILL_MARKER: Text :=
    [60, 33, 45, 45, 32, 118, 101, 108, 97, 114, 105, 120, 98, 111, 116, 58,
     100, 105, 115, 116, 105, 108, 108, 101, 100, 32, 45, 45, 62]

  lemma MarkerText()
    ensures Marker(DISTILL_MARKER)
    ensures var text := "<!-- velarixbot:distilled -->";
            |DISTILL_MARKER| == |text| && forall i :: 0 <= i < |text| ==> DISTILL_MARKER[i] == text[i] as int
  {
  }

  const MEMORY_CHAR_CAP: nat := 6000
  const WORKSPACE := "workspace"

  /** What the proofs need of a marker. */
  predicate Marker(m: Text) {
    m != [] && NEWLINE !in m && !IsSpace(m[0]) && !IsSpace(m[|m| - 1])
  }

  datatype Parts = Parts(user: Text, distilled: Text)

  function SplitMemory(raw: Text, m: Text): Parts {
    var i := IndexOf(raw, m);
    if i < 0 then Parts(raw, []) else Parts(raw[..i], raw[i + |m|..])
  }

  /** The user part as it is laid out before the marker. */
  function Heading(head: Text): Text {
    if head == [] then [] else head + [NEWLINE, NEWLINE]
  }

  function JoinMemory(user: Text, distilled: Text, m: Text): Text {
    var head, tail := TrimEnd(user), TrimEnd(TrimStart(distilled));
    if tail == [] then (if head == [] then [] else head + [NEWLINE])
    else Heading(head) + m + [NEWLINE] + tail + [NEWLINE]
  }

  predicate Contains(t: Text, p: Text) {
    IndexOf(t, p) >= 0
  }

  // ----- trimming -----

  lemma TrimPadded(before: Text, t: Text, after: Text)
    requires Blank(before) && Blank(after) && Trimmed(t)
    ensures TrimEnd(TrimStart(before + t + after)) == t
  {
    var padded := before + t + after;
    if t == [] {
      assert padded == before + after;
      assert padded[..|padded|] == padded;
      TrimStartUnique(padded, |padded|);
    } else {
      var n := |before|;
      assert padded[..n] == before && padded[n] == t[0];
      TrimStartUnique(padded, n);
      assert padded[n..] == t + after;
      TrimEndAppendBlank(t, after);
      TrimEndUnique(t, |t|);
      assert t[..|t|] == t;
    }
  }

  // ----- where the marker can stand -----

  lemma OccursInPrefix(t: Text, n: nat, p: Text, i: int)
    requires n <= |t|
    ensures OccursAt(t[..n], p, i) <==> OccursAt(t, p, i) && i + |p| <= n
  {
    if 0 <= i && i + |p| <= n { assert t[..n][i..i + |p|] == t[i..i + |p|]; }
  }

  lemma OccursInSuffix(t: Text, n: nat, p: Text, i: int)
    requires n <= |t| && n <= i
    ensures OccursAt(t[n..], p, i - n) <==> OccursAt(t, p, i)
  {
    if i + |p| <= |t| { assert t[n..][i - n..i - n + |p|] == t[i..i + |p|]; }
  }

  /** An occurrence of the marker holds no line break and is solid at both ends. */
  lemma MarkerUnits(t: Text, m: Text, i: int)
    requires Marker(m) && OccursAt(t, m, i)
    ensures forall j :: i <= j < i + |m| ==> t[j] != NEWLINE
    ensures !IsSpace(t[i]) && !IsSpace(t[i + |m| - 1])
  {
    forall j | i <= j < i + |m| ensures t[j] == m[j - i] != NEWLINE {
      assert t[i + (j - i)] == m[j - i] && m[j - i] in m;
    }
    assert t[i + 0] == m[0] && t[i + (|m| - 1)] == m[|m| - 1];
  }

  /** A text holds the marker exactly when its trimmed form does. */
  lemma TrimmedContains(t: Text, m: Text)
    requires Marker(m)
    ensures Contains(TrimEnd(t), m) <==> Contains(t, m)
  {
    var head := TrimEnd(t);
    var i, j := IndexOf(head, m), IndexOf(t, m);
    assert head == t[..|head|];
    OccursInPrefix(t, |head|, m, i);
    OccursInPrefix(t, |head|, m, j);
    BlankTail(t, |head|);
    if j >= 0 { MarkerUnits(t, m, j); }
  }

  /** The marker does not reach across a line break. */
  lemma NoStraddle(before: Text, after: Text, m: Text, i: int)
    requires Marker(m) && OccursAt(before + [NEWLINE] + after, m, i)
    ensures if i <= |before| then OccursAt(before, m, i) else OccursAt(after, m, i - |before| - 1)
  {
    var t, n := before + [NEWLINE] + after, |before|;
    MarkerUnits(t, m, i);
    assert t[n] == NEWLINE && t[..n] == before && t[n + 1..] == after;
    if i <= n { OccursInPrefix(t, n, m, i); } else { OccursInSuffix(t, n + 1, m, i); }
  }

  lemma LinesContain(before: Text, after: Text, m: Text)
    requires Marker(m)
    ensures Contains(before + [NEWLINE] + after, m) <==> Contains(before, m) || Contains(after, m)
  {
    var t, n := before + [NEWLINE] + after, |before|;
    var i, j, k := IndexOf(t, m), IndexOf(before, m), IndexOf(after, m);
    if i >= 0 { NoStraddle(before, after, m, i); }
    assert t[..n] == before && t[n + 1..] == after;
    OccursInPrefix(t, n, m, j);
    if k >= 0 { OccursInSuffix(t, n + 1, m, n + 1 + k); }
  }

  /** Under a heading without the marker, the first marker is the one written there. */
  lemma FirstMarker(head: Text, rest: Text, m: Text)
    requires Marker(m) && !Contains(head, m)
    ensures IndexOf(Heading(head) + m + rest, m) == |Heading(head)|
  {
    var t, n := Heading(head) + m + rest, |Heading(head)|;
    assert t[n..n + |m|] == m && OccursAt(t, m, n);
    var i := IndexOf(t, m);
    MarkerUnits(t, m, i);
    assert t[..|head|] == head;
    OccursInPrefix(t, |head|, m, i);
    assert head != [] ==> t[|head|] == NEWLINE && t[|head| + 1] == NEWLINE;
  }

  // ----- split after join -----

  lemma SplitPlain(head: Text, m: Text)
    requires Marker(m) && !Contains(head, m)
    ensures var joined := if head == [] then [] else head + [NEWLINE];
            SplitMemory(joined, m) == Parts(joined, [])
  {
    LinesContain(head, [], m);
    assert head + [NEWLINE] + [] == head + [NEWLINE];
  }

  lemma SplitAtMarker(before: Text, m: Text, after: Text)
    requires IndexOf(before + m + after, m) == |before|
    ensures SplitMemory(before + m + after, m) == Parts(before, after)
  {
    var t := before + m + after;
    assert t[..|before|] == before && t[|before| + |m|..] == after;
  }

  lemma SplitMarked(head: Text, tail: Text, m: Text)
    requires Marker(m) && !Contains(head, m)
    ensures SplitMemory(Heading(head) + m + [NEWLINE] + tail + [NEWLINE], m)
         == Parts(Heading(head), [NEWLINE] + tail + [NEWLINE])
  {
    hide Heading, IndexOf, Contains, Marker;
    var h, rest := Heading(head), [NEWLINE] + tail + [NEWLINE];
    assert h + m + [NEWLINE] + tail + [NEWLINE] == h + m + rest;
    FirstMarker(head, rest, m);
    SplitAtMarker(h, m, rest);
  }

  lemma TrimHeading(head: Text)
    requires head == TrimEnd(head)
    ensures TrimEnd(Heading(head)) == head && TrimEnd(head + [NEWLINE]) == head
  {
    TrimEndAppendBlank(head, [NEWLINE, NEWLINE]);
    TrimEndAppendBlank(head, [NEWLINE]);
  }

  /** The same parts, up to the white space a file does not keep. */
  predicate Same(a: Parts, b: Parts) {
    TrimEnd(a.user) == TrimEnd(b.user) && TrimEnd(TrimStart(a.distilled)) == TrimEnd(TrimStart(b.distilled))
  }

  lemma JoinKeeps(user: Text, distilled: Text, m: Text)
    requires Marker(m) && !Contains(user, m)
    ensures Same(SplitMemory(JoinMemory(user, distilled, m), m), Parts(user, distilled))
  {
    var head, tail := TrimEnd(user), TrimEnd(TrimStart(distilled));
    TrimmedContains(user, m);
    TrimEndIdempotent(user);
    TrimHeading(head);
    if tail == [] {
      SplitPlain(head, m);
    } else {
      SplitMarked(head, tail, m);
      TrimPadded([NEWLINE], tail, [NEWLINE]);
    }
  }

  lemma JoinCutsUser(user: Text, distilled: Text, m: Text)
    requires Marker(m) && Contains(user, m)
    ensures |TrimEnd(SplitMemory(JoinMemory(user, distilled, m), m).user)| < |TrimEnd(user)|
  {
    var head, tail := TrimEnd(user), TrimEnd(TrimStart(distilled));
    TrimmedContains(user, m);
    var joined := JoinMemory(user, distilled, m);
    var i := IndexOf(head, m);
    HeadFirst(user, distilled, m);
    OccursInPrefix(joined, |head|, m, i);
    var user' := SplitMemory(joined, m).user;
    assert |user'| <= i < |head|;
  }

  lemma HeadFirst(user: Text, distilled: Text, m: Text)
    ensures var joined := JoinMemory(user, distilled, m);
            |joined| >= |TrimEnd(user)| && joined[..|TrimEnd(user)|] == TrimEnd(user)
  {
  }

  /** Reading back what was written gives the parts again, up to outer white space, exactly
      when the user part does not hold the marker. */
  lemma SplitOfJoin(user: Text, distilled: Text, m: Text)
    requires Marker(m)
    ensures Same(SplitMemory(JoinMemory(user, distilled, m), m), Parts(user, distilled)) <==> !Contains(user, m)
  {
    if Contains(user, m) { JoinCutsUser(user, distilled, m); } else { JoinKeeps(user, distilled, m); }
  }

  /** How a file is laid out: the user part without the white space at its end; if anything is
      distilled, a blank line, the marker on a line of its own, and what is distilled; and one line
      break at the end.  Without any part it is empty. */
  lemma FileLayout(user: Text, distilled: Text, m: Text)
    ensures var file, head, tail := JoinMemory(user, distilled, m), TrimEnd(user), TrimEnd(TrimStart(distilled));
            && (file == [] <==> head == [] && tail == [])
            && head <= file && (file != [] ==> file[|file| - 1] == NEWLINE)
            && (tail == [] && head != [] ==> |file| == |head| + 1)
            && (tail != [] ==>
                  var p := if head == [] then 0 else |head| + 2;
                  && |file| == p + |m| + |tail| + 2 && (head != [] ==> file[|head|] == file[|head| + 1] == NEWLINE)
                  && file[p..p + |m|] == m && file[p + |m|] == NEWLINE && file[p + |m| + 1..|file| - 1] == tail)
  {
    hide TrimEnd, TrimStart;
    var head, tail := TrimEnd(user), TrimEnd(TrimStart(distilled));
    Pieces(Heading(head), m, tail);
    assert head != [] ==> Heading(head)[|head|] == Heading(head)[|head| + 1] == NEWLINE;
  }

  lemma Pieces(head: Text, m: Text, tail: Text)
    ensures var file := head + m + [NEWLINE] + tail + [NEWLINE]; var p := |head|;
            && |file| == p + |m| + |tail| + 2 && head <= file && file[|file| - 1] == NEWLINE
            && file[p..p + |m|] == m && file[p + |m|] == NEWLINE && file[p + |m| + 1..|file| - 1] == tail
  {
  }

  // ----- the normal form -----

  /** A file split and joined again. */
  function Normal(raw: Text, m: Text): Text {
    var parts := SplitMemory(raw, m);
    JoinMemory(parts.user, parts.distilled, m)
  }

  lemma UserPartPlain(raw: Text, m: Text)
    requires Marker(m)
    ensures !Contains(SplitMemory(raw, m).user, m)
  {
    var i := IndexOf(raw, m);
    if i >= 0 {
      var j := IndexOf(raw[..i], m);
      OccursInPrefix(raw, i, m, j);
    }
  }

  /** Splitting a file and joining it again is a normal form, whatever the file held. */
  lemma NormalIdempotent(raw: Text, m: Text)
    requires Marker(m)
    ensures Normal(raw, m) == JoinMemory(SplitMemory(raw, m).user, SplitMemory(raw, m).distilled, m)
    ensures Normal(Normal(raw, m), m) == Normal(raw, m)
  {
    var parts := SplitMemory(raw, m);
    UserPartPlain(raw, m);
    JoinKeeps(parts.user, parts.distilled, m);
  }

  // ----- remembering notes -----

  function WithNote(existing: Text, text: Text): Text {
    var kept := TrimEnd(existing);
    if kept == [] then text else kept + [NEWLINE] + text
  }

  function CapMemory(text: Text, cap: nat): Text {
    if |text| <= cap then text else text[..cap]
  }

  /** A bot's notes file after `rememberNote`. */
  function Remembered(raw: Text, note: Text, m: Text): Text {
    if Trim(note) == [] then raw else BotFileWith(raw, Trim(note), m)
  }

  function BotFileWith(raw: Text, text: Text, m: Text): Text {
    JoinMemory(WithNote(SplitMemory(raw, m).user, text), SplitMemory(raw, m).distilled, m)
  }

  lemma TrimContains(note: Text, m: Text)
    requires Marker(m)
    ensures Contains(Trim(note), m) <==> Contains(note, m)
  {
    TrimmedContains(note, m);
    var t := TrimEnd(note);
    var cut := |t| - |Trim(note)|;
    assert t[cut..] == Trim(note) && forall i :: 0 <= i < cut ==> t[..cut][i] == t[i];
    var i, j := IndexOf(t, m), IndexOf(Trim(note), m);
    if j >= 0 { OccursInSuffix(t, cut, m, cut + j); }
    if i >= 0 {
      MarkerUnits(t, m, i);
      OccursInSuffix(t, cut, m, i);
    }
  }

  /** The later text is the earlier one, a line break if that holds anything, and the new text. */
  predicate LineAdded(was: Text, text: Text, now: Text) {
    && was <= now && |now| == |was| + (if was == [] then 0 else 1) + |text|
    && (was != [] ==> now[|was|] == NEWLINE)
    && now[|now| - |text|..] == text
  }

  /** A note is appended to the user part, and the distilled part stays, exactly when the
      note does not hold the marker. */
  lemma NoteAppended(raw: Text, note: Text, m: Text)
    requires Marker(m) && Trim(note) != []
    ensures var was, now := SplitMemory(raw, m), SplitMemory(Remembered(raw, note, m), m);
            && LineAdded(TrimEnd(was.user), Trim(note), TrimEnd(now.user))
            && TrimEnd(TrimStart(now.distilled)) == TrimEnd(TrimStart(was.distilled))
            <==> !Contains(note, m)
  {
    NoteInFile(raw, note, m);
    var was, now := SplitMemory(raw, m), SplitMemory(Remembered(raw, note, m), m);
    LineAddedIs(TrimEnd(was.user), Trim(note), TrimEnd(now.user));
    NoteTrimmed(was.user, note);
  }

  lemma LineAddedIs(was: Text, text: Text, now: Text)
    ensures LineAdded(was, text, now) <==> now == if was == [] then text else was + [NEWLINE] + text
  {
    if LineAdded(was, text, now) {
      assert now == now[..|now| - |text|] + now[|now| - |text|..];
      assert now[..|now| - |text|] == if was == [] then [] else was + [NEWLINE];
    } else if was != [] {
      assert (was + [NEWLINE] + text)[|was| + 1..] == text;
    }
  }

  /** A note leaves no white space at the end. */
  lemma NoteTrimmed(user: Text, note: Text)
    requires Trim(note) != []
    ensures TrimEnd(WithNote(user, Trim(note))) == WithNote(user, Trim(note))
  {
    var all := WithNote(user, Trim(note));
    assert all[|all| - 1] == Trim(note)[|Trim(note)| - 1];
    TrimEndUnique(all, |all|);
    assert all[..|all|] == all;
  }

  lemma NoteInFile(raw: Text, note: Text, m: Text)
    requires Marker(m) && Trim(note) != []
    ensures var parts := SplitMemory(raw, m);
            Same(SplitMemory(Remembered(raw, note, m), m), Parts(WithNote(parts.user, Trim(note)), parts.distilled))
            <==> !Contains(note, m)
  {
    var parts, text := SplitMemory(raw, m), Trim(note);
    UserPartPlain(raw, m);
    TrimmedContains(parts.user, m);
    LinesContain(TrimEnd(parts.user), text, m);
    TrimContains(note, m);
    SplitOfJoin(WithNote(parts.user, text), parts.distilled, m);
  }

  function RememberedAll(raw: Text, notes: seq<Text>, m: Text): Text
    decreases |notes|
  {
    if notes == [] then raw else RememberedAll(Remembered(raw, notes[0], m), notes[1..], m)
  }

  function WithLine(user: Text, note: Text): Text {
    if Trim(note) == [] then user else WithNote(user, Trim(note))
  }

  /** The user part with every note that is not blank on a line of its own. */
  function Lines(user: Text, notes: seq<Text>): Text
    decreases |notes|
  {
    if notes == [] then user else Lines(WithLine(user, notes[0]), notes[1..])
  }

  lemma NextNote(raw: Text, note: Text, m: Text, before: Parts)
    requires Marker(m) && !Contains(note, m) && Same(SplitMemory(raw, m), before)
    ensures Same(SplitMemory(Remembered(raw, note, m), m), Parts(WithLine(before.user, note), before.distilled))
  {
    if Trim(note) != [] { NoteInFile(raw, note, m); }
  }

  lemma {:induction false} LinesKept(raw: Text, notes: seq<Text>, m: Text, before: Parts)
    requires Marker(m) && (forall n :: n in notes ==> !Contains(n, m)) && Same(SplitMemory(raw, m), before)
    ensures Same(SplitMemory(RememberedAll(raw, notes, m), m), Parts(Lines(before.user, notes), before.distilled))
    decreases |notes|
  {
    if notes != [] {
      assert notes[0] in notes && forall n :: n in notes[1..] ==> n in notes;
      NextNote(raw, notes[0], m, before);
      var next := Parts(WithLine(before.user, notes[0]), before.distilled);
      LinesKept(Remembered(raw, notes[0], m), notes[1..], m, next);
    }
  }

  /** The text stands here on its own lines, past what was there. */
  predicate Stands(was: Text, text: Text, place: nat, now: Text) {
    && OccursAt(now, text, place) && (place > 0 ==> now[place - 1] == NEWLINE)
    && |was| <= place && was <= now
  }

  /** The notes that are not blank stand at these places, in order. */
  predicate Laid(was: Text, notes: seq<Text>, places: seq<nat>, now: Text) {
    && |places| == |notes| && was <= now
    && (forall i :: 0 <= i < |notes| && Trim(notes[i]) != [] ==> Stands(was, Trim(notes[i]), places[i], now))
    && (forall i, j :: 0 <= i < j < |notes| && Trim(notes[i]) != [] && Trim(notes[j]) != [] ==>
          places[i] + |Trim(notes[i])| < places[j])
  }

  lemma StandsPast(was: Text, text: Text, mid: Text, next: Text, place: nat, now: Text)
    requires text == Trim(text) != [] && next != [] && LineAdded(was, text, mid) && Stands(mid, next, place, now)
    ensures Stands(was, next, place, now) && place > |mid|
  {
    assert mid[|mid| - 1] == text[|text| - 1] && !IsSpace(text[|text| - 1]);
    assert now[|mid| - 1] == mid[|mid| - 1];
  }

  lemma StandsLast(was: Text, text: Text, mid: Text, now: Text)
    requires LineAdded(was, text, mid) && mid <= now
    ensures Stands(was, text, |mid| - |text|, now)
  {
    assert now[|mid| - |text|..|mid|] == mid[|mid| - |text|..];
  }

  lemma LaidFirst(was: Text, notes: seq<Text>, mid: Text, places: seq<nat>, now: Text, first: nat)
    requires notes != [] && Laid(mid, notes[1..], places, now)
    requires Trim(notes[0]) == [] ==> mid == was
    requires Trim(notes[0]) != [] ==> LineAdded(was, Trim(notes[0]), mid) && first == |mid| - |Trim(notes[0])|
    ensures Laid(was, notes, [first] + places, now)
  {
    hide Stands, Trim, LineAdded;
    var all, text := [first] + places, Trim(notes[0]);
    if text != [] { StandsLast(was, text, mid, now); }
    TrimTwice(notes[0]);
    forall i | 0 < i < |notes| && Trim(notes[i]) != []
      ensures Stands(was, Trim(notes[i]), all[i], now) && (text != [] ==> first + |text| < all[i])
    {
      assert notes[i] == notes[1..][i - 1] && all[i] == places[i - 1];
      if text != [] { StandsPast(was, text, mid, Trim(notes[i]), all[i], now); }
    }
    forall i, j | 0 < i < j < |notes| && Trim(notes[i]) != [] && Trim(notes[j]) != []
      ensures all[i] + |Trim(notes[i])| < all[j]
    {
      assert notes[i] == notes[1..][i - 1] && notes[j] == notes[1..][j - 1];
      assert all[i] == places[i - 1] && all[j] == places[j - 1];
    }
  }

  lemma TrimTwice(note: Text)
    ensures Trim(Trim(note)) == Trim(note)
  {
    TrimTrimmed(Trim(note));
  }

  /** However many notes are remembered, the file keeps them all: what the user part held is still
      its beginning, every note that is not blank stands there after it, in order and on lines of its
      own, and the distilled part is as it was. */
  lemma {:induction false} EveryNoteKept(raw: Text, notes: seq<Text>, m: Text) returns (places: seq<nat>)
    requires Marker(m) && forall n :: n in notes ==> !Contains(n, m)
    ensures var was, now := SplitMemory(raw, m), SplitMemory(RememberedAll(raw, notes, m), m);
            && Laid(TrimEnd(was.user), notes, places, TrimEnd(now.user))
            && TrimEnd(TrimStart(now.distilled)) == TrimEnd(TrimStart(was.distilled))
    decreases |notes|
  {
    places := [];
    if notes != [] {
      var next := Remembered(raw, notes[0], m);
      var was, mid := TrimEnd(SplitMemory(raw, m).user), TrimEnd(SplitMemory(next, m).user);
      assert notes[0] in notes && forall n :: n in notes[1..] ==> n in notes;
      var rest := EveryNoteKept(next, notes[1..], m);
      if Trim(notes[0]) != [] { NoteAppended(raw, notes[0], m); }
      var first: nat := if Trim(notes[0]) == [] then 0 else |mid| - |Trim(notes[0])|;
      LaidFirst(was, notes, mid, rest, TrimEnd(SplitMemory(RememberedAll(raw, notes, m), m).user), first);
      places := [first] + rest;
    }
  }

  /** The workspace file after `rememberNote`, which caps what it writes. */
  function WorkspaceRemembered(raw: Text, note: Text): Text {
    if Trim(note) == [] then raw else WorkspaceFileWith(raw, Trim(note))
  }

  function WorkspaceFileWith(raw: Text, text: Text): Text {
    CapMemory(WithNote(raw, text) + [NEWLINE], MEMORY_CHAR_CAP)
  }

  /** In the workspace a note is appended exactly when the file still has room for it; one without
      room fills the file to the cap. */
  lemma WorkspaceKeepsNote(raw: Text, note: Text)
    requires Trim(note) != []
    ensures var was, now := TrimEnd(raw), WorkspaceRemembered(raw, note);
            var room := |was| + (if was == [] then 0 else 1) + |Trim(note)| <= 6000;
            && (LineAdded(was, Trim(note), TrimEnd(now)) <==> room)
            && (if room then |now| == 6000 || now == TrimEnd(now) + [NEWLINE] else |now| == 6000)
            && forall i :: 0 <= i < |was| && i < 6000 ==> now[i] == was[i]
  {
    hide LineAdded, Trim;
    var was, now, all := TrimEnd(raw), WorkspaceRemembered(raw, note), WithNote(raw, Trim(note));
    NoteTrimmed(raw, note);
    TrimEndAppendBlank(all, [NEWLINE]);
    if |all| == MEMORY_CHAR_CAP { assert (all + [NEWLINE])[..|all|] == all; }
    LineAddedIs(was, Trim(note), TrimEnd(now));
  }

  // ----- the files -----

  /** The notes directory; a bot's file is named after it, the workspace's after itself. */
  class NotesFiles {
    var files: map<string, Text>
    const marker: Text

    predicate Valid() {
      Marker(marker)
    }

    constructor ()
      ensures Valid() && files == map[] && marker == DISTILL_MARKER
    {
      files, marker := map[], DISTILL_MARKER;
    }

    /** A file that cannot be read counts as empty. */
    function FileText(name: string): Text
      reads this
    {
      if name in files then files[name] else []
    }

    method ReadBotMemory(botId: string) returns (parts: Parts)
      requires Valid()
      ensures parts == SplitMemory(FileText(botId), marker)
      ensures !Contains(parts.user, marker)
    {
      UserPartPlain(FileText(botId), marker);
      parts := SplitMemory(FileText(botId), marker);
    }

    method WriteBotMemory(botId: string, parts: Parts)
      requires Valid()
      modifies this
      ensures files == old(files)[botId := JoinMemory(parts.user, parts.distilled, marker)]
      ensures Same(SplitMemory(FileText(botId), marker), parts) <==> !Contains(parts.user, marker)
    {
      SplitOfJoin(parts.user, parts.distilled, marker);
      files := files[botId := JoinMemory(parts.user, parts.distilled, marker)];
    }

    method RememberInWorkspace(text: Text)
      modifies this
      ensures files == old(files)[WORKSPACE := WorkspaceFileWith(old(FileText(WORKSPACE)), text)]
    {
      var existing := TrimEnd(FileText(WORKSPACE));
      var noted := (if existing == [] then text else existing + [NEWLINE] + text) + [NEWLINE];
      files := files[WORKSPACE := CapMemory(noted, MEMORY_CHAR_CAP)];
    }

    method RememberForBot(botId: string, text: Text)
      requires Valid()
      modifies this
      ensures files == old(files)[botId := BotFileWith(old(FileText(botId)), text, marker)]
    {
      var parts := ReadBotMemory(botId);
      var user := TrimEnd(parts.user);
      var noted := if user == [] then text else user + [NEWLINE] + text;
      WriteBotMemory(botId, Parts(noted, parts.distilled));
    }

    /** One of the two scopes: the workspace, or else the bot's own file. */
    method RememberNote(botId: string, note: Text, workspace: bool)
      requires Valid()
      modifies this
      ensures var name := if workspace then WORKSPACE else botId;
              && FileText(name) == (if workspace then WorkspaceRemembered(old(FileText(name)), note)
                                    else Remembered(old(FileText(name)), note, marker))
              && forall other :: other != name ==>
                   (other in files <==> other in old(files)) && FileText(other) == old(FileText(other))
      ensures Trim(note) != [] && !workspace && !Contains(note, marker) ==>
                LineAdded(TrimEnd(old(SplitMemory(FileText(botId), marker).user)), Trim(note),
                          TrimEnd(SplitMemory(FileText(botId), marker).user))
      ensures Trim(note) != [] && workspace && |old(FileText(WORKSPACE))| + 1 + |Trim(note)| <= 6000 ==>
                LineAdded(TrimEnd(old(FileText(WORKSPACE))), Trim(note), TrimEnd(FileText(WORKSPACE)))
    {
      hide LineAdded, SplitMemory, Contains, WorkspaceFileWith, BotFileWith, Trim;
      var text := Trim(note);
      if text == [] { return; }
      if workspace {
        WorkspaceKeepsNote(FileText(WORKSPACE), note);
        RememberInWorkspace(text);
      } else {
        NoteAppended(FileText(botId), note, marker);
        RememberForBot(botId, text);
      }
    }
  }
}
