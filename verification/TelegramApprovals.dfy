/** Permission approvals answered from Telegram (server/telegram-approvals.ts and the approval
    part of server/telegram.ts).  Each step is what runs between two awaits. */
module TelegramApprovals {
  import opened Options

  const TELEGRAM_APPROVAL_TTL_MS := 15 * 60 * 1000

  datatype Terminal = Allow | Deny | Expired

  /** One approval request as it was sent out.  `serial` counts the records ever made, so that
      two records for one request can be told apart. */
  datatype Record = Record(
    serial: nat,
    request: string,
    bot: string,
    chat: string,
    user: string,
    allowId: string,
    denyId: string,
    message: Option<int>,
    expiresAt: int,
    settled: Option<Terminal>)

  /** What a button stands for. */
  datatype Button = Button(request: string, choice: Terminal)

  /** One call of `answerPermission`, with the tap that caused it. */
  datatype Answer = Answer(serial: nat, bot: string, request: string, choice: Terminal,
                           callback: string, user: string, chat: string, at: int)

  datatype Delivery = Delivery(request: string, bot: string, chat: string, user: string)

  datatype State = State(
    byRequest: map<string, Record>,
    byCallback: map<string, Button>,
    made: seq<Record>,
    answers: seq<Answer>)

  const EMPTY := State(map[], map[], [], [])

  datatype Event =
    | Deliver(delivery: Delivery, now: int, allowId: string, denyId: string)
    | Sent(request: string, message: int)
    | SendFailed(request: string)
    | Sweep(now: int)
    | Tap(callback: string, user: string, chat: string, now: int)
    | Desktop(request: string, terminal: Terminal)

  // ----- the steps -----

  function NewRecord(serial: nat, d: Delivery, now: int, allowId: string, denyId: string): Record {
    Record(serial, d.request, d.bot, d.chat, d.user, allowId, denyId, None, now + TELEGRAM_APPROVAL_TTL_MS, None)
  }

  function Delivered(s: State, d: Delivery, now: int, allowId: string, denyId: string): State {
    if d.request in s.byRequest then s
    else
      var record := NewRecord(|s.made|, d, now, allowId, denyId);
      s.(byRequest := s.byRequest[d.request := record],
         byCallback := s.byCallback[allowId := Button(d.request, Allow)][denyId := Button(d.request, Deny)],
         made := s.made + [record])
  }

  function Discarded(s: State, request: string): State {
    if request !in s.byRequest then s
    else
      var record := s.byRequest[request];
      s.(byRequest := s.byRequest - {request}, byCallback := s.byCallback - {record.allowId, record.denyId})
  }

  function Settled(s: State, request: string, terminal: Terminal): State
    requires request in s.byRequest
  {
    s.(byRequest := s.byRequest[request := s.byRequest[request].(settled := Some(terminal))])
  }

  predicate Due(record: Record, now: int) {
    record.settled == None && now >= record.expiresAt
  }

  function ExpireDue(rows: map<string, Record>, now: int): map<string, Record> {
    map r | r in rows :: if Due(rows[r], now) then rows[r].(settled := Some(Expired)) else rows[r]
  }

  /** The record a button belongs to. */
  predicate Known(s: State, callback: string) {
    callback in s.byCallback && s.byCallback[callback].request in s.byRequest
  }

  function Pressed(s: State, callback: string): Record
    requires Known(s, callback)
  {
    s.byRequest[s.byCallback[callback].request]
  }

  predicate Entitled(record: Record, user: string, chat: string) {
    user == record.user && chat == record.chat
  }

  /** A tap that decides. */
  predicate Decides(s: State, callback: string, user: string, chat: string, now: int) {
    Known(s, callback) && var record := Pressed(s, callback);
    Entitled(record, user, chat) && record.settled == None && now < record.expiresAt
  }

  function AnswerOf(s: State, callback: string, user: string, chat: string, now: int): Answer
    requires Known(s, callback)
  {
    var record := Pressed(s, callback);
    Answer(record.serial, record.bot, record.request, s.byCallback[callback].choice, callback, user, chat, now)
  }

  function Tapped(s: State, callback: string, user: string, chat: string, now: int): State {
    if Decides(s, callback, user, chat, now) then
      Settled(s, s.byCallback[callback].request, s.byCallback[callback].choice)
      .(answers := s.answers + [AnswerOf(s, callback, user, chat, now)])
    else if Known(s, callback) && Entitled(Pressed(s, callback), user, chat) && Due(Pressed(s, callback), now) then
      Settled(s, s.byCallback[callback].request, Expired)
    else s
  }

  function Step(s: State, e: Event): State {
    match e
    case Deliver(d, now, allowId, denyId) => Delivered(s, d, now, allowId, denyId)
    case Sent(request, message) =>
      if request in s.byRequest then
        s.(byRequest := s.byRequest[request := s.byRequest[request].(message := Some(message))])
      else s
    case SendFailed(request) => Discarded(s, request)
    case Sweep(now) => s.(byRequest := ExpireDue(s.byRequest, now))
    case Tap(callback, user, chat, now) => Tapped(s, callback, user, chat, now)
    case Desktop(request, terminal) =>
      if request in s.byRequest && s.byRequest[request].settled == None then Settled(s, request, terminal) else s
  }

  function Run(s: State, trace: seq<Event>): State
    decreases |trace|
  {
    if trace == [] then s else Run(Step(s, trace[0]), trace[1..])
  }

  // ----- what holds in every run -----

  /** The same approval, whatever has been told of it since. */
  predicate SameApproval(a: Record, b: Record) {
    a.(message := None, settled := None) == b.(message := None, settled := None)
  }

  predicate OnRecord(s: State, record: Record) {
    record.serial < |s.made| && SameApproval(record, s.made[record.serial])
  }

  function CallbackOf(record: Record, choice: Terminal): string {
    if choice == Allow then record.allowId else record.denyId
  }

  ghost predicate Recorded(s: State) {
    forall r :: r in s.byRequest ==> s.byRequest[r].request == r && OnRecord(s, s.byRequest[r])
  }

  /** A button belongs to a record on file, and is the one that was made for its choice. */
  ghost predicate Buttons(s: State) {
    forall c :: c in s.byCallback ==>
      && s.byCallback[c].choice != Expired && Known(s, c)
      && c == CallbackOf(Pressed(s, c), s.byCallback[c].choice)
  }

  /** An answer was given by the user and in the chat it was asked of, with the button of that
      choice, before the approval expired. */
  predicate Legitimate(made: seq<Record>, a: Answer) {
    && a.serial < |made| && a.choice != Expired
    && a.request == made[a.serial].request && a.bot == made[a.serial].bot
    && a.user == made[a.serial].user && a.chat == made[a.serial].chat
    && a.at < made[a.serial].expiresAt && a.callback == CallbackOf(made[a.serial], a.choice)
  }

  ghost predicate AllLegitimate(s: State) {
    forall i :: 0 <= i < |s.answers| ==> Legitimate(s.made, s.answers[i])
  }

  ghost predicate OncePerRecord(answers: seq<Answer>) {
    forall i, j :: 0 <= i < j < |answers| ==> answers[i].serial != answers[j].serial
  }

  /** An answered record stays settled with the answer's choice. */
  ghost predicate AnsweredStaysSettled(s: State) {
    forall i, r :: 0 <= i < |s.answers| && r in s.byRequest && s.byRequest[r].serial == s.answers[i].serial ==>
      s.byRequest[r].settled == Some(s.answers[i].choice)
  }

  ghost predicate Valid(s: State) {
    Recorded(s) && Buttons(s) && AllLegitimate(s) && OncePerRecord(s.answers) && AnsweredStaysSettled(s)
  }

  predicate NeverUsed(s: State, id: string) {
    forall i :: 0 <= i < |s.made| ==> s.made[i].allowId != id && s.made[i].denyId != id
  }

  /** Callback ids are random: no two buttons ever share one. */
  predicate Random(s: State, e: Event) {
    e.Deliver? ==> e.allowId != e.denyId && NeverUsed(s, e.allowId) && NeverUsed(s, e.denyId)
  }

  ghost predicate AllRandom(s: State, trace: seq<Event>)
    decreases |trace|
  {
    trace == [] || (Random(s, trace[0]) && AllRandom(Step(s, trace[0]), trace[1..]))
  }

  /** The same records on file, told more of, with nothing unsettled or settled otherwise. */
  ghost predicate ToldMore(before: map<string, Record>, after: map<string, Record>) {
    && after.Keys == before.Keys
    && forall r :: r in before ==>
         SameApproval(before[r], after[r]) && (before[r].settled.Some? ==> after[r].settled == before[r].settled)
  }

  lemma MoreKeepsValid(s: State, rows: map<string, Record>)
    requires Valid(s) && ToldMore(s.byRequest, rows)
    ensures Valid(s.(byRequest := rows))
  {
  }

  lemma FreshIds(s: State, e: Event)
    requires Recorded(s) && Buttons(s) && e.Deliver? && Random(s, e)
    ensures e.allowId !in s.byCallback && e.denyId !in s.byCallback
  {
    forall c | c in s.byCallback ensures c != e.allowId && c != e.denyId {
      assert OnRecord(s, Pressed(s, c));
    }
  }

  lemma DeliverKeepsRecorded(s: State, e: Event)
    requires Recorded(s) && e.Deliver?
    ensures Recorded(Step(s, e))
  {
  }

  lemma FreshButtons(s: State, e: Event)
    requires Recorded(s) && Buttons(s) && e.Deliver? && Random(s, e)
    ensures Recorded(Step(s, e)) && Buttons(Step(s, e))
  {
    FreshIds(s, e);
    DeliverKeepsRecorded(s, e);
    hide Recorded, OnRecord, SameApproval, NeverUsed;
  }

  lemma DeliverKeepsValid(s: State, e: Event)
    requires Valid(s) && e.Deliver? && Random(s, e)
    ensures Valid(Step(s, e))
  {
    FreshButtons(s, e);
  }

  predicate Deciding(s: State, e: Event) {
    e.Tap? && Decides(s, e.callback, e.user, e.chat, e.now)
  }

  lemma SweepTellsMore(rows: map<string, Record>, now: int)
    ensures ToldMore(rows, ExpireDue(rows, now))
  {
  }

  lemma OthersTellMore(s: State, e: Event)
    requires !e.Deliver? && !e.SendFailed? && !Deciding(s, e)
    ensures ToldMore(s.byRequest, Step(s, e).byRequest) && Step(s, e) == s.(byRequest := Step(s, e).byRequest)
  {
    if e.Sweep? { SweepTellsMore(s.byRequest, e.now); }
  }

  lemma AnswerLogged(s: State, r: string, a: Answer)
    requires Valid(s) && Legitimate(s.made, a) && r in s.byRequest
    requires s.byRequest[r].serial == a.serial && s.byRequest[r].settled == Some(a.choice)
    requires forall i :: 0 <= i < |s.answers| ==> s.answers[i].serial != a.serial
    ensures Valid(s.(answers := s.answers + [a]))
  {
  }

  lemma DecisionKeepsValid(s: State, callback: string, user: string, chat: string, now: int)
    requires Valid(s) && Decides(s, callback, user, chat, now)
    ensures Valid(Tapped(s, callback, user, chat, now))
  {
    var record, choice := Pressed(s, callback), s.byCallback[callback].choice;
    var settled := Settled(s, record.request, choice);
    var a := AnswerOf(s, callback, user, chat, now);
    assert record.request == s.byCallback[callback].request;
    MoreKeepsValid(s, settled.byRequest);
    assert OnRecord(s, record) && Legitimate(s.made, a);
    AnswerLogged(settled, record.request, a);
    assert Tapped(s, callback, user, chat, now) == settled.(answers := s.answers + [a]);
  }

  lemma StepKeepsValid(s: State, e: Event)
    requires Valid(s) && Random(s, e)
    ensures Valid(Step(s, e))
  {
    if e.Deliver? {
      DeliverKeepsValid(s, e);
    } else if Deciding(s, e) {
      DecisionKeepsValid(s, e.callback, e.user, e.chat, e.now);
    } else if !e.SendFailed? {
      OthersTellMore(s, e);
      MoreKeepsValid(s, Step(s, e).byRequest);
    }
  }

  /** Over any interleaving: at most one answer per approval, by the bound user in the bound
      chat, before expiry, and equal to what the record stays settled with. */
  lemma {:induction false} RunKeepsValid(s: State, trace: seq<Event>)
    requires Valid(s) && AllRandom(s, trace)
    ensures Valid(Run(s, trace))
    decreases |trace|
  {
    if trace != [] {
      StepKeepsValid(s, trace[0]);
      RunKeepsValid(Step(s, trace[0]), trace[1..]);
    }
  }

  // ----- settled for ever -----

  /** The record made with this serial, if the store still holds it, is settled so. */
  ghost predicate SettledAs(s: State, serial: nat, terminal: Terminal) {
    && serial < |s.made|
    && forall r :: r in s.byRequest && s.byRequest[r].serial == serial ==> s.byRequest[r].settled == Some(terminal)
  }

  /** Answers may have been added, but none for the record. */
  predicate NoneFor(before: seq<Answer>, after: seq<Answer>, serial: nat) {
    before <= after && forall i :: |before| <= i < |after| ==> after[i].serial != serial
  }

  lemma StepKeepsSettled(s: State, e: Event, serial: nat, terminal: Terminal)
    requires Valid(s) && SettledAs(s, serial, terminal)
    ensures SettledAs(Step(s, e), serial, terminal)
    ensures NoneFor(s.answers, Step(s, e).answers, serial)
  {
    if Deciding(s, e) {
      var a := AnswerOf(s, e.callback, e.user, e.chat, e.now);
      assert s.answers <= s.answers + [a];
    } else if !e.Deliver? && !e.SendFailed? {
      OthersTellMore(s, e);
    }
  }

  /** However a record was settled, by a tap, at the desktop or by expiring, it stays so and
      nothing answers it any more. */
  lemma {:induction false} RunKeepsSettled(s: State, trace: seq<Event>, serial: nat, terminal: Terminal)
    requires Valid(s) && AllRandom(s, trace) && SettledAs(s, serial, terminal)
    ensures SettledAs(Run(s, trace), serial, terminal)
    ensures NoneFor(s.answers, Run(s, trace).answers, serial)
    decreases |trace|
  {
    if trace != [] {
      StepKeepsValid(s, trace[0]);
      StepKeepsSettled(s, trace[0], serial, terminal);
      RunKeepsSettled(Step(s, trace[0]), trace[1..], serial, terminal);
    }
  }

  /** A sweep expires exactly the open records whose time has come, and changes nothing else. */
  lemma SweepExpiresExactlyTheDue(s: State, now: int, r: string)
    requires r in s.byRequest
    ensures var was, after := s.byRequest[r], Step(s, Sweep(now)).byRequest;
            && r in after
            && after[r] == if was.settled == None && was.expiresAt <= now then was.(settled := Some(Expired)) else was
    ensures Step(s, Sweep(now)) == s.(byRequest := Step(s, Sweep(now)).byRequest)
  {
  }

  // ----- an approval waits for its user -----

  /** The record is open, with both its buttons. */
  predicate Waits(s: State, record: Record) {
    && record.request in s.byRequest && record.settled == None
    && s.byRequest[record.request].(message := None) == record.(message := None)
    && record.allowId in s.byCallback && s.byCallback[record.allowId] == Button(record.request, Allow)
    && record.denyId in s.byCallback && s.byCallback[record.denyId] == Button(record.request, Deny)
  }

  /** Every record on file has its own two buttons. */
  ghost predicate Paired(s: State) {
    forall r :: r in s.byRequest ==>
      && s.byRequest[r].allowId in s.byCallback && s.byCallback[s.byRequest[r].allowId] == Button(r, Allow)
      && s.byRequest[r].denyId in s.byCallback && s.byCallback[s.byRequest[r].denyId] == Button(r, Deny)
  }

  /** What ends the waiting: its user's own tap on one of its buttons, a decision at the desktop, a
      reported failure of its sending, or a sweep at or past its expiry. */
  predicate Touches(e: Event, record: Record) {
    match e
    case Deliver(_, _, _, _) => false
    case Sent(_, _) => false
    case SendFailed(request) => request == record.request
    case Sweep(now) => record.expiresAt <= now
    case Tap(callback, user, chat, _) =>
      (callback == record.allowId || callback == record.denyId) && user == record.user && chat == record.chat
    case Desktop(request, _) => request == record.request
  }

  lemma MoreKeepsPaired(s: State, after: State)
    requires Paired(s) && ToldMore(s.byRequest, after.byRequest) && after.byCallback == s.byCallback
    ensures Paired(after)
  {
  }

  lemma DeliverKeepsPaired(s: State, e: Event)
    requires Recorded(s) && Buttons(s) && Paired(s) && e.Deliver? && Random(s, e)
    ensures Paired(Step(s, e))
  {
    FreshIds(s, e);
    hide Recorded, Buttons, Paired;
    var d := e.delivery;
    if d.request !in s.byRequest { NewPair(s, NewRecord(|s.made|, d, e.now, e.allowId, e.denyId), Step(s, e)); }
  }

  lemma NewPair(s: State, record: Record, after: State)
    requires Paired(s) && record.request !in s.byRequest && record.allowId != record.denyId
    requires record.allowId !in s.byCallback && record.denyId !in s.byCallback
    requires after.byRequest == s.byRequest[record.request := record]
    requires after.byCallback == s.byCallback[record.allowId := Button(record.request, Allow)]
                                             [record.denyId := Button(record.request, Deny)]
    ensures Paired(after)
  {
  }

  lemma DropKeepsPaired(s: State, request: string)
    requires Paired(s)
    ensures Paired(Discarded(s, request))
  {
  }

  lemma DecisionTellsMore(s: State, e: Event)
    requires Deciding(s, e)
    ensures ToldMore(s.byRequest, Step(s, e).byRequest) && Step(s, e).byCallback == s.byCallback
  {
  }

  lemma StepKeepsPaired(s: State, e: Event)
    requires Valid(s) && Paired(s) && Random(s, e)
    ensures Paired(Step(s, e))
  {
    if e.Deliver? {
      DeliverKeepsPaired(s, e);
    } else if e.SendFailed? {
      DropKeepsPaired(s, e.request);
    } else {
      hide Paired, Random, ToldMore, Decides, Delivered, Tapped;
      if Deciding(s, e) { DecisionTellsMore(s, e); } else { OthersTellMore(s, e); }
      MoreKeepsPaired(s, Step(s, e));
    }
  }

  lemma StepKeepsWaiting(s: State, e: Event, record: Record)
    requires Valid(s) && Paired(s) && Random(s, e) && Waits(s, record) && !Touches(e, record)
    ensures Waits(Step(s, e), record)
  {
    match e
    case Deliver(_, _, _, _) =>
      FreshIds(s, e);
      hide Recorded, Buttons, Random, Paired;
    case SendFailed(request) => DropElsewhere(s, request, record);
    case Tap(callback, user, chat, now) => TapElsewhere(s, callback, user, chat, now, record);
    case _ =>
  }

  lemma DropElsewhere(s: State, request: string, record: Record)
    requires Paired(s) && Waits(s, record) && request != record.request
    ensures Waits(Discarded(s, request), record)
  {
  }

  lemma TapElsewhere(s: State, callback: string, user: string, chat: string, now: int, record: Record)
    requires Recorded(s) && Buttons(s) && Waits(s, record) && !Touches(Tap(callback, user, chat, now), record)
    ensures Waits(Tapped(s, callback, user, chat, now), record)
  {
    if Known(s, callback) {
      assert callback == CallbackOf(Pressed(s, callback), s.byCallback[callback].choice);
      assert Pressed(s, callback).request == s.byCallback[callback].request;
    }
    hide Recorded, Buttons;
  }

  predicate Untouched(trace: seq<Event>, record: Record) {
    forall i :: 0 <= i < |trace| ==> !Touches(trace[i], record)
  }

  lemma {:induction false} RunKeepsWaiting(s: State, trace: seq<Event>, record: Record)
    requires Valid(s) && Paired(s) && AllRandom(s, trace) && Waits(s, record) && Untouched(trace, record)
    ensures Waits(Run(s, trace), record)
    decreases |trace|
  {
    if trace != [] {
      StepKeepsValid(s, trace[0]);
      StepKeepsPaired(s, trace[0]);
      StepKeepsWaiting(s, trace[0], record);
      assert forall i :: 0 <= i < |trace| - 1 ==> trace[1..][i] == trace[i + 1];
      RunKeepsWaiting(Step(s, trace[0]), trace[1..], record);
    }
  }

  /** Whatever others do in the meantime, a delivered approval can be answered by its user, in its
      chat, with either button, for a quarter of an hour and no longer. */
  lemma AnswerableUntilExpiry(s: State, d: Delivery, now: int, allowId: string, denyId: string, trace: seq<Event>,
                              choice: Terminal, at: int)
    requires Valid(s) && Paired(s) && d.request !in s.byRequest && choice != Expired
    requires Random(s, Deliver(d, now, allowId, denyId))
    requires AllRandom(Step(s, Deliver(d, now, allowId, denyId)), trace)
    requires Untouched(trace, Record(|s.made|, d.request, d.bot, d.chat, d.user, allowId, denyId, None,
                                     now + 900_000, None))
    ensures var mid := Run(Step(s, Deliver(d, now, allowId, denyId)), trace);
            var callback := if choice == Allow then allowId else denyId;
            var after := Step(mid, Tap(callback, d.user, d.chat, at));
            && d.request in after.byRequest
            && if at < now + 900_000
               then && after.answers
                       == mid.answers + [Answer(|s.made|, d.bot, d.request, choice, callback, d.user, d.chat, at)]
                    && after.byRequest[d.request].settled == Some(choice)
               else after.answers == mid.answers && after.byRequest[d.request].settled == Some(Expired)
  {
    var deliver := Deliver(d, now, allowId, denyId);
    var record := Record(|s.made|, d.request, d.bot, d.chat, d.user, allowId, denyId, None, now + 900_000, None);
    StepKeepsValid(s, deliver);
    StepKeepsPaired(s, deliver);
    assert Waits(Step(s, deliver), record);
    RunKeepsWaiting(Step(s, deliver), trace, record);
    TapAnswers(Run(Step(s, deliver), trace), record, choice, at);
  }

  lemma TapAnswers(s: State, record: Record, choice: Terminal, at: int)
    requires Waits(s, record) && choice != Expired
    ensures var callback := if choice == Allow then record.allowId else record.denyId;
            var after := Step(s, Tap(callback, record.user, record.chat, at));
            && record.request in after.byRequest
            && if at < record.expiresAt
               then && after.answers == s.answers + [Answer(record.serial, record.bot, record.request, choice, callback,
                                                            record.user, record.chat, at)]
                    && after.byRequest[record.request].settled == Some(choice)
               else after.answers == s.answers && after.byRequest[record.request].settled == Some(Expired)
  {
  }

  /** In every run each record on file keeps both its buttons. */
  lemma {:induction false} RunKeepsPaired(s: State, trace: seq<Event>)
    requires Valid(s) && Paired(s) && AllRandom(s, trace)
    ensures Paired(Run(s, trace))
    decreases |trace|
  {
    if trace != [] {
      StepKeepsValid(s, trace[0]);
      StepKeepsPaired(s, trace[0]);
      RunKeepsPaired(Step(s, trace[0]), trace[1..]);
    }
  }

  // ----- one request, several records -----

  /** Every answer of the request was given to the record on file. */
  ghost predicate AnswersOnFile(s: State, request: string) {
    forall i :: 0 <= i < |s.answers| && s.answers[i].request == request ==>
      request in s.byRequest && s.answers[i].serial == s.byRequest[request].serial
  }

  /** The record on file has been answered. */
  predicate Answered(s: State, request: string) {
    request in s.byRequest && exists i :: 0 <= i < |s.answers| && s.answers[i].serial == s.byRequest[request].serial
  }

  /** A reported send failure that discards an answered record. */
  predicate DropsAnswered(s: State, e: Event, request: string) {
    e == SendFailed(request) && Answered(s, request)
  }

  /** No step of the run does that to the request. */
  predicate NeverDropped(s: State, trace: seq<Event>, request: string)
    decreases |trace|
  {
    trace == [] || (!DropsAnswered(s, trace[0], request) && NeverDropped(Step(s, trace[0]), trace[1..], request))
  }

  predicate AnsweredTwice(answers: seq<Answer>, request: string) {
    exists i, j :: 0 <= i < j < |answers| && answers[i].request == request == answers[j].request
  }

  lemma DecisionKeepsOnFile(s: State, e: Event, request: string)
    requires Recorded(s) && AnswersOnFile(s, request) && Deciding(s, e)
    ensures AnswersOnFile(Step(s, e), request)
  {
    var record := Pressed(s, e.callback);
    var next := Step(s, e);
    assert record.request == s.byCallback[e.callback].request;
    assert next.answers == s.answers + [AnswerOf(s, e.callback, e.user, e.chat, e.now)];
    assert next.byRequest.Keys == s.byRequest.Keys && next.byRequest[record.request].serial == record.serial;
  }

  lemma StepKeepsOnFile(s: State, e: Event, request: string)
    requires Valid(s) && AnswersOnFile(s, request) && !DropsAnswered(s, e, request)
    ensures AnswersOnFile(Step(s, e), request)
  {
    if Deciding(s, e) {
      DecisionKeepsOnFile(s, e, request);
    } else if !e.Deliver? && !e.SendFailed? {
      OthersTellMore(s, e);
    }
  }

  lemma {:induction false} RunKeepsOnFile(s: State, trace: seq<Event>, request: string)
    requires Valid(s) && AllRandom(s, trace) && AnswersOnFile(s, request) && NeverDropped(s, trace, request)
    ensures Valid(Run(s, trace)) && AnswersOnFile(Run(s, trace), request)
    decreases |trace|
  {
    if trace != [] {
      StepKeepsValid(s, trace[0]);
      StepKeepsOnFile(s, trace[0], request);
      RunKeepsOnFile(Step(s, trace[0]), trace[1..], request);
    }
  }

  lemma OnFileOnce(s: State, request: string)
    requires Valid(s) && AnswersOnFile(s, request)
    ensures !AnsweredTwice(s.answers, request)
  {
  }

  /** As long as no send failure is reported of a record already answered, a request is
      answered at most once, however often it is sent. */
  lemma OncePerRequest(trace: seq<Event>, request: string)
    requires AllRandom(EMPTY, trace) && NeverDropped(EMPTY, trace, request)
    ensures !AnsweredTwice(Run(EMPTY, trace).answers, request)
  {
    RunKeepsOnFile(EMPTY, trace, request);
    OnFileOnce(Run(EMPTY, trace), request);
  }

  /** A request not on file is delivered and its button tapped: one more answer. */
  lemma DeliveryAnswered(s: State, d: Delivery, now: int, allowId: string, denyId: string, callback: string, at: int)
    requires d.request !in s.byRequest && allowId != denyId && (callback == allowId || callback == denyId)
    requires at < now + 900_000
    ensures var choice := if callback == allowId then Allow else Deny;
            Step(Step(s, Deliver(d, now, allowId, denyId)), Tap(callback, d.user, d.chat, at)).answers
            == s.answers + [Answer(|s.made|, d.bot, d.request, choice, callback, d.user, d.chat, at)]
  {
  }

  /** Some way on, in which no answered record of the request is dropped, has it answered twice. */
  ghost predicate Repeatable(s: State, request: string) {
    exists more :: AllRandom(s, more) && NeverDropped(s, more, request) && AnsweredTwice(Run(s, more).answers, request)
  }

  /** The same as a run. */
  lemma DeliveryAnsweredRun(s: State, d: Delivery, now: int, allowId: string, denyId: string)
    requires d.request !in s.byRequest && Random(s, Deliver(d, now, allowId, denyId))
    ensures var more := [Deliver(d, now, allowId, denyId), Tap(allowId, d.user, d.chat, now)];
            && AllRandom(s, more) && NeverDropped(s, more, d.request)
            && Run(s, more).answers
               == s.answers + [Answer(|s.made|, d.bot, d.request, Allow, allowId, d.user, d.chat, now)]
  {
    var deliver, tap := Deliver(d, now, allowId, denyId), Tap(allowId, d.user, d.chat, now);
    var more := [deliver, tap];
    DeliveryAnswered(s, d, now, allowId, denyId, allowId, now);
    assert more[1..] == [tap] && [tap][1..] == [];
    RunUnfolds(s, more);
    RunUnfolds(Step(s, deliver), [tap]);
    assert NeverDropped(Step(s, deliver), [tap], d.request);
  }

  lemma DroppedIsRepeatable(s: State, e: Event, d: Delivery, now: int, allowId: string, denyId: string)
    requires Valid(s) && DropsAnswered(s, e, d.request) && Random(s, Deliver(d, now, allowId, denyId))
    ensures Repeatable(Step(s, e), d.request)
  {
    var i :| 0 <= i < |s.answers| && s.answers[i].serial == s.byRequest[d.request].serial;
    assert Legitimate(s.made, s.answers[i]) && OnRecord(s, s.byRequest[d.request]);
    var next := Step(s, e);
    var more := [Deliver(d, now, allowId, denyId), Tap(allowId, d.user, d.chat, now)];
    DeliveryAnsweredRun(next, d, now, allowId, denyId);
    var after := Run(next, more).answers;
    assert after[i] == s.answers[i] && after[|s.answers|].request == d.request;
    assert AnsweredTwice(after, d.request);
  }

  /** The exact condition: while every answer of a request belongs to the record on file, a step
      makes a second answer possible exactly when it drops that record after it was answered.
      The two ids are any that no button has had. */
  lemma RepeatableExactlyWhenDropped(s: State, e: Event, d: Delivery, now: int, allowId: string, denyId: string)
    requires Valid(s) && AnswersOnFile(s, d.request) && Random(s, e)
    requires Random(s, Deliver(d, now, allowId, denyId))
    ensures Repeatable(Step(s, e), d.request) <==> DropsAnswered(s, e, d.request)
  {
    var next := Step(s, e);
    if DropsAnswered(s, e, d.request) {
      DroppedIsRepeatable(s, e, d, now, allowId, denyId);
    } else {
      StepKeepsValid(s, e);
      StepKeepsOnFile(s, e, d.request);
      forall more | AllRandom(next, more) && NeverDropped(next, more, d.request)
        ensures !AnsweredTwice(Run(next, more).answers, d.request)
      {
        RunKeepsOnFile(next, more, d.request);
        OnFileOnce(Run(next, more), d.request);
      }
    }
  }

  /** A message that arrived but was reported as failed: its button still answers the request,
      the record is then dropped, and a second delivery is answered again. */
  lemma FailedSendAnsweredTwice()
    ensures var d := Delivery("r", "b", "c", "u");
            var trace := [Deliver(d, 0, "a", "n"), Tap("a", "u", "c", 1), SendFailed("r"),
                          Deliver(d, 2, "x", "y"), Tap("y", "u", "c", 3)];
            && AllRandom(EMPTY, trace)
            && var answers := Run(EMPTY, trace).answers;
               |answers| == 2 && answers[0].request == answers[1].request && answers[0].choice != answers[1].choice
  {
    hide Tapped, Delivered, Discarded;
    var d := Delivery("r", "b", "c", "u");
    var s3 := FirstAnswerDropped(d);
    var t4 := [Tap("y", "u", "c", 3)];
    var t3 := [Deliver(d, 2, "x", "y")] + t4;
    var t2 := [SendFailed("r")] + t3;
    var t1 := [Tap("a", "u", "c", 1)] + t2;
    var t0 := [Deliver(d, 0, "a", "n")] + t1;
    SecondAnswer(s3, d, t4);
    assert t4[1..] == [] && t3[1..] == t4 && t2[1..] == t3 && t1[1..] == t2 && t0[1..] == t1;
    var s1 := Step(EMPTY, t0[0]);
    var s2 := Step(s1, t1[0]);
    assert s3 == Step(s2, t2[0]);
    assert Random(EMPTY, t0[0]) && Random(s1, t1[0]) && Random(s2, t2[0]);
    hide Step, Random, Run, AllRandom;
    RunUnfolds(s3, t3);
    RunUnfolds(s2, t2);
    RunUnfolds(s1, t1);
    RunUnfolds(EMPTY, t0);
    assert t0 == [Deliver(d, 0, "a", "n"), Tap("a", "u", "c", 1), SendFailed("r"),
                  Deliver(d, 2, "x", "y"), Tap("y", "u", "c", 3)];
  }

  lemma RunUnfolds(s: State, trace: seq<Event>)
    requires trace != []
    ensures Run(s, trace) == Run(Step(s, trace[0]), trace[1..])
    ensures AllRandom(s, trace) <==> Random(s, trace[0]) && AllRandom(Step(s, trace[0]), trace[1..])
  {
  }

  lemma FirstAnswerDropped(d: Delivery) returns (s: State)
    requires d == Delivery("r", "b", "c", "u")
    ensures s == Step(Step(Step(EMPTY, Deliver(d, 0, "a", "n")), Tap("a", "u", "c", 1)), SendFailed("r"))
    ensures s.byRequest == map[] && s.made == [NewRecord(0, d, 0, "a", "n")]
    ensures |s.answers| == 1 && s.answers[0].request == "r" && s.answers[0].choice == Allow
  {
    var s1 := Step(EMPTY, Deliver(d, 0, "a", "n"));
    assert s1.made == [NewRecord(0, d, 0, "a", "n")] && s1.byRequest.Keys == {"r"};
    s := Step(Step(s1, Tap("a", "u", "c", 1)), SendFailed("r"));
  }

  lemma SecondAnswer(s: State, d: Delivery, tail: seq<Event>)
    requires s.byRequest == map[] && |s.made| == 1
    requires d == Delivery("r", "b", "c", "u") && tail == [Tap("y", "u", "c", 3)]
    requires s.made[0].allowId == "a" && s.made[0].denyId == "n"
    ensures Random(s, Deliver(d, 2, "x", "y"))
    ensures var s4 := Step(s, Deliver(d, 2, "x", "y"));
            && AllRandom(s4, tail) && |Run(s4, tail).answers| == |s.answers| + 1
            && s.answers <= Run(s4, tail).answers
            && Run(s4, tail).answers[|s.answers|].request == "r" && Run(s4, tail).answers[|s.answers|].choice == Deny
  {
    var s4 := Step(s, Deliver(d, 2, "x", "y"));
    var s5 := Step(s4, tail[0]);
    assert tail[1..] == [] && Run(s5, []) == s5 && Run(s4, tail) == s5;
    assert AllRandom(s5, []) && AllRandom(s4, tail);
  }

  // ----- the store and the service -----

  class Approvals {
    var byRequest: map<string, Record>
    var byCallback: map<string, Button>
    var answers: seq<Answer>
    var serial: nat
    ghost var made: seq<Record>

    ghost function Model(): State
      reads this
    {
      State(byRequest, byCallback, made, answers)
    }

    ghost predicate Counted()
      reads this
    {
      serial == |made|
    }

    constructor ()
      ensures Model() == EMPTY && Counted() && Valid(Model())
    {
      byRequest, byCallback, answers, serial, made := map[], map[], [], 0, [];
    }

    method Create(d: Delivery, now: int, allowId: string, denyId: string) returns (record: Record)
      requires Counted()
      modifies this
      ensures Counted() && Model() == Step(old(Model()), Deliver(d, now, allowId, denyId))
      ensures d.request in byRequest && record == byRequest[d.request]
    {
      if d.request in byRequest { return byRequest[d.request]; }
      record := NewRecord(serial, d, now, allowId, denyId);
      byRequest := byRequest[d.request := record];
      byCallback := byCallback[allowId := Button(d.request, Allow)];
      byCallback := byCallback[denyId := Button(d.request, Deny)];
      serial, made := serial + 1, made + [record];
    }

    method AttachMessage(request: string, message: int)
      requires Counted()
      modifies this
      ensures Counted() && Model() == Step(old(Model()), Sent(request, message))
    {
      if request in byRequest {
        byRequest := byRequest[request := byRequest[request].(message := Some(message))];
      }
    }

    method Discard(request: string)
      requires Counted()
      modifies this
      ensures Counted() && Model() == Step(old(Model()), SendFailed(request))
    {
      if request !in byRequest { return; }
      var record := byRequest[request];
      byCallback := byCallback - {record.allowId};
      byCallback := byCallback - {record.denyId};
      assert byCallback == old(byCallback) - {record.allowId, record.denyId};
      byRequest := byRequest - {request};
    }

    /** The record as it is afterwards; one already settled is left alone. */
    method Settle(request: string, terminal: Terminal) returns (record: Option<Record>)
      requires Counted()
      modifies this
      ensures Counted() && Model() == Step(old(Model()), Desktop(request, terminal))
      ensures record == if request in byRequest then Some(byRequest[request]) else None
    {
      if request !in byRequest { return None; }
      if byRequest[request].settled == None {
        byRequest := byRequest[request := byRequest[request].(settled := Some(terminal))];
      }
      return Some(byRequest[request]);
    }

    /** One record after another; answers which requests it expired. */
    method ExpireDueRecords(now: int) returns (expired: set<string>)
      requires Counted()
      modifies this`byRequest
      ensures Counted() && Model() == Step(old(Model()), Sweep(now))
      ensures expired == set r | r in old(byRequest) && Due(old(byRequest)[r], now)
    {
      expired := {};
      var todo := byRequest.Keys;
      while todo != {}
        invariant todo <= byRequest.Keys == old(byRequest).Keys
        invariant forall r :: r in byRequest ==>
                    byRequest[r] == if r in todo then old(byRequest)[r] else ExpireDue(old(byRequest), now)[r]
        invariant expired == set r | r in old(byRequest) && r !in todo && Due(old(byRequest)[r], now)
        decreases todo
      {
        var r :| r in todo;
        if byRequest[r].settled == None && now >= byRequest[r].expiresAt {
          byRequest := byRequest[r := byRequest[r].(settled := Some(Expired))];
          expired := expired + {r};
        }
        todo := todo - {r};
      }
      assert byRequest == ExpireDue(old(byRequest), now);
    }

    /** A tap, after the sweep that comes first.  The answer tells whether it decided. */
    method HandleCallback(callback: string, user: string, chat: string, now: int) returns (decided: bool)
      requires Counted() && Recorded(Model())
      modifies this
      ensures Counted() && Model() == Step(old(Model()), Tap(callback, user, chat, now))
      ensures decided <==> old(Decides(Model(), callback, user, chat, now))
      ensures answers == old(answers) + if decided then [old(AnswerOf(Model(), callback, user, chat, now))] else []
    {
      if callback !in byCallback { return false; }
      var mapped := byCallback[callback];
      if mapped.request !in byRequest { return false; }
      var record := byRequest[mapped.request];
      if user != record.user || chat != record.chat { return false; }
      if record.settled != None { return false; }
      if now >= record.expiresAt {
        var _ := Settle(record.request, Expired);
        return false;
      }
      var settled := Settle(record.request, mapped.choice);
      if settled == None || settled.value.settled != Some(mapped.choice) { return false; }
      var answer := Answer(record.serial, record.bot, record.request, mapped.choice, callback, user, chat, now);
      answers := answers + [answer];
      return true;
    }
  }
}
