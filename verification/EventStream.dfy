/**
 One server-sent-events connection: a hand-off from pages of durable history to a
 bounded, lossy live broadcast, interleaved in any way with other tasks that commit
 events, broadcast them, or announce shutdown.
 */
module EventStream {
  import opened Options
  import opened EventLog

  datatype Query = Query(line: Option<string>, after: Option<int>)

  // `sent` lists the broadcasts made since this connection subscribed, `unsent` the
  // committed events whose broadcast is still to come. `base` counts the log entries
  // that had already been broadcast at subscription.
  datatype Bus = Bus(log: seq<Event>, base: nat, sent: seq<Event>, unsent: seq<Event>)

  // Opening: subscribed, first page not read yet.  Draining: top of the loop.
  // Receiving: parked on the receiver.  Replaying: told about lag, history not read yet.
  datatype Phase = Opening | Draining | Receiving | Replaying | Ended

  datatype State = State(
    bus: Bus,
    phase: Phase,
    pending: seq<Event>,
    next: nat,           // the receiver's position in `bus.sent`
    lastId: int,
    replaying: bool,
    emitted: seq<Event>, // everything handed to the client so far
    shutdown: bool)

  datatype Action =
    | Commit(event: Event)
    | Send(index: nat)
    | Shutdown
    | Turn(readFails: bool)

  // ---- The connection ----------------------------------------------------------

  function StartId(q: Query): int {
    match q.after
    case Some(id) => if id < 0 then 0 else id
    case None => 0
  }

  function Subscribe(q: Query, bus: Bus): State {
    State(bus.(sent := []), Opening, [], 0, StartId(q), q.after.Some?, [], false)
  }

  function Open(q: Query, s: State, readFails: bool): State {
    var page :=
      if readFails then []
      else if q.after.Some? then HistoryAfter(s.bus.log, q.line, s.lastId)
      else Recent(s.bus.log, q.line);
    s.(phase := Draining, pending := page)
  }

  function Emit(s: State, e: Event): State {
    s.(phase := Draining, lastId := e.id, emitted := s.emitted + [e])
  }

  function Drain(q: Query, s: State, readFails: bool): State {
    if s.pending == [] && s.shutdown then s.(phase := Ended)
    else if s.pending != [] then
      var e, rest := s.pending[0], s.(pending := s.pending[1..]);
      if e.id <= s.lastId then rest else Emit(rest, e)
    else if s.replaying then
      if readFails then s.(replaying := false, phase := Receiving)
      else
        var page := HistoryAfter(s.bus.log, q.line, s.lastId);
        if page != [] then s.(pending := page) else s.(replaying := false, phase := Receiving)
    else s.(phase := Receiving)
  }

  function Receive(q: Query, s: State): State {
    if s.shutdown then s.(phase := Ended)
    else if s.next >= |s.bus.sent| then s
    else if |s.bus.sent| - s.next > CHANNEL_CAPACITY then
      s.(phase := Replaying, next := |s.bus.sent| - CHANNEL_CAPACITY)
    else
      var e, rest := s.bus.sent[s.next], s.(phase := Draining, next := s.next + 1);
      if e.id <= s.lastId || !Matches(e, q.line) then rest else Emit(rest, e)
  }

  function Replay(q: Query, s: State, readFails: bool): State {
    if readFails then s.(phase := Draining)
    else s.(phase := Draining, replaying := true,
            pending := s.pending + HistoryAfter(s.bus.log, q.line, s.lastId))
  }

  function TurnOf(q: Query, s: State, readFails: bool): State {
    match s.phase
    case Opening => Open(q, s, readFails)
    case Draining => Drain(q, s, readFails)
    case Receiving => Receive(q, s)
    case Replaying => Replay(q, s, readFails)
    case Ended => s
  }

  // ---- Everything else that can happen ------------------------------------------

  // The outbox assigns ids in ascending order and commits one transaction at a time.
  predicate CanCommit(bus: Bus, e: Event) {
    0 < e.id && (bus.log == [] || bus.log[|bus.log| - 1].id < e.id)
  }

  function Step(q: Query, s: State, a: Action): State {
    match a
    case Commit(e) =>
      if CanCommit(s.bus, e) then s.(bus := s.bus.(log := s.bus.log + [e], unsent := s.bus.unsent + [e])) else s
    case Send(i) =>
      if i < |s.bus.unsent| then
        s.(bus := s.bus.(sent := s.bus.sent + [s.bus.unsent[i]],
                         unsent := s.bus.unsent[..i] + s.bus.unsent[i + 1..]))
      else s
    case Shutdown => s.(shutdown := true)
    case Turn(fails) => TurnOf(q, s, fails)
  }

  function Run(q: Query, s: State, script: seq<Action>): State
    decreases |script|
  {
    if script == [] then s else Run(q, Step(q, s, script[0]), script[1..])
  }

  // ---- What the client is promised ----------------------------------------------

  // With a starting id: what was emitted, followed by what is still above `lastId`,
  // is the line's whole history above the start.  Without one: the same, from the
  // first emitted event on.
  ghost predicate GapFree(q: Query, s: State) {
    if q.after.Some? then
      After(s.bus.log, q.line, StartId(q)) == s.emitted + After(s.bus.log, q.line, s.lastId)
    else if s.emitted == [] then true
    else
      && s.emitted[0] in s.bus.log && Matches(s.emitted[0], q.line)
      && After(s.bus.log, q.line, s.emitted[0].id) == s.emitted[1..] + After(s.bus.log, q.line, s.lastId)
  }

  // The client has a position in the log, so losing anything above it would be a gap.
  predicate Anchored(q: Query, s: State) {
    q.after.Some? || s.emitted != []
  }

  predicate ReadsHistory(s: State) {
    s.phase == Replaying || (s.phase == Draining && s.pending == [] && !s.shutdown && s.replaying)
  }

  // Retention has not yet deleted anything this connection still needs.
  predicate NothingPruned(q: Query, s: State) {
    forall i :: 0 <= i < Floor(s.bus.log) ==>
      !(Matches(s.bus.log[i], q.line) && s.bus.log[i].id > s.lastId)
  }

  // The environment a caller can check: broadcasts leave in commit order, a history
  // read after the first one succeeds, and it is not behind the retention floor.
  predicate Sound(q: Query, s: State, a: Action) {
    match a
    case Send(i) => i == 0
    case Turn(fails) =>
      && (ReadsHistory(s) ==> !fails && (Anchored(q, s) ==> NothingPruned(q, s)))
      && (s.phase == Opening && q.after.Some? && !fails ==> NothingPruned(q, s))
    case _ => true
  }

  predicate SoundRun(q: Query, s: State, script: seq<Action>)
    decreases |script|
  {
    script == [] || (Sound(q, s, script[0]) && SoundRun(q, Step(q, s, script[0]), script[1..]))
  }

  ghost predicate Subscribable(bus: Bus) {
    ValidLog(bus.log) && bus.base <= |bus.log| && bus.unsent == bus.log[bus.base..]
  }

  // ---- The invariant --------------------------------------------------------------

  // The id up to which the client is served once `pending` has drained.
  function Horizon(s: State): int {
    if s.pending == [] then s.lastId else s.pending[|s.pending| - 1].id
  }

  // Whatever lies behind the receiver is irrelevant or already served.
  ghost predicate Covered(q: Query, s: State) {
    forall i :: 0 <= i < s.bus.base + s.next && i < |s.bus.log| ==>
      !(Matches(s.bus.log[i], q.line) && s.bus.log[i].id > Horizon(s))
  }

  ghost predicate PendingInOrder(q: Query, s: State) {
    if Anchored(q, s) then s.pending <= After(s.bus.log, q.line, s.lastId)
    else
      && (s.pending != [] ==>
            && s.pending[0] in s.bus.log && Matches(s.pending[0], q.line)
            && s.pending[1..] <= After(s.bus.log, q.line, s.pending[0].id))
  }

  // `lastId` is the id of the last event the client was given.
  ghost predicate Tracked(q: Query, s: State) {
    if s.emitted == [] then s.lastId == StartId(q)
    else
      var last := s.emitted[|s.emitted| - 1];
      && s.lastId == last.id && last in s.bus.log
      && StartId(q) <= s.lastId && s.emitted[0].id <= s.lastId
  }

  ghost predicate BusInOrder(bus: Bus) {
    ValidLog(bus.log) && bus.base <= |bus.log| && bus.sent + bus.unsent == bus.log[bus.base..]
  }

  ghost predicate Inv(q: Query, s: State) {
    && BusInOrder(s.bus)
    && s.next <= |s.bus.sent|
    && GapFree(q, s)
    && Tracked(q, s)
    && PendingInOrder(q, s)
    && (s.phase != Draining ==> s.pending == [])
    && (s.phase == Opening ==> s.replaying == q.after.Some? && s.emitted == [] && s.next == 0)
    && (s.phase in {Receiving, Replaying} ==> !s.replaying)
    && (s.phase in {Draining, Receiving} && !s.replaying && (Anchored(q, s) || s.pending != []) ==> Covered(q, s))
  }

  lemma SubscribeInv(q: Query, bus: Bus)
    requires Subscribable(bus)
    ensures Inv(q, Subscribe(q, bus))
  {
  }

  // A page read from the retained rows is the page of the whole log.
  lemma PageOfLog(q: Query, s: State)
    requires ValidLog(s.bus.log)
    requires Anchored(q, s) ==> NothingPruned(q, s)
    requires !Anchored(q, s) ==> s.lastId == StartId(q)
    ensures var page := HistoryAfter(s.bus.log, q.line, s.lastId);
            PendingInOrder(q, s.(pending := page))
    ensures Anchored(q, s) && HistoryAfter(s.bus.log, q.line, s.lastId) == [] ==>
            After(s.bus.log, q.line, s.lastId) == []
  {
    var log, floor := s.bus.log, Floor(s.bus.log);
    var rows := After(Retained(log), q.line, s.lastId);
    if Anchored(q, s) {
      AfterDrop(log, q.line, s.lastId, floor);
    } else if rows != [] {
      RetainedSuffix(log, q.line, 0, 0);
    }
  }

  lemma RetainedSuffix(log: seq<Event>, line: Option<string>, lo: int, k: nat)
    requires ValidLog(log) && k < |After(Retained(log), line, lo)|
    ensures var e := After(Retained(log), line, lo)[k];
            e in log && Matches(e, line) && After(Retained(log), line, lo)[k + 1..] == After(log, line, e.id)
  {
    AfterSuffix(Retained(log), line, lo, k);
    var e := After(Retained(log), line, lo)[k];
    var i :| 0 <= i < |Retained(log)| && Retained(log)[i] == e;
    assert log[Floor(log) + i] == e;
    AfterDrop(log, line, e.id, Floor(log));
  }

  lemma OpenInv(q: Query, s: State, readFails: bool)
    requires Inv(q, s) && s.phase == Opening && Sound(q, s, Turn(readFails))
    ensures Inv(q, Open(q, s, readFails))
  {
    if !readFails && q.after.Some? {
      PageOfLog(q, s);
    } else if !readFails {
      RecentPage(q, s);
    }
  }

  // A suffix of the retained matches runs to the end of the log.
  lemma SuffixPage(log: seq<Event>, line: Option<string>, k: nat)
    requires ValidLog(log) && k < |After(Retained(log), line, 0)|
    ensures var page := After(Retained(log), line, 0)[k..];
            && page[0] in log && Matches(page[0], line)
            && page[1..] == After(log, line, page[0].id)
            && After(log, line, page[|page| - 1].id) == []
  {
    var rows := After(Retained(log), line, 0);
    RetainedSuffix(log, line, 0, k);
    assert rows[k..][1..] == rows[k + 1..];
    RetainedSuffix(log, line, 0, |rows| - 1);
    assert rows[k..][|rows| - k - 1] == rows[|rows| - 1];
  }

  // The newest page reaches the end of the log, so live delivery continues it.
  lemma RecentIsSuffix(log: seq<Event>, line: Option<string>)
    requires ValidLog(log)
    ensures var page := Recent(log, line);
            page != [] ==>
              && page[0] in log && Matches(page[0], line) && page[1..] == After(log, line, page[0].id)
              && After(log, line, page[|page| - 1].id) == []
  {
    var page, rows := Recent(log, line), After(Retained(log), line, 0);
    if page != [] {
      SuffixPage(log, line, |rows| - |page|);
      assert page == rows[|rows| - |page|..];
    }
  }

  lemma RecentPage(q: Query, s: State)
    requires ValidLog(s.bus.log) && !Anchored(q, s)
    ensures var s' := s.(pending := Recent(s.bus.log, q.line));
            PendingInOrder(q, s') && (s'.pending != [] ==> Covered(q, s'))
  {
    var log, page := s.bus.log, Recent(s.bus.log, q.line);
    RecentIsSuffix(log, q.line);
    if page != [] {
      AfterMembers(log, q.line, page[|page| - 1].id);
    }
  }

  // Handing out the next entry of the line's history leaves no gap.
  lemma EmitGapFree(q: Query, s: State, e: Event)
    requires GapFree(q, s)
    requires if Anchored(q, s)
             then After(s.bus.log, q.line, s.lastId) == [e] + After(s.bus.log, q.line, e.id)
             else e in s.bus.log && Matches(e, q.line)
    ensures GapFree(q, Emit(s, e))
  {
  }

  // The front of a page is the next entry due, and the rest of the page follows it.
  lemma PageFront(log: seq<Event>, line: Option<string>, lo: int, page: seq<Event>)
    requires Ascending(log) && page != [] && page <= After(log, line, lo)
    ensures page[0] in log && Matches(page[0], line) && page[0].id > lo
    ensures After(log, line, lo) == [page[0]] + After(log, line, page[0].id)
    ensures page[1..] <= After(log, line, page[0].id)
  {
    AfterHead(log, line, lo);
    var rows := After(log, line, lo);
    assert rows[0] == page[0] && page[1..] <= rows[1..] == After(log, line, page[0].id);
  }

  lemma PopInv(q: Query, s: State)
    requires Inv(q, s) && s.phase == Draining && s.pending != []
    ensures Inv(q, Drain(q, s, false))
    ensures s.pending[0].id > s.lastId
  {
    var log, e := s.bus.log, s.pending[0];
    if Anchored(q, s) {
      PageFront(log, q.line, s.lastId, s.pending);
    }
    PopEmit(q, s);
  }

  lemma PopEmit(q: Query, s: State)
    requires Inv(q, s) && s.phase == Draining && s.pending != []
    requires var e := s.pending[0];
             && e in s.bus.log && Matches(e, q.line) && e.id > s.lastId
             && s.pending[1..] <= After(s.bus.log, q.line, e.id)
             && (Anchored(q, s) ==> After(s.bus.log, q.line, s.lastId) == [e] + After(s.bus.log, q.line, e.id))
    ensures Inv(q, Emit(s.(pending := s.pending[1..]), s.pending[0]))
  {
    var rest := s.(pending := s.pending[1..]);
    var s' := Emit(rest, s.pending[0]);
    assert GapFree(q, rest) && Anchored(q, rest) == Anchored(q, s);
    EmitGapFree(q, rest, s.pending[0]);
    assert Horizon(s') == Horizon(s);
    assert Covered(q, s') == Covered(q, s);
  }

  lemma ReadOnInv(q: Query, s: State)
    requires Inv(q, s) && s.phase == Draining && s.pending == [] && s.replaying && !s.shutdown
    requires Sound(q, s, Turn(false))
    ensures Inv(q, Drain(q, s, false))
  {
    var page, s' := HistoryAfter(s.bus.log, q.line, s.lastId), Drain(q, s, false);
    PageOfLog(q, s);
    SamePosition(q, s, s');
    SamePosition(q, s.(pending := page), s');
    if page == [] && Anchored(q, s) { NothingAbove(q, s'); }
  }

  lemma NothingAbove(q: Query, s: State)
    requires After(s.bus.log, q.line, s.lastId) == [] && s.pending == []
    ensures Covered(q, s)
  {
    AfterMembers(s.bus.log, q.line, s.lastId);
  }

  lemma ReceiveInv(q: Query, s: State)
    requires Inv(q, s) && s.phase == Receiving
    ensures Inv(q, Receive(q, s))
  {
    if !s.shutdown && s.next < |s.bus.sent| <= s.next + CHANNEL_CAPACITY {
      var e := s.bus.sent[s.next];
      SentPosition(s.bus, s.next);
      if e.id <= s.lastId || !Matches(e, q.line) {
        assert Receive(q, s) == s.(phase := Draining, next := s.next + 1);
        SkipInv(q, s);
      } else {
        assert Receive(q, s) == Emit(s.(next := s.next + 1), e);
        DeliverInv(q, s, e);
      }
    }
  }

  lemma SentPosition(bus: Bus, k: nat)
    requires BusInOrder(bus) && k < |bus.sent|
    ensures bus.base + k < |bus.log| && bus.log[bus.base + k] == bus.sent[k]
  {
  }

  lemma SkipInv(q: Query, s: State)
    requires Inv(q, s) && s.phase == Receiving && s.next < |s.bus.sent| && s.bus.base + s.next < |s.bus.log|
    requires var e := s.bus.log[s.bus.base + s.next]; e.id <= s.lastId || !Matches(e, q.line)
    ensures Inv(q, s.(phase := Draining, next := s.next + 1))
  {
    var s' := s.(phase := Draining, next := s.next + 1);
    assert Covered(q, s) ==> Covered(q, s');
    assert GapFree(q, s') == GapFree(q, s) && PendingInOrder(q, s') == PendingInOrder(q, s);
  }

  lemma DeliverInv(q: Query, s: State, e: Event)
    requires Inv(q, s) && s.phase == Receiving && s.next < |s.bus.sent|
    requires s.bus.base + s.next < |s.bus.log| && s.bus.log[s.bus.base + s.next] == e
    requires e.id > s.lastId && Matches(e, q.line)
    ensures Inv(q, Emit(s.(next := s.next + 1), e))
  {
    var rest := s.(next := s.next + 1);
    SamePosition(q, s, rest);
    if Anchored(q, s) { NothingBefore(q, s, s.bus.base + s.next); }
    EmitGapFree(q, rest, e);
    EmitLive(q, rest, e);
  }

  lemma NothingBefore(q: Query, s: State, k: nat)
    requires BusInOrder(s.bus) && Covered(q, s) && s.pending == [] && k == s.bus.base + s.next < |s.bus.log|
    requires s.bus.log[k].id > s.lastId && Matches(s.bus.log[k], q.line)
    ensures After(s.bus.log, q.line, s.lastId) == [s.bus.log[k]] + After(s.bus.log, q.line, s.bus.log[k].id)
  {
    AfterFirst(s.bus.log, q.line, s.lastId, k);
  }

  lemma EmitLive(q: Query, s: State, e: Event)
    requires BusInOrder(s.bus) && Tracked(q, s) && s.pending == [] && e.id > s.lastId
    requires s.bus.base + s.next <= |s.bus.log| && 0 < s.next && s.bus.log[s.bus.base + s.next - 1] == e
    ensures Tracked(q, Emit(s, e)) && PendingInOrder(q, Emit(s, e)) && Covered(q, Emit(s, e))
  {
  }

  // A commit adds the same event, or nothing, to both sides of the promise.
  lemma CommitGapFree(q: Query, s: State, e: Event)
    requires GapFree(q, s) && Tracked(q, s) && ValidLog(s.bus.log) && CanCommit(s.bus, e)
    ensures GapFree(q, s.(bus := s.bus.(log := s.bus.log + [e])))
  {
  }

  lemma BothGrow(log: seq<Event>, e: Event, line: Option<string>, from: int, served: seq<Event>, lo: int)
    requires After(log, line, from) == served + After(log, line, lo)
    requires (from < e.id && lo < e.id) || from == lo
    ensures After(log + [e], line, from) == served + After(log + [e], line, lo)
  {
  }

  lemma CommitPending(q: Query, s: State, e: Event)
    requires PendingInOrder(q, s)
    ensures PendingInOrder(q, s.(bus := s.bus.(log := s.bus.log + [e])))
  {
  }

  lemma CommitBus(bus: Bus, e: Event)
    requires BusInOrder(bus) && CanCommit(bus, e)
    ensures BusInOrder(bus.(log := bus.log + [e], unsent := bus.unsent + [e]))
  {
  }

  // Of the bus, the promises read the log only.
  lemma SameLog(q: Query, s: State, bus: Bus)
    requires bus.log == s.bus.log && bus.base == s.bus.base
    ensures var s' := s.(bus := bus);
            && (GapFree(q, s) <==> GapFree(q, s')) && (PendingInOrder(q, s) <==> PendingInOrder(q, s'))
            && (Covered(q, s) <==> Covered(q, s')) && (Tracked(q, s) <==> Tracked(q, s'))
            && (Anchored(q, s) <==> Anchored(q, s'))
  {
  }

  // Of the connection, they read its position and what it has buffered.
  lemma SamePosition(q: Query, s: State, s': State)
    requires s'.bus == s.bus && s'.lastId == s.lastId && s'.emitted == s.emitted
    ensures GapFree(q, s) <==> GapFree(q, s')
    ensures Tracked(q, s) <==> Tracked(q, s')
    ensures Anchored(q, s) <==> Anchored(q, s')
    ensures s'.pending == s.pending ==> (PendingInOrder(q, s) <==> PendingInOrder(q, s'))
  {
  }

  lemma CommitTracked(q: Query, s: State, e: Event)
    requires Tracked(q, s)
    ensures Tracked(q, s.(bus := s.bus.(log := s.bus.log + [e])))
  {
  }

  lemma CommitInv(q: Query, s: State, e: Event)
    requires Inv(q, s) && CanCommit(s.bus, e)
    ensures Inv(q, Step(q, s, Commit(e)))
  {
    CommitBus(s.bus, e);
    CommitPromises(q, s, e);
    InvFrom(q, s, Step(q, s, Commit(e)));
  }

  // First with the event in the log only, then with its broadcast outstanding too.
  lemma CommitPromises(q: Query, s: State, e: Event)
    requires Inv(q, s) && CanCommit(s.bus, e)
    ensures var s' := Step(q, s, Commit(e));
            GapFree(q, s') && Tracked(q, s') && PendingInOrder(q, s') && (Covered(q, s) ==> Covered(q, s'))
  {
    var mid := s.(bus := s.bus.(log := s.bus.log + [e]));
    assert GapFree(q, mid) by { CommitGapFree(q, s, e); }
    assert Tracked(q, mid) by { CommitTracked(q, s, e); }
    assert PendingInOrder(q, mid) by { CommitPending(q, s, e); }
    assert Covered(q, s) ==> Covered(q, mid) by { CommitCovered(q, s, e); }
    SameLog(q, mid, mid.bus.(unsent := s.bus.unsent + [e]));
  }

  // A step that leaves the connection itself alone keeps what the invariant says of it.
  lemma InvFrom(q: Query, s: State, s': State)
    requires Inv(q, s) && s' == s.(bus := s'.bus) && BusInOrder(s'.bus) && s.next <= |s'.bus.sent|
    requires GapFree(q, s') && Tracked(q, s') && PendingInOrder(q, s') && (Covered(q, s) ==> Covered(q, s'))
    ensures Inv(q, s')
  {
  }

  lemma CommitCovered(q: Query, s: State, e: Event)
    requires BusInOrder(s.bus) && s.next <= |s.bus.sent|
    ensures Covered(q, s) ==> Covered(q, s.(bus := s.bus.(log := s.bus.log + [e])))
  {
  }

  lemma SendBus(bus: Bus)
    requires BusInOrder(bus) && bus.unsent != []
    ensures BusInOrder(bus.(sent := bus.sent + [bus.unsent[0]], unsent := bus.unsent[..0] + bus.unsent[1..]))
  {
  }

  lemma SendInv(q: Query, s: State)
    requires Inv(q, s) && s.bus.unsent != []
    ensures Inv(q, Step(q, s, Send(0)))
  {
    var s' := Step(q, s, Send(0));
    SendBus(s.bus);
    SameLog(q, s, s'.bus);
    InvFrom(q, s, s');
  }

  lemma DrainInv(q: Query, s: State, readFails: bool)
    requires Inv(q, s) && s.phase == Draining && Sound(q, s, Turn(readFails))
    ensures Inv(q, Drain(q, s, readFails))
  {
    if s.pending != [] {
      PopInv(q, s);
    } else if !s.shutdown && s.replaying {
      ReadOnInv(q, s);
    }
  }

  lemma TurnInv(q: Query, s: State, readFails: bool)
    requires Inv(q, s) && Sound(q, s, Turn(readFails))
    ensures Inv(q, TurnOf(q, s, readFails))
  {
    match s.phase
    case Opening => OpenInv(q, s, readFails);
    case Draining => DrainInv(q, s, readFails);
    case Receiving => ReceiveInv(q, s);
    case Replaying => ReplayInv(q, s);
    case Ended =>
  }

  lemma ReplayInv(q: Query, s: State)
    requires Inv(q, s) && s.phase == Replaying && Sound(q, s, Turn(false))
    ensures Inv(q, Replay(q, s, false))
  {
    var page := HistoryAfter(s.bus.log, q.line, s.lastId);
    PageOfLog(q, s);
    assert s.pending + page == page;
    SamePosition(q, s, Replay(q, s, false));
    SamePosition(q, s.(pending := page), Replay(q, s, false));
  }

  lemma ShutdownInv(q: Query, s: State)
    requires Inv(q, s)
    ensures Inv(q, s.(shutdown := true))
  {
    SamePosition(q, s, s.(shutdown := true));
    assert Covered(q, s) == Covered(q, s.(shutdown := true));
  }

  lemma StepInv(q: Query, s: State, a: Action)
    requires Inv(q, s) && Sound(q, s, a)
    ensures Inv(q, Step(q, s, a))
  {
    match a
    case Commit(e) => if CanCommit(s.bus, e) { CommitInv(q, s, e); }
    case Send(i) => if s.bus.unsent != [] { SendInv(q, s); }
    case Shutdown => ShutdownInv(q, s);
    case Turn(fails) => TurnInv(q, s, fails);
  }

  lemma {:induction false} RunInv(q: Query, s: State, script: seq<Action>)
    requires Inv(q, s) && SoundRun(q, s, script)
    ensures Inv(q, Run(q, s, script))
    decreases |script|
  {
    if script != [] {
      StepInv(q, s, script[0]);
      RunInv(q, Step(q, s, script[0]), script[1..]);
    }
  }

  // ---- Main results -----------------------------------------------------------------

  // The event that the next step would hand to the client.
  function EmitsNext(q: Query, s: State, a: Action): Option<Event> {
    if !a.Turn? then None
    else if s.phase == Draining && s.pending != [] && s.pending[0].id > s.lastId then Some(s.pending[0])
    else if s.phase == Receiving && !s.shutdown && s.next < |s.bus.sent| <= s.next + CHANNEL_CAPACITY
            && s.bus.sent[s.next].id > s.lastId && Matches(s.bus.sent[s.next], q.line) then Some(s.bus.sent[s.next])
    else None
  }

  // A committed event of the line lies between the client's position and `e`.
  predicate PassesOver(q: Query, s: State, e: Event) {
    && Anchored(q, s)
    && exists i :: 0 <= i < |s.bus.log| && Matches(s.bus.log[i], q.line) && s.lastId < s.bus.log[i].id < e.id
  }

  predicate Skips(q: Query, s: State, a: Action) {
    EmitsNext(q, s, a).Some? && PassesOver(q, s, EmitsNext(q, s, a).value)
  }

  predicate SkipsIn(q: Query, s: State, script: seq<Action>)
    decreases |script|
  {
    script != [] && (Skips(q, s, script[0]) || SkipsIn(q, Step(q, s, script[0]), script[1..]))
  }

  // Live delivery, as opposed to a page of history, passes over something.
  predicate SkipsLiveIn(q: Query, s: State, script: seq<Action>)
    decreases |script|
  {
    && script != []
    && ((s.phase == Receiving && Skips(q, s, script[0])) || SkipsLiveIn(q, Step(q, s, script[0]), script[1..]))
  }

  // What needs no assumption on broadcast order, read failures or retention.
  ghost predicate Honest(q: Query, s: State) {
    Truthful(q, s) && Sourced(q, s) && Tracked(q, s)
  }

  lemma EmitsStep(q: Query, s: State, a: Action)
    ensures var s' := Step(q, s, a);
            match EmitsNext(q, s, a)
            case Some(e) => s'.emitted == s.emitted + [e] && s'.lastId == e.id && s'.bus == s.bus
            case None => s'.emitted == s.emitted && s'.lastId == s.lastId
  {
  }

  lemma EmittedIsCommitted(q: Query, s: State, a: Action)
    requires Sourced(q, s) && EmitsNext(q, s, a).Some?
    ensures var e := EmitsNext(q, s, a).value; e in s.bus.log && Matches(e, q.line) && e.id > s.lastId
  {
    if s.phase == Draining { assert s.pending[0] in s.pending; } else { assert s.bus.sent[s.next] in s.bus.sent; }
  }

  lemma StepStaysTracked(q: Query, s: State, a: Action)
    requires Honest(q, s)
    ensures Tracked(q, Step(q, s, a))
  {
    EmitsStep(q, s, a);
    if EmitsNext(q, s, a).Some? {
      EmittedIsCommitted(q, s, a);
    } else {
      LogStays(q, s, a);
    }
  }

  lemma LogStays(q: Query, s: State, a: Action)
    ensures s.bus.log <= Step(q, s, a).bus.log
  {
  }

  lemma StepStaysHonest(q: Query, s: State, a: Action)
    requires Honest(q, s)
    ensures Honest(q, Step(q, s, a))
  {
    StepStaysTracked(q, s, a);
    if a.Turn? { TurnStaysTruthful(q, s, a.readFails); } else { OtherStaysTruthful(q, s, a); }
  }

  // Handing out the next committed event of the line keeps the promise.
  lemma EmissionIsNext(q: Query, s: State, a: Action)
    requires Honest(q, s) && GapFree(q, s) && EmitsNext(q, s, a).Some? && !Skips(q, s, a)
    ensures GapFree(q, Step(q, s, a))
  {
    var e := EmitsNext(q, s, a).value;
    EmittedIsCommitted(q, s, a);
    EmitsStep(q, s, a);
    if Anchored(q, s) {
      var k :| 0 <= k < |s.bus.log| && s.bus.log[k] == e;
      AfterFirst(s.bus.log, q.line, s.lastId, k);
    }
    EmitGapFree(q, s, e);
    assert GapFree(q, Emit(s, e)) ==> GapFree(q, Step(q, s, a));
  }

  lemma QuietStepIsGapFree(q: Query, s: State, a: Action)
    requires Honest(q, s) && GapFree(q, s) && EmitsNext(q, s, a).None?
    ensures GapFree(q, Step(q, s, a))
  {
    EmitsStep(q, s, a);
    match a
    case Commit(e) => if CanCommit(s.bus, e) { CommitGapFree(q, s, e); }
    case _ =>
  }

  // What was passed over stays lost, and then the promise is broken.
  lemma SkipBreaksPromise(q: Query, s: State, a: Action, rest: seq<Action>)
    requires Honest(q, s) && Skips(q, s, a)
    ensures !GapFree(q, Run(q, Step(q, s, a), rest))
  {
    var e, s1 := EmitsNext(q, s, a).value, Step(q, s, a);
    var i :| 0 <= i < |s.bus.log| && Matches(s.bus.log[i], q.line) && s.lastId < s.bus.log[i].id < e.id;
    var f := s.bus.log[i];
    EmitsStep(q, s, a);
    assert Lost(q, s1, f);
    LostForGood(q, s1, f, rest);
    EmittedOnlyGrows(q, s1, rest);
    StepStaysHonest(q, s, a);
    LostIsAGap(q, Run(q, s1, rest), f, if s.emitted == [] then StartId(q) else s.emitted[0].id);
  }

  lemma {:induction false} EmittedOnlyGrows(q: Query, s: State, script: seq<Action>)
    ensures s.emitted <= Run(q, s, script).emitted
    decreases |script|
  {
    if script != [] {
      EmitsStep(q, s, script[0]);
      EmittedOnlyGrows(q, Step(q, s, script[0]), script[1..]);
    }
  }

  lemma LostIsAGap(q: Query, s: State, f: Event, from: int)
    requires Lost(q, s, f) && s.emitted != []
    requires q.after.Some? || (from == s.emitted[0].id && f.id > from)
    ensures !GapFree(q, s)
  {
    AfterMembers(s.bus.log, q.line, if q.after.Some? then StartId(q) else from);
    AfterMembers(s.bus.log, q.line, s.lastId);
    assert forall e :: e in s.emitted[1..] ==> e in s.emitted;
    var rest := After(s.bus.log, q.line, s.lastId);
    assert f !in s.emitted + rest && f !in s.emitted[1..] + rest;
  }

  // In every environment whatsoever: no gap if and only if no event is handed out past a
  // committed event of the line.
  lemma {:induction false} GapFreeByEmission(q: Query, s: State, script: seq<Action>)
    requires Honest(q, s) && GapFree(q, s)
    ensures GapFree(q, Run(q, s, script)) <==> !SkipsIn(q, s, script)
    decreases |script|
  {
    if script != [] {
      if Skips(q, s, script[0]) {
        SkipBreaksPromise(q, s, script[0], script[1..]);
      } else {
        if EmitsNext(q, s, script[0]).Some? {
          EmissionIsNext(q, s, script[0]);
        } else {
          QuietStepIsGapFree(q, s, script[0]);
        }
        StepStaysHonest(q, s, script[0]);
        GapFreeByEmission(q, Step(q, s, script[0]), script[1..]);
      }
    }
  }

  // A history read that succeeds is not behind the retention floor.
  predicate ReadsCurrent(q: Query, s: State, a: Action) {
    a.Turn? && !a.readFails && Anchored(q, s) && (ReadsHistory(s) || s.phase == Opening) ==> NothingPruned(q, s)
  }

  predicate CurrentRun(q: Query, s: State, script: seq<Action>)
    decreases |script|
  {
    script == [] || (ReadsCurrent(q, s, script[0]) && CurrentRun(q, Step(q, s, script[0]), script[1..]))
  }

  ghost predicate Paged(q: Query, s: State) {
    && Honest(q, s) && PendingInOrder(q, s)
    && (s.phase != Draining ==> s.pending == [])
    && (s.phase == Opening ==> s.emitted == [])
  }

  lemma PageFrontIsNext(q: Query, s: State, a: Action)
    requires Paged(q, s) && s.phase == Draining
    ensures !Skips(q, s, a)
  {
    if EmitsNext(q, s, a).Some? && Anchored(q, s) {
      PageFront(s.bus.log, q.line, s.lastId, s.pending);
      AfterMembers(s.bus.log, q.line, s.lastId);
      AfterMembers(s.bus.log, q.line, s.pending[0].id);
    }
  }

  lemma PopStaysPaged(q: Query, s: State, fails: bool)
    requires Paged(q, s) && s.phase == Draining && s.pending != []
    ensures PendingInOrder(q, Drain(q, s, fails))
  {
    if Anchored(q, s) { PageFront(s.bus.log, q.line, s.lastId, s.pending); }
  }

  lemma TurnStaysPaged(q: Query, s: State, fails: bool)
    requires Paged(q, s) && ReadsCurrent(q, s, Turn(fails))
    ensures PendingInOrder(q, TurnOf(q, s, fails))
  {
    match s.phase
    case Opening => if !fails { if q.after.Some? { PageOfLog(q, s); } else { RecentPage(q, s); } }
    case Draining =>
      if s.pending != [] {
        PopStaysPaged(q, s, fails);
      } else if !s.shutdown && s.replaying && !fails {
        PageOfLog(q, s);
      }
    case Receiving =>
    case Replaying =>
      if !fails {
        PageOfLog(q, s);
        assert s.pending + HistoryAfter(s.bus.log, q.line, s.lastId) == HistoryAfter(s.bus.log, q.line, s.lastId);
      }
    case Ended =>
  }

  lemma StepStaysPaged(q: Query, s: State, a: Action)
    requires Paged(q, s) && ReadsCurrent(q, s, a)
    ensures Paged(q, Step(q, s, a))
  {
    StepStaysHonest(q, s, a);
    StepKeepsOrder(q, s, a);
    PhaseOfPending(q, s, a);
  }

  lemma StepKeepsOrder(q: Query, s: State, a: Action)
    requires Paged(q, s) && ReadsCurrent(q, s, a)
    ensures PendingInOrder(q, Step(q, s, a))
  {
    match a
    case Turn(fails) => TurnStaysPaged(q, s, fails);
    case Commit(e) => if CanCommit(s.bus, e) { CommitKeepsOrder(q, s, e); }
    case Send(_) => SameLog(q, s, Step(q, s, a).bus);
    case Shutdown => SamePosition(q, s, Step(q, s, a));
  }

  lemma CommitKeepsOrder(q: Query, s: State, e: Event)
    requires PendingInOrder(q, s) && CanCommit(s.bus, e)
    ensures PendingInOrder(q, Step(q, s, Commit(e)))
  {
    var grown := s.bus.(log := s.bus.log + [e]);
    CommitPending(q, s, e);
    SameLog(q, s.(bus := grown), grown.(unsent := s.bus.unsent + [e]));
  }

  lemma PhaseOfPending(q: Query, s: State, a: Action)
    requires (s.phase != Draining ==> s.pending == []) && (s.phase == Opening ==> s.emitted == [])
    ensures var s' := Step(q, s, a);
            (s'.phase != Draining ==> s'.pending == []) && (s'.phase == Opening ==> s'.emitted == [])
  {
  }

  lemma {:induction false} OnlyLiveSkips(q: Query, s: State, script: seq<Action>)
    requires Paged(q, s) && CurrentRun(q, s, script)
    ensures SkipsIn(q, s, script) <==> SkipsLiveIn(q, s, script)
    decreases |script|
  {
    if script != [] {
      if s.phase == Draining { PageFrontIsNext(q, s, script[0]); }
      StepStaysPaged(q, s, script[0]);
      OnlyLiveSkips(q, Step(q, s, script[0]), script[1..]);
    }
  }

  // What is known of the bus at subscription, whatever the order of its broadcasts.
  ghost predicate Attachable(bus: Bus) {
    ValidLog(bus.log) && forall e :: e in bus.unsent ==> e in bus.log
  }

  lemma SubscribePaged(q: Query, bus: Bus)
    requires Attachable(bus)
    ensures Paged(q, Subscribe(q, bus)) && GapFree(q, Subscribe(q, bus))
  {
  }

  // With history reads that are not behind retention, and no assumption on broadcast order or on
  // failing reads: the client has no gap if and only if no live delivery in the run passes over
  // a committed event of its line.
  lemma GapFreeExactly(q: Query, bus: Bus, script: seq<Action>)
    requires Attachable(bus) && CurrentRun(q, Subscribe(q, bus), script)
    ensures GapFree(q, Run(q, Subscribe(q, bus), script)) <==> !SkipsLiveIn(q, Subscribe(q, bus), script)
  {
    SubscribePaged(q, bus);
    GapFreeByEmission(q, Subscribe(q, bus), script);
    OnlyLiveSkips(q, Subscribe(q, bus), script);
  }

  lemma SoundStep(q: Query, s: State, a: Action)
    requires Inv(q, s) && Sound(q, s, a)
    ensures ReadsCurrent(q, s, a) && (s.phase == Receiving ==> !Skips(q, s, a))
  {
    if s.phase == Receiving && EmitsNext(q, s, a).Some? {
      SentPosition(s.bus, s.next);
      LiveIsNext(q, s, s.bus.base + s.next);
    }
  }

  // Broadcasts that leave in commit order never let live delivery pass anything over.
  lemma {:induction false} SoundNeverSkips(q: Query, s: State, script: seq<Action>)
    requires Inv(q, s) && SoundRun(q, s, script)
    ensures CurrentRun(q, s, script) && !SkipsLiveIn(q, s, script)
    decreases |script|
  {
    if script != [] {
      SoundStep(q, s, script[0]);
      StepInv(q, s, script[0]);
      SoundNeverSkips(q, Step(q, s, script[0]), script[1..]);
    }
  }

  lemma LiveIsNext(q: Query, s: State, k: nat)
    requires Inv(q, s) && s.phase == Receiving && k == s.bus.base + s.next < |s.bus.log|
    ensures !PassesOver(q, s, s.bus.log[k])
  {
  }

  lemma OrderedIsAttachable(bus: Bus)
    requires Subscribable(bus)
    ensures Attachable(bus)
  {
  }

  // Every interleaving of commits, broadcasts, lags, reads and shutdown in a sound
  // environment hands the client a gap-free piece of the line's history.
  lemma GapFreeRun(q: Query, bus: Bus, script: seq<Action>)
    requires Subscribable(bus) && SoundRun(q, Subscribe(q, bus), script)
    ensures GapFree(q, Run(q, Subscribe(q, bus), script))
  {
    SubscribeInv(q, bus);
    SoundNeverSkips(q, Subscribe(q, bus), script);
    OrderedIsAttachable(bus);
    GapFreeExactly(q, bus, script);
  }

  // Nothing is left behind: a parked receiver with no broadcast outstanding means the
  // client holds the whole history above its start.
  lemma CaughtUpWhenIdle(q: Query, bus: Bus, script: seq<Action>)
    requires Subscribable(bus) && SoundRun(q, Subscribe(q, bus), script)
    requires var s := Run(q, Subscribe(q, bus), script);
             s.phase == Receiving && s.next == |s.bus.sent| && s.bus.unsent == [] && Anchored(q, s)
    ensures var s := Run(q, Subscribe(q, bus), script);
            if q.after.Some? then s.emitted == After(s.bus.log, q.line, StartId(q))
            else s.emitted[1..] == After(s.bus.log, q.line, s.emitted[0].id)
  {
    SubscribeInv(q, bus);
    RunInv(q, Subscribe(q, bus), script);
    var s := Run(q, Subscribe(q, bus), script);
    AfterMembers(s.bus.log, q.line, s.lastId);
  }

  // Where a client with a position starts from, and what it was given since.
  function Start(q: Query, s: State): int
    requires Anchored(q, s)
  {
    if q.after.Some? then StartId(q) else s.emitted[0].id
  }

  function Served(q: Query, s: State): seq<Event>
    requires Anchored(q, s)
  {
    if q.after.Some? then s.emitted else s.emitted[1..]
  }

  // A run in which history reads are not behind retention and live delivery passes over nothing.
  predicate CleanRun(q: Query, bus: Bus, script: seq<Action>) {
    CurrentRun(q, Subscribe(q, bus), script) && !SkipsLiveIn(q, Subscribe(q, bus), script)
  }

  lemma {:induction false} RunStaysPaged(q: Query, s: State, script: seq<Action>)
    requires Paged(q, s) && CurrentRun(q, s, script)
    ensures Paged(q, Run(q, s, script))
    decreases |script|
  {
    if script != [] {
      StepStaysPaged(q, s, script[0]);
      RunStaysPaged(q, Step(q, s, script[0]), script[1..]);
    }
  }

  lemma CleanRunHolds(q: Query, bus: Bus, script: seq<Action>)
    requires Attachable(bus) && CleanRun(q, bus, script)
    ensures var s := Run(q, Subscribe(q, bus), script); Paged(q, s) && GapFree(q, s)
  {
    SubscribePaged(q, bus);
    RunStaysPaged(q, Subscribe(q, bus), script);
    GapFreeExactly(q, bus, script);
  }

  // A response only ends with nothing buffered, so reconnecting with the last id seen
  // continues exactly where it stopped.
  lemma ReconnectContinues(q: Query, bus: Bus, script: seq<Action>, bus': Bus, script': seq<Action>)
    requires Attachable(bus) && CleanRun(q, bus, script)
    requires var s := Run(q, Subscribe(q, bus), script);
             && s.phase == Ended && Anchored(q, s)
             && Attachable(bus') && s.bus.log <= bus'.log && CleanRun(q.(after := Some(s.lastId)), bus', script')
    ensures var s := Run(q, Subscribe(q, bus), script);
            var q' := q.(after := Some(s.lastId));
            var s' := Run(q', Subscribe(q', bus'), script');
            && s.pending == []
            && After(s'.bus.log, q.line, Start(q, s))
               == Served(q, s) + s'.emitted + After(s'.bus.log, q.line, s'.lastId)
  {
    CleanRunHolds(q, bus, script);
    var s := Run(q, Subscribe(q, bus), script);
    var q' := q.(after := Some(s.lastId));
    CleanRunHolds(q', bus', script');
    var s' := Run(q', Subscribe(q', bus'), script');
    LogOnlyGrows(q', Subscribe(q', bus'), script');
    Continues(q, s, q', s');
  }

  lemma Continues(q: Query, s: State, q': Query, s': State)
    requires Honest(q, s) && Anchored(q, s) && GapFree(q, s) && GapFree(q', s')
    requires q' == q.(after := Some(s.lastId)) && s.bus.log <= s'.bus.log && ValidLog(s'.bus.log)
    ensures After(s'.bus.log, q.line, Start(q, s))
         == Served(q, s) + s'.emitted + After(s'.bus.log, q.line, s'.lastId)
  {
    var rest := After(s'.bus.log, q.line, s'.lastId);
    PromiseLater(q, s, s'.bus.log);
    LastIdIsStart(q, s, q');
    PromiseNow(q', s');
    assert Served(q, s) + (s'.emitted + rest) == Served(q, s) + s'.emitted + rest;
  }

  lemma LastIdIsStart(q: Query, s: State, q': Query)
    requires Honest(q, s) && q' == q.(after := Some(s.lastId))
    ensures StartId(q') == s.lastId
  {
  }

  lemma {:induction false} LogOnlyGrows(q: Query, s: State, script: seq<Action>)
    ensures s.bus.log <= Run(q, s, script).bus.log
    ensures ValidLog(s.bus.log) ==> ValidLog(Run(q, s, script).bus.log)
    decreases |script|
  {
    if script != [] {
      var s' := Step(q, s, script[0]);
      if script[0].Turn? { TurnAdvances(q, s, script[0].readFails); }
      assert s.bus.log <= s'.bus.log && (ValidLog(s.bus.log) ==> ValidLog(s'.bus.log));
      LogOnlyGrows(q, s', script[1..]);
    }
  }

  // The promise made of one log stays true of every longer one.
  lemma {:induction false} PromiseGrows(log: seq<Event>, more: seq<Event>, line: Option<string>, from: int,
                                        served: seq<Event>, lo: int)
    requires After(log, line, from) == served + After(log, line, lo)
    requires from == lo || forall i :: 0 <= i < |more| ==> from < more[i].id && lo < more[i].id
    ensures After(log + more, line, from) == served + After(log + more, line, lo)
    decreases |more|
  {
    if more == [] {
      assert log + more == log;
    } else {
      var rest, e := more[..|more| - 1], more[|more| - 1];
      PromiseGrows(log, rest, line, from, served, lo);
      assert log + more == (log + rest) + [e];
      BothGrow(log + rest, e, line, from, served, lo);
    }
  }

  lemma PromiseNow(q: Query, s: State)
    requires Anchored(q, s) && GapFree(q, s)
    ensures After(s.bus.log, q.line, Start(q, s)) == Served(q, s) + After(s.bus.log, q.line, s.lastId)
  {
  }

  lemma PromiseLater(q: Query, s: State, log: seq<Event>)
    requires Honest(q, s) && Anchored(q, s) && GapFree(q, s) && s.bus.log <= log && ValidLog(log)
    ensures After(log, q.line, Start(q, s)) == Served(q, s) + After(log, q.line, s.lastId)
  {
    var more := log[|s.bus.log|..];
    PromiseNow(q, s);
    LaterIsAbove(q, s, log);
    PromiseGrows(s.bus.log, more, q.line, Start(q, s), Served(q, s), s.lastId);
    assert s.bus.log + more == log;
  }

  lemma LaterIsAbove(q: Query, s: State, log: seq<Event>)
    requires Honest(q, s) && Anchored(q, s) && s.bus.log <= log && ValidLog(log)
    ensures var more := log[|s.bus.log|..];
            Start(q, s) == s.lastId
            || forall i :: 0 <= i < |more| ==> Start(q, s) < more[i].id && s.lastId < more[i].id
  {
    if s.emitted != [] {
      var last := s.emitted[|s.emitted| - 1];
      var i :| 0 <= i < |s.bus.log| && s.bus.log[i] == last;
      assert log[i] == last && s.lastId == last.id && s.emitted[0] in s.emitted;
    }
  }

  // ---- Caught up, exactly ----------------------------------------------------------------

  // The event's broadcast is still to come, or waits for the receiver.
  predicate Outstanding(s: State, e: Event) {
    e in s.bus.unsent || exists k :: s.next <= k < |s.bus.sent| && s.bus.sent[k] == e
  }

  predicate IsBehind(q: Query, s: State, e: Event) {
    Matches(e, q.line) && e.id > Horizon(s) && !Outstanding(s, e)
  }

  // Something the client lacks, and no broadcast will bring.
  predicate LeftBehind(q: Query, s: State) {
    exists i :: 0 <= i < |s.bus.log| && IsBehind(q, s, s.bus.log[i])
  }

  // Whether the latest history read failed with something left behind; a client without a starting
  // id is also asked when its first event arrives.
  predicate NextOwes(q: Query, s: State, a: Action, owes: bool) {
    if a.Turn? && ReadsHistory(s) then a.readFails && LeftBehind(q, s)
    else if !Anchored(q, s) && Anchored(q, Step(q, s, a)) then LeftBehind(q, Step(q, s, a))
    else owes
  }

  predicate Owes(q: Query, s: State, script: seq<Action>, owes: bool)
    decreases |script|
  {
    if script == [] then owes else Owes(q, Step(q, s, script[0]), script[1..], NextOwes(q, s, script[0], owes))
  }

  ghost predicate Running(q: Query, s: State) {
    && Paged(q, s) && s.next <= |s.bus.sent|
    && (s.phase in {Receiving, Replaying} ==> !s.replaying)
    && (s.phase == Opening ==> s.replaying == q.after.Some?)
  }

  // Unless a read is still to come, what is owed is exactly what is left behind.
  ghost predicate Accounts(q: Query, s: State, owes: bool) {
    Anchored(q, s) && s.phase in {Draining, Receiving} && !s.replaying ==> (LeftBehind(q, s) <==> owes)
  }

  lemma StepStaysRunning(q: Query, s: State, a: Action)
    requires Running(q, s) && ReadsCurrent(q, s, a)
    ensures Running(q, Step(q, s, a))
  {
    StepStaysPaged(q, s, a);
    StepKeepsPlace(q, s, a);
  }

  lemma StepKeepsPlace(q: Query, s: State, a: Action)
    requires s.next <= |s.bus.sent| && (s.phase in {Receiving, Replaying} ==> !s.replaying)
    requires s.phase == Opening ==> s.replaying == q.after.Some?
    ensures var s' := Step(q, s, a);
            && s'.next <= |s'.bus.sent| && (s'.phase in {Receiving, Replaying} ==> !s'.replaying)
            && (s'.phase == Opening ==> s'.replaying == q.after.Some?)
  {
  }

  // What is left behind depends on the log, on what is outstanding and on the horizon.
  lemma SameBehind(q: Query, s: State, s': State)
    requires s'.bus.log == s.bus.log && Horizon(s') == Horizon(s)
    requires forall e :: Outstanding(s, e) <==> Outstanding(s', e)
    ensures LeftBehind(q, s) <==> LeftBehind(q, s')
  {
    if LeftBehind(q, s) {
      var i :| 0 <= i < |s.bus.log| && IsBehind(q, s, s.bus.log[i]);
      assert IsBehind(q, s', s'.bus.log[i]);
    }
    if LeftBehind(q, s') {
      var i :| 0 <= i < |s'.bus.log| && IsBehind(q, s', s'.bus.log[i]);
      assert IsBehind(q, s, s.bus.log[i]);
    }
  }

  lemma CommitBehind(q: Query, s: State, e: Event)
    ensures var s' := s.(bus := s.bus.(log := s.bus.log + [e], unsent := s.bus.unsent + [e]));
            LeftBehind(q, s') ==> LeftBehind(q, s)
    ensures var s' := s.(bus := s.bus.(log := s.bus.log + [e], unsent := s.bus.unsent + [e]));
            LeftBehind(q, s) && e !in s.bus.log ==> LeftBehind(q, s')
  {
    var s' := s.(bus := s.bus.(log := s.bus.log + [e], unsent := s.bus.unsent + [e]));
    if LeftBehind(q, s') {
      var i :| 0 <= i < |s'.bus.log| && IsBehind(q, s', s'.bus.log[i]);
      assert e in s'.bus.unsent && s'.bus.log[i] != e;
      assert IsBehind(q, s, s.bus.log[i]);
    }
    if LeftBehind(q, s) && e !in s.bus.log {
      var i :| 0 <= i < |s.bus.log| && IsBehind(q, s, s.bus.log[i]);
      assert s'.bus.log[i] == s.bus.log[i] && IsBehind(q, s', s'.bus.log[i]);
    }
  }

  lemma SendOutstanding(q: Query, s: State, i: nat, e: Event)
    requires i < |s.bus.unsent| && s.next <= |s.bus.sent|
    ensures Outstanding(s, e) <==> Outstanding(Step(q, s, Send(i)), e)
  {
    var s' := Step(q, s, Send(i));
    var x := s.bus.unsent[i];
    assert s.bus.unsent == s.bus.unsent[..i] + [x] + s.bus.unsent[i + 1..];
    assert s'.bus.sent[|s.bus.sent|] == x;
    assert forall k :: 0 <= k < |s.bus.sent| ==> s'.bus.sent[k] == s.bus.sent[k];
  }

  lemma OtherAccounts(q: Query, s: State, a: Action, owes: bool)
    requires Running(q, s) && Accounts(q, s, owes) && !a.Turn?
    ensures Accounts(q, Step(q, s, a), owes)
  {
    match a
    case Commit(e) => if CanCommit(s.bus, e) { CommitBehind(q, s, e); }
    case Send(i) =>
      if i < |s.bus.unsent| {
        forall e ensures Outstanding(s, e) <==> Outstanding(Step(q, s, a), e) { SendOutstanding(q, s, i, e); }
        SameBehind(q, s, Step(q, s, a));
      }
    case Shutdown => SameBehind(q, s, Step(q, s, a));
  }

  lemma DrainAccounts(q: Query, s: State, fails: bool, owes: bool)
    requires Running(q, s) && Accounts(q, s, owes) && s.phase == Draining && Anchored(q, s)
    requires ReadsCurrent(q, s, Turn(fails))
    ensures Accounts(q, Drain(q, s, fails), NextOwes(q, s, Turn(fails), owes))
  {
    var s' := Drain(q, s, fails);
    if s.pending != [] {
      PageFront(s.bus.log, q.line, s.lastId, s.pending);
      SameBehind(q, s, s');
    } else if !s.shutdown && s.replaying && !fails {
      PageOfLog(q, s);
      if s'.phase == Receiving { NothingLeft(q, s'); }
    } else {
      SameBehind(q, s, s');
    }
  }

  lemma NothingLeft(q: Query, s: State)
    requires After(s.bus.log, q.line, s.lastId) == [] && s.pending == []
    ensures !LeftBehind(q, s)
  {
    AfterMembers(s.bus.log, q.line, s.lastId);
  }

  // Live delivery that passes over nothing leaves nothing new behind.
  lemma DeliveryAccounts(q: Query, s: State)
    requires Honest(q, s) && s.pending == [] && s.next < |s.bus.sent|
    requires var e := s.bus.sent[s.next]; Matches(e, q.line) && e.id > s.lastId && !PassesOver(q, s, e)
    requires Anchored(q, s)
    ensures LeftBehind(q, s) <==> LeftBehind(q, Emit(s.(next := s.next + 1), s.bus.sent[s.next]))
  {
    var e := s.bus.sent[s.next];
    var s' := Emit(s.(next := s.next + 1), e);
    assert e in s.bus.sent && e in s.bus.log;
    if LeftBehind(q, s) {
      var i :| 0 <= i < |s.bus.log| && IsBehind(q, s, s.bus.log[i]);
      DeliveredBehind(q, s, i);
    }
    if LeftBehind(q, s') {
      var i :| 0 <= i < |s'.bus.log| && IsBehind(q, s', s'.bus.log[i]);
      DeliveredBehind(q, s, i);
    }
  }

  lemma DeliveredBehind(q: Query, s: State, i: nat)
    requires s.pending == [] && s.next < |s.bus.sent| && i < |s.bus.log| && Ascending(s.bus.log) && Anchored(q, s)
    requires var e := s.bus.sent[s.next];
             e in s.bus.log && Matches(e, q.line) && e.id > s.lastId && !PassesOver(q, s, e)
    ensures IsBehind(q, s, s.bus.log[i]) <==>
              IsBehind(q, Emit(s.(next := s.next + 1), s.bus.sent[s.next]), s.bus.log[i])
  {
    SameIdSameEvent(s.bus.log, i, s.bus.sent[s.next]);
  }

  lemma SameIdSameEvent(log: seq<Event>, i: nat, e: Event)
    requires Ascending(log) && i < |log| && e in log
    ensures log[i].id == e.id ==> log[i] == e
  {
    if log[i].id == e.id {
      var j :| 0 <= j < |log| && log[j] == e;
      assert i == j;
    }
  }

  lemma ReceiveAccounts(q: Query, s: State, owes: bool)
    requires Running(q, s) && Accounts(q, s, owes) && s.phase == Receiving && Anchored(q, s)
    requires !Skips(q, s, Turn(false))
    ensures Accounts(q, Receive(q, s), owes)
  {
    if !s.shutdown && s.next < |s.bus.sent| <= s.next + CHANNEL_CAPACITY {
      var e := s.bus.sent[s.next];
      if e.id <= s.lastId || !Matches(e, q.line) {
        DroppedAccounts(q, s);
      } else {
        DeliveryAccounts(q, s);
      }
    }
  }

  lemma DroppedAccounts(q: Query, s: State)
    requires s.pending == [] && s.next < |s.bus.sent|
    requires var e := s.bus.sent[s.next]; e.id <= s.lastId || !Matches(e, q.line)
    ensures LeftBehind(q, s) <==> LeftBehind(q, s.(phase := Draining, next := s.next + 1))
  {
    var s' := s.(phase := Draining, next := s.next + 1);
    if LeftBehind(q, s) {
      var i :| 0 <= i < |s.bus.log| && IsBehind(q, s, s.bus.log[i]);
      assert IsBehind(q, s', s'.bus.log[i]);
    }
    if LeftBehind(q, s') {
      var i :| 0 <= i < |s'.bus.log| && IsBehind(q, s', s'.bus.log[i]);
      assert IsBehind(q, s, s.bus.log[i]);
    }
  }

  lemma TurnAccounts(q: Query, s: State, fails: bool, owes: bool)
    requires Running(q, s) && Accounts(q, s, owes) && Anchored(q, s)
    requires ReadsCurrent(q, s, Turn(fails)) && !Skips(q, s, Turn(fails))
    ensures Accounts(q, TurnOf(q, s, fails), NextOwes(q, s, Turn(fails), owes))
  {
    match s.phase
    case Opening =>
    case Draining => DrainAccounts(q, s, fails, owes);
    case Receiving => ReceiveAccounts(q, s, owes);
    case Replaying => if fails { SameBehind(q, s, Replay(q, s, true)); }
    case Ended =>
  }

  lemma StepAccounts(q: Query, s: State, a: Action, owes: bool)
    requires Running(q, s) && Accounts(q, s, owes) && ReadsCurrent(q, s, a) && !Skips(q, s, a)
    ensures Accounts(q, Step(q, s, a), NextOwes(q, s, a, owes))
  {
    if Anchored(q, s) {
      if a.Turn? { TurnAccounts(q, s, a.readFails, owes); } else { OtherAccounts(q, s, a, owes); }
    } else {
      FirstEventAccounts(q, s, a, owes);
    }
  }

  // A history read hands out nothing, so the first event comes with no read.
  lemma FirstEventAccounts(q: Query, s: State, a: Action, owes: bool)
    requires !Anchored(q, s)
    ensures Accounts(q, Step(q, s, a), NextOwes(q, s, a, owes))
  {
  }

  lemma {:induction false} RunAccounts(q: Query, s: State, script: seq<Action>, owes: bool)
    requires Running(q, s) && Accounts(q, s, owes) && CurrentRun(q, s, script) && !SkipsIn(q, s, script)
    ensures Accounts(q, Run(q, s, script), Owes(q, s, script, owes))
    decreases |script|
  {
    if script != [] {
      var a := script[0];
      StepAccounts(q, s, a, owes);
      StepStaysRunning(q, s, a);
      RunAccounts(q, Step(q, s, a), script[1..], NextOwes(q, s, a, owes));
    }
  }

  predicate Idle(s: State) {
    s.phase == Receiving && s.next == |s.bus.sent| && s.bus.unsent == []
  }

  lemma IdleIsBehind(q: Query, s: State)
    requires Idle(s) && s.pending == []
    ensures LeftBehind(q, s) <==> After(s.bus.log, q.line, s.lastId) != []
  {
    AfterMembers(s.bus.log, q.line, s.lastId);
    if After(s.bus.log, q.line, s.lastId) != [] {
      var i :| 0 <= i < |s.bus.log| && Matches(s.bus.log[i], q.line) && s.bus.log[i].id > s.lastId;
      assert IsBehind(q, s, s.bus.log[i]);
    }
  }

  // The client holds the whole history above its start exactly when it has no gap and nothing is
  // still above its position.
  lemma WholeExactly(q: Query, s: State)
    requires Honest(q, s) && Anchored(q, s)
    ensures Served(q, s) == After(s.bus.log, q.line, Start(q, s)) <==>
              GapFree(q, s) && After(s.bus.log, q.line, s.lastId) == []
  {
    var whole, rest := After(s.bus.log, q.line, Start(q, s)), After(s.bus.log, q.line, s.lastId);
    AfterMembers(s.bus.log, q.line, Start(q, s));
    AfterMembers(s.bus.log, q.line, s.lastId);
    StartsBelow(q, s);
    GapFreeIs(q, s);
    HasMember(rest);
    assert rest == [] ==> Served(q, s) + rest == Served(q, s);
    assert forall e :: e in rest ==> e in whole;
  }

  lemma HasMember(events: seq<Event>)
    ensures events != [] ==> exists e :: e in events
  {
    if events != [] { assert events[0] in events; }
  }

  lemma StartsBelow(q: Query, s: State)
    requires Honest(q, s) && Anchored(q, s)
    ensures Start(q, s) <= s.lastId && forall e :: e in Served(q, s) ==> e.id <= s.lastId
  {
  }

  lemma GapFreeIs(q: Query, s: State)
    requires Honest(q, s) && Anchored(q, s)
    ensures GapFree(q, s) <==>
              After(s.bus.log, q.line, Start(q, s)) == Served(q, s) + After(s.bus.log, q.line, s.lastId)
  {
    if s.emitted != [] { assert s.emitted[0] in s.emitted; }
  }

  // A parked client with no broadcast outstanding holds the whole history above its start if and
  // only if no live delivery passed over an event of its line and its latest history read did not
  // fail with something left behind, whatever the order of the broadcasts.
  lemma CaughtUpExactly(q: Query, bus: Bus, script: seq<Action>)
    requires Attachable(bus) && CurrentRun(q, Subscribe(q, bus), script)
    ensures var s := Run(q, Subscribe(q, bus), script);
            Idle(s) && Anchored(q, s) ==>
              (Served(q, s) == After(s.bus.log, q.line, Start(q, s)) <==>
                 !SkipsLiveIn(q, Subscribe(q, bus), script) && !Owes(q, Subscribe(q, bus), script, false))
  {
    var s0, s := Subscribe(q, bus), Run(q, Subscribe(q, bus), script);
    if Idle(s) && Anchored(q, s) {
      SubscribePaged(q, bus);
      RunStaysPaged(q, s0, script);
      GapFreeExactly(q, bus, script);
      WholeExactly(q, s);
      if !SkipsLiveIn(q, s0, script) {
        OnlyLiveSkips(q, s0, script);
        RunAccounts(q, s0, script, false);
        RunStaysRunning(q, s0, script);
        IdleIsBehind(q, s);
      }
    }
  }

  lemma {:induction false} RunStaysRunning(q: Query, s: State, script: seq<Action>)
    requires Running(q, s) && CurrentRun(q, s, script)
    ensures Running(q, Run(q, s, script))
    decreases |script|
  {
    if script != [] {
      StepStaysRunning(q, s, script[0]);
      RunStaysRunning(q, Step(q, s, script[0]), script[1..]);
    }
  }

  // ---- What holds in every environment -----------------------------------------------

  // With no assumption on order, failures or retention, the client still sees strictly
  // ascending ids above its start, each a committed event of its own line.
  ghost predicate Truthful(q: Query, s: State) {
    && Ascending(s.emitted)
    && (forall e :: e in s.emitted ==> e in s.bus.log && Matches(e, q.line) && StartId(q) < e.id <= s.lastId)
    && StartId(q) <= s.lastId
  }

  ghost predicate Sourced(q: Query, s: State) {
    && ValidLog(s.bus.log)
    && (forall e :: e in s.bus.sent || e in s.bus.unsent ==> e in s.bus.log)
    && (forall e :: e in s.pending ==> e in s.bus.log && Matches(e, q.line))
  }

  lemma PagesAreSourced(log: seq<Event>, line: Option<string>, lo: int)
    ensures forall e :: e in HistoryAfter(log, line, lo) || e in Recent(log, line) ==> e in log && Matches(e, line)
  {
    AfterMembers(Retained(log), line, lo);
    AfterMembers(Retained(log), line, 0);
    assert forall e :: e in Retained(log) ==> e in log;
  }

  lemma EmitStaysTruthful(q: Query, s: State, e: Event)
    requires Truthful(q, s) && e.id > s.lastId && e in s.bus.log && Matches(e, q.line)
    ensures Truthful(q, Emit(s, e))
  {
  }

  lemma DrainStaysTruthful(q: Query, s: State, readFails: bool)
    requires Truthful(q, s) && Sourced(q, s) && s.phase == Draining
    ensures Truthful(q, Drain(q, s, readFails)) && Sourced(q, Drain(q, s, readFails))
  {
    if s.pending != [] {
      assert s.pending[0] in s.pending;
      if s.pending[0].id > s.lastId {
        EmitStaysTruthful(q, s.(pending := s.pending[1..]), s.pending[0]);
      }
    } else {
      PagesAreSourced(s.bus.log, q.line, s.lastId);
    }
  }

  lemma ReceiveStaysTruthful(q: Query, s: State)
    requires Truthful(q, s) && Sourced(q, s) && s.phase == Receiving
    ensures Truthful(q, Receive(q, s)) && Sourced(q, Receive(q, s))
  {
  }

  lemma TurnStaysTruthful(q: Query, s: State, readFails: bool)
    requires Truthful(q, s) && Sourced(q, s)
    ensures Truthful(q, TurnOf(q, s, readFails)) && Sourced(q, TurnOf(q, s, readFails))
  {
    match s.phase
    case Opening => PagesAreSourced(s.bus.log, q.line, s.lastId);
    case Draining => DrainStaysTruthful(q, s, readFails);
    case Receiving => ReceiveStaysTruthful(q, s);
    case Replaying => PagesAreSourced(s.bus.log, q.line, s.lastId);
    case Ended =>
  }

  lemma OtherStaysTruthful(q: Query, s: State, a: Action)
    requires Truthful(q, s) && Sourced(q, s) && !a.Turn?
    ensures Truthful(q, Step(q, s, a)) && Sourced(q, Step(q, s, a))
  {
    LogStays(q, s, a);
    EmitsStep(q, s, a);
  }

  lemma {:induction false} AlwaysTruthful(q: Query, s: State, script: seq<Action>)
    requires Truthful(q, s) && Sourced(q, s)
    ensures Truthful(q, Run(q, s, script)) && Sourced(q, Run(q, s, script))
    decreases |script|
  {
    if script != [] {
      if script[0].Turn? {
        TurnStaysTruthful(q, s, script[0].readFails);
      } else {
        OtherStaysTruthful(q, s, script[0]);
      }
      AlwaysTruthful(q, Step(q, s, script[0]), script[1..]);
    }
  }

  // ---- Why each assumption is there ---------------------------------------------------

  // An event of the line that was passed over can no longer reach the client.
  predicate Lost(q: Query, s: State, e: Event) {
    e in s.bus.log && Matches(e, q.line) && StartId(q) < e.id <= s.lastId && e !in s.emitted
  }

  // A turn hands out nothing, or one event above everything handed out before.
  lemma TurnAdvances(q: Query, s: State, readFails: bool)
    ensures var s' := TurnOf(q, s, readFails);
            && s'.bus == s.bus
            && ((s'.lastId == s.lastId && s'.emitted == s.emitted)
                || (s.emitted <= s'.emitted && |s'.emitted| == |s.emitted| + 1
                    && s'.emitted[|s.emitted|].id == s'.lastId > s.lastId))
  {
  }

  lemma StepKeepsLoss(q: Query, s: State, e: Event, a: Action)
    requires Lost(q, s, e)
    ensures Lost(q, Step(q, s, a), e)
  {
    LogStays(q, s, a);
    if a.Turn? {
      TurnAdvances(q, s, a.readFails);
      StillLost(q, s, TurnOf(q, s, a.readFails), e);
    }
  }

  lemma StillLost(q: Query, s: State, s': State, e: Event)
    requires Lost(q, s, e) && s'.bus == s.bus && s'.lastId >= s.lastId
    requires s'.emitted == s.emitted
             || (s.emitted <= s'.emitted && |s'.emitted| == |s.emitted| + 1 && s'.emitted[|s.emitted|].id > s.lastId)
    ensures Lost(q, s', e)
  {
  }

  lemma {:induction false} LostForGood(q: Query, s: State, e: Event, script: seq<Action>)
    requires Lost(q, s, e)
    ensures Lost(q, Run(q, s, script), e)
    decreases |script|
  {
    if script != [] {
      StepKeepsLoss(q, s, e, script[0]);
      LostForGood(q, Step(q, s, script[0]), e, script[1..]);
    }
  }

  // What live delivery hands out of a receiver queue: the running maxima.
  function Delivered(queue: seq<Event>, lastId: int): seq<Event> {
    if queue == [] then []
    else if queue[0].id <= lastId then Delivered(queue[1..], lastId)
    else [queue[0]] + Delivered(queue[1..], queue[0].id)
  }

  predicate AscendingFrom(queue: seq<Event>, lastId: int) {
    queue == [] || (lastId < queue[0].id && AscendingFrom(queue[1..], queue[0].id))
  }

  function Pump(n: nat): seq<Action> {
    if n == 0 then [] else [Turn(false), Turn(false)] + Pump(n - 1)
  }

  // Live delivery hands out the whole queue exactly when it arrives in id order, and leaves no gap
  // exactly when what it hands out is the next stretch of the line's history.
  lemma LiveDeliveryExact(q: Query, s: State)
    requires s.phase == Receiving && s.pending == [] && !s.replaying && !s.shutdown
    requires s.next <= |s.bus.sent| <= s.next + CHANNEL_CAPACITY
    requires forall e :: e in s.bus.sent[s.next..] ==> Matches(e, q.line)
    ensures var queue, s' := s.bus.sent[s.next..], Run(q, s, Pump(|s.bus.sent| - s.next));
            && s'.emitted == s.emitted + Delivered(queue, s.lastId)
            && (s'.emitted == s.emitted + queue <==> AscendingFrom(queue, s.lastId))
            && (q.after.Some? && Honest(q, s) && GapFree(q, s) ==>
                  (GapFree(q, s') <==> Delivered(queue, s.lastId) <= After(s.bus.log, q.line, s.lastId)))
  {
    var queue := s.bus.sent[s.next..];
    LiveDelivery(q, s);
    if q.after.Some? && Honest(q, s) && GapFree(q, s) { DeliveryGap(q, s); }
    DeliveredAll(queue, s.lastId);
    assert (s.emitted + Delivered(queue, s.lastId))[|s.emitted|..] == Delivered(queue, s.lastId);
    assert (s.emitted + queue)[|s.emitted|..] == queue;
  }

  // The last id a delivery leaves behind.
  function LastDelivered(queue: seq<Event>, lastId: int): int {
    if queue == [] then lastId
    else LastDelivered(queue[1..], if queue[0].id <= lastId then lastId else queue[0].id)
  }

  lemma {:induction false} DeliveredIsNext(log: seq<Event>, line: Option<string>, queue: seq<Event>, lastId: int)
    requires Ascending(log)
    ensures After(log, line, lastId) == Delivered(queue, lastId) + After(log, line, LastDelivered(queue, lastId))
       <==> Delivered(queue, lastId) <= After(log, line, lastId)
    decreases |queue|
  {
    if queue != [] {
      if queue[0].id <= lastId {
        DeliveredIsNext(log, line, queue[1..], lastId);
      } else {
        var e, rest, all := queue[0], Delivered(queue[1..], queue[0].id), After(log, line, lastId);
        DeliveredIsNext(log, line, queue[1..], e.id);
        if [e] + rest <= all {
          AfterHead(log, line, lastId);
          assert all[0] == e && all[1..] == After(log, line, e.id) && rest <= all[1..];
          assert all == [e] + all[1..];
        }
      }
    }
  }

  lemma DeliveryGap(q: Query, s: State)
    requires s.phase == Receiving && s.pending == [] && !s.replaying && !s.shutdown
    requires s.next <= |s.bus.sent| <= s.next + CHANNEL_CAPACITY
    requires forall e :: e in s.bus.sent[s.next..] ==> Matches(e, q.line)
    requires q.after.Some? && Honest(q, s) && GapFree(q, s)
    ensures var queue, s' := s.bus.sent[s.next..], Run(q, s, Pump(|s.bus.sent| - s.next));
            GapFree(q, s') <==> Delivered(queue, s.lastId) <= After(s.bus.log, q.line, s.lastId)
  {
    var queue, s' := s.bus.sent[s.next..], Run(q, s, Pump(|s.bus.sent| - s.next));
    var all, rest := After(s.bus.log, q.line, s.lastId), After(s.bus.log, q.line, s'.lastId);
    LiveDelivery(q, s);
    DeliveredIsNext(s.bus.log, q.line, queue, s.lastId);
    assert s.emitted + Delivered(queue, s.lastId) + rest == s.emitted + (Delivered(queue, s.lastId) + rest);
    assert (s.emitted + all)[|s.emitted|..] == all;
    assert (s.emitted + (Delivered(queue, s.lastId) + rest))[|s.emitted|..] == Delivered(queue, s.lastId) + rest;
  }

  lemma {:induction false} LiveDelivery(q: Query, s: State)
    requires s.phase == Receiving && s.pending == [] && !s.replaying && !s.shutdown
    requires s.next <= |s.bus.sent| <= s.next + CHANNEL_CAPACITY
    requires forall e :: e in s.bus.sent[s.next..] ==> Matches(e, q.line)
    ensures var s' := Run(q, s, Pump(|s.bus.sent| - s.next));
            && s'.emitted == s.emitted + Delivered(s.bus.sent[s.next..], s.lastId)
            && s'.lastId == LastDelivered(s.bus.sent[s.next..], s.lastId) && s'.bus == s.bus
    decreases |s.bus.sent| - s.next
  {
    var queue := s.bus.sent[s.next..];
    if queue != [] {
      assert queue[0] == s.bus.sent[s.next] && queue[1..] == s.bus.sent[s.next + 1..];
      var s' := PumpOne(q, s, Pump(|queue| - 1));
      LiveDelivery(q, s');
      assert s'.emitted + Delivered(queue[1..], s'.lastId) == s.emitted + Delivered(queue, s.lastId);
    }
  }

  lemma PumpOne(q: Query, s: State, rest: seq<Action>) returns (s': State)
    requires s.phase == Receiving && s.pending == [] && !s.replaying && !s.shutdown
    requires s.next < |s.bus.sent| <= s.next + CHANNEL_CAPACITY
    requires Matches(s.bus.sent[s.next], q.line)
    ensures var e := s.bus.sent[s.next];
            s' == if e.id <= s.lastId then s.(next := s.next + 1)
                  else s.(next := s.next + 1, lastId := e.id, emitted := s.emitted + [e])
    ensures Run(q, s, [Turn(false), Turn(false)] + rest) == Run(q, s', rest)
  {
    var s1 := Step(q, s, Turn(false));
    s' := Step(q, s1, Turn(false));
    assert [Turn(false), Turn(false)] + rest == [Turn(false)] + ([Turn(false)] + rest);
    RunCons(q, s, Turn(false), [Turn(false)] + rest);
    RunCons(q, s1, Turn(false), rest);
  }

  lemma {:induction false} DeliveredAll(queue: seq<Event>, lastId: int)
    ensures |Delivered(queue, lastId)| <= |queue|
    ensures Delivered(queue, lastId) == queue <==> AscendingFrom(queue, lastId)
  {
    if queue != [] {
      if queue[0].id <= lastId {
        DeliveredAll(queue[1..], lastId);
      } else {
        DeliveredAll(queue[1..], queue[0].id);
        assert queue == [queue[0]] + queue[1..];
        assert ([queue[0]] + Delivered(queue[1..], queue[0].id))[1..] == Delivered(queue[1..], queue[0].id);
      }
    }
  }

  // Two transactions that commit in one order and broadcast in the other cost the
  // client the first event, for good.
  lemma BroadcastOrderMatters(a: Event, b: Event, more: seq<Action>)
    requires 0 < a.id < b.id
    ensures var q := Query(None, Some(0));
            var script := [Turn(false)] + ([Turn(false)] + ([Commit(a)] + ([Commit(b)] + ([Send(1)] + [Turn(false)]))));
            var s := Run(q, Run(q, Subscribe(q, Bus([], 0, [], [])), script), more);
            Lost(q, s, a) && b in s.bus.log
  {
    var q := Query(None, Some(0));
    var s0 := Subscribe(q, Bus([], 0, [], []));
    var idle := s0.(phase := Receiving, replaying := false);
    var rest := [Commit(a)] + ([Commit(b)] + ([Send(1)] + [Turn(false)]));
    assert Run(q, s0, [Turn(false)] + ([Turn(false)] + rest)) == Run(q, idle, rest) by {
      RunCons(q, s0, Turn(false), [Turn(false)] + rest);
      RunCons(q, s0.(phase := Draining), Turn(false), rest);
    }
    var s := SwappedBroadcast(q, idle, a, b);
    LostForGood(q, s, a, more);
    LogOnlyGrows(q, s, more);
  }

  lemma SwappedBroadcast(q: Query, s: State, a: Event, b: Event) returns (s': State)
    requires q.line == None && s.phase == Receiving && !s.shutdown && s.bus == Bus([], 0, [], []) && s.next == 0
    requires s.emitted == [] && StartId(q) == s.lastId == 0 < a.id < b.id
    ensures s' == Run(q, s, [Commit(a)] + ([Commit(b)] + ([Send(1)] + [Turn(false)])))
    ensures Lost(q, s', a) && b in s'.bus.log
  {
    var s2 := s.(bus := Bus([a, b], 0, [], [a, b]));
    var s3 := s.(bus := Bus([a, b], 0, [b], [a]));
    s' := Emit(s3.(next := 1), b);
    BothCommitted(q, s, a, b, [Send(1)] + [Turn(false)]);
    assert Step(q, s2, Send(1)) == s3 by { assert [a, b][..1] + [a, b][2..] == [a] && [] + [b] == [b]; }
    RunCons(q, s2, Send(1), [Turn(false)]);
    assert [Turn(false)] + [] == [Turn(false)];
    RunCons(q, s3, Turn(false), []);
    assert b in [a, b] && a in [a, b];
  }

  lemma BothCommitted(q: Query, s: State, a: Event, b: Event, rest: seq<Action>)
    requires s.bus == Bus([], 0, [], []) && 0 < a.id < b.id
    ensures Run(q, s, [Commit(a)] + ([Commit(b)] + rest)) == Run(q, s.(bus := Bus([a, b], 0, [], [a, b])), rest)
  {
    var s1 := s.(bus := Bus([a], 0, [], [a]));
    assert Step(q, s, Commit(a)) == s1 by { assert [] + [a] == [a]; }
    assert Step(q, s1, Commit(b)) == s.(bus := Bus([a, b], 0, [], [a, b])) by { assert [a] + [b] == [a, b]; }
    RunCons(q, s, Commit(a), [Commit(b)] + rest);
    RunCons(q, s1, Commit(b), rest);
  }

  lemma RunCons(q: Query, s: State, a: Action, rest: seq<Action>)
    ensures Run(q, s, [a] + rest) == Run(q, Step(q, s, a), rest)
  {
  }

  lemma {:induction false} RunSplit(q: Query, s: State, script: seq<Action>, k: nat)
    requires k <= |script|
    ensures Run(q, s, script) == Run(q, Run(q, s, script[..k]), script[k..])
    decreases k
  {
    if k > 0 {
      RunSplit(q, Step(q, s, script[0]), script[1..], k - 1);
      assert script[..k][1..] == script[1..][..k - 1];
    }
  }

  // The next page of the line's history, were nothing ever deleted.
  function NextPage(log: seq<Event>, line: Option<string>, lo: int): seq<Event> {
    var rows := After(log, line, lo);
    if |rows| <= PAGE_LIMIT then rows else rows[..PAGE_LIMIT]
  }

  // A history read gives the next page exactly when retention has deleted nothing the client
  // still needs.
  lemma PrunedPage(q: Query, s: State)
    requires ValidLog(s.bus.log)
    ensures HistoryAfter(s.bus.log, q.line, s.lastId) == NextPage(s.bus.log, q.line, s.lastId) <==> NothingPruned(q, s)
  {
    var log, floor := s.bus.log, Floor(s.bus.log);
    if NothingPruned(q, s) {
      AfterDrop(log, q.line, s.lastId, floor);
    } else {
      var i :| 0 <= i < floor && Matches(log[i], q.line) && log[i].id > s.lastId;
      PrunedPageDiffers(log, q.line, s.lastId, i);
    }
  }

  lemma PrunedPageDiffers(log: seq<Event>, line: Option<string>, lo: int, i: nat)
    requires Ascending(log) && i < Floor(log) && Matches(log[i], line) && log[i].id > lo
    ensures HistoryAfter(log, line, lo) != NextPage(log, line, lo)
  {
    FirstIsSmallest(log, line, lo, log[i]);
    AfterMembers(Retained(log), line, lo);
    var page := HistoryAfter(log, line, lo);
    assert NextPage(log, line, lo)[0] == After(log, line, lo)[0];
    if page != [] {
      assert page[0] in After(Retained(log), line, lo);
      RetainedIsNewer(log, page[0]);
    }
  }

  lemma RetainedIsNewer(log: seq<Event>, e: Event)
    requires Ascending(log) && e in Retained(log)
    ensures forall i :: 0 <= i < Floor(log) ==> log[i].id < e.id
  {
  }

  lemma FirstIsSmallest(log: seq<Event>, line: Option<string>, lo: int, e: Event)
    requires Ascending(log) && e in log && Matches(e, line) && e.id > lo
    ensures After(log, line, lo) != [] && After(log, line, lo)[0].id <= e.id
  {
    AfterMembers(log, line, lo);
    AfterHead(log, line, lo);
    AfterMembers(log, line, After(log, line, lo)[0].id);
  }

  // After lag, a failed history read resumes at the oldest retained broadcast and the
  // skipped events are gone.
  lemma LostToFailedReplay(q: Query, s: State, skipped: Event, more: seq<Action>)
    requires Inv(q, s) && Truthful(q, s) && s.phase == Replaying && !s.shutdown
    requires s.next < |s.bus.sent| <= s.next + CHANNEL_CAPACITY
    requires var e := s.bus.sent[s.next];
             Matches(e, q.line) && s.lastId < skipped.id < e.id
    requires skipped in s.bus.log && Matches(skipped, q.line)
    ensures Lost(q, Run(q, Run(q, s, [Turn(true), Turn(false), Turn(false)]), more), skipped)
  {
    var script := [Turn(true), Turn(false), Turn(false)];
    var s1 := Step(q, s, Turn(true));
    var s2 := Step(q, s1, Turn(false));
    var s3 := Step(q, s2, Turn(false));
    assert script[1..][1..] == [Turn(false)] && script[1..][1..][1..] == [];
    assert Run(q, s, script) == Run(q, s1, script[1..]) == Run(q, s2, script[1..][1..]) == s3;
    assert s3.emitted == s.emitted + [s.bus.sent[s.next]];
    LostForGood(q, s3, skipped, more);
  }

  // ---- The connection as the server runs it ---------------------------------------------

  class Connection {
    const query: Query
    var bus: Bus
    var phase: Phase
    var pending: seq<Event>
    var next: nat
    var lastId: int
    var replaying: bool
    var emitted: seq<Event>
    var shutdown: bool

    ghost function View(): State
      reads this
    {
      State(bus, phase, pending, next, lastId, replaying, emitted, shutdown)
    }

    constructor (query: Query, bus: Bus)
      ensures this.query == query && View() == Subscribe(query, bus)
    {
      this.query := query;
      this.bus := bus.(sent := []);
      phase, pending, next, lastId := Opening, [], 0, StartId(query);
      replaying, emitted, shutdown := query.after.Some?, [], false;
    }

    // One pass of the loop up to its next suspension point.
    method Poll(readFails: bool)
      modifies this
      ensures View() == TurnOf(query, old(View()), readFails)
    {
      if phase == Opening {
        phase, pending := Draining, [];
        if !readFails {
          pending := if query.after.Some? then HistoryAfter(bus.log, query.line, lastId)
            else Recent(bus.log, query.line);
        }
      } else if phase == Draining {
        if pending == [] && shutdown {
          phase := Ended;
        } else if pending != [] {
          var e := pending[0];
          pending := pending[1..];
          if e.id > lastId { Hand(e); }
        } else if replaying && !readFails {
          pending := HistoryAfter(bus.log, query.line, lastId);
          if pending == [] { replaying, phase := false, Receiving; }
        } else {
          replaying, phase := false, Receiving;
        }
      } else if phase == Receiving {
        if shutdown {
          phase := Ended;
        } else if next < |bus.sent| {
          if |bus.sent| - next > CHANNEL_CAPACITY {
            next, phase := |bus.sent| - CHANNEL_CAPACITY, Replaying;
          } else {
            var e := bus.sent[next];
            next, phase := next + 1, Draining;
            if e.id > lastId && Matches(e, query.line) { Hand(e); }
          }
        }
      } else if phase == Replaying {
        phase := Draining;
        if !readFails {
          pending := pending + HistoryAfter(bus.log, query.line, lastId);
          replaying := true;
        }
      }
    }

    method Hand(e: Event)
      modifies this`lastId, this`emitted, this`phase
      ensures lastId == e.id && emitted == old(emitted) + [e] && phase == Draining
    {
      lastId, emitted, phase := e.id, emitted + [e], Draining;
    }

    method Apply(a: Action)
      modifies this
      ensures View() == Step(query, old(View()), a)
    {
      match a
      case Turn(fails) => Poll(fails);
      case Shutdown => shutdown := true;
      case Commit(e) =>
        if CanCommit(bus, e) {
          bus := bus.(log := bus.log + [e], unsent := bus.unsent + [e]);
        }
      case Send(i) =>
        if i < |bus.unsent| {
          bus := bus.(sent := bus.sent + [bus.unsent[i]], unsent := bus.unsent[..i] + bus.unsent[i + 1..]);
        }
    }

    // The stream's lifetime against one interleaving of everything around it.
    method Serve(script: seq<Action>)
      requires Paged(query, View()) && GapFree(query, View())
      modifies this
      ensures View() == Run(query, old(View()), script)
      ensures GapFree(query, View()) <==> !SkipsIn(query, old(View()), script)
      ensures CurrentRun(query, old(View()), script) ==>
                (GapFree(query, View()) <==> !SkipsLiveIn(query, old(View()), script))
    {
      ghost var start := View();
      for i := 0 to |script|
        invariant View() == Run(query, start, script[..i])
      {
        RunSnoc(query, start, script, i);
        Apply(script[i]);
      }
      assert script[..|script|] == script;
      GapFreeByEmission(query, start, script);
      if CurrentRun(query, start, script) { OnlyLiveSkips(query, start, script); }
    }
  }

  lemma RunSnoc(q: Query, s: State, script: seq<Action>, i: nat)
    requires i < |script|
    ensures Run(q, s, script[..i + 1]) == Step(q, Run(q, s, script[..i]), script[i])
  {
    RunSplit(q, s, script[..i + 1], i);
    assert script[..i + 1][..i] == script[..i] && script[..i + 1][i..] == [script[i]] + [];
    RunCons(q, Run(q, s, script[..i]), script[i], []);
  }
}
