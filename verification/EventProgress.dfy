/**
 What a connection gets to: its opening page first and whole, everything retained after a lag,
 what is still pending after a shutdown, and, left to itself, the end of the history.
 */
module EventProgress {
  import opened Options
  import opened EventLog
  import opened EventStream

  predicate AllTurns(script: seq<Action>) {
    forall i :: 0 <= i < |script| ==> script[i].Turn?
  }

  predicate NoTurns(script: seq<Action>) {
    forall i :: 0 <= i < |script| ==> !script[i].Turn?
  }

  function Turns(n: nat): seq<Action> {
    if n == 0 then [] else [Turn(false)] + Turns(n - 1)
  }

  lemma {:induction false} TurnsAreTurns(n: nat)
    ensures |Turns(n)| == n && AllTurns(Turns(n))
  {
    if n > 0 { TurnsAreTurns(n - 1); }
  }

  // ---- Draining ---------------------------------------------------------------------------

  // The queue is handed over, entry by entry, whatever the reads would do.
  lemma {:induction false} DrainsPending(q: Query, s: State, script: seq<Action>)
    requires s.phase == Draining && AllTurns(script) && |script| == |s.pending|
    ensures Run(q, s, script) ==
            s.(pending := [], lastId := LastDelivered(s.pending, s.lastId),
               emitted := s.emitted + Delivered(s.pending, s.lastId))
    decreases |script|
  {
    if script != [] {
      var next := Step(q, s, script[0]);
      assert AllTurns(script[1..]) by { assert forall i :: 0 <= i < |script[1..]| ==> script[1..][i] == script[i + 1]; }
      DrainsPending(q, next, script[1..]);
      assert next.emitted + Delivered(next.pending, next.lastId) == s.emitted + Delivered(s.pending, s.lastId);
    }
  }

  lemma DrainsByTurns(q: Query, s: State)
    requires s.phase == Draining
    ensures Run(q, s, Turns(|s.pending|)) ==
            s.(pending := [], lastId := LastDelivered(s.pending, s.lastId),
               emitted := s.emitted + Delivered(s.pending, s.lastId))
  {
    TurnsAreTurns(|s.pending|);
    DrainsPending(q, s, Turns(|s.pending|));
  }

  // A shutdown ends the response once what was already buffered has been handed over, and a
  // parked one at once.
  lemma ShutdownDrains(q: Query, s: State, script: seq<Action>)
    requires s.shutdown && AllTurns(script) && |script| == |s.pending| + 1
    requires s.phase == Draining || (s.phase == Receiving && s.pending == [])
    ensures var end := Run(q, s, script);
            end.phase == Ended && end.emitted == s.emitted + Delivered(s.pending, s.lastId) && end.bus == s.bus
  {
    var n := |s.pending|;
    RunSplit(q, s, script, n);
    assert script[n..] == [script[n]] + [];
    RunCons(q, Run(q, s, script[..n]), script[n], []);
    if s.phase == Draining { DrainsPending(q, s, script[..n]); }
  }

  // ---- Lag ----------------------------------------------------------------------------------

  // A receiver that lagged, and whose history read then fails, resumes at the oldest broadcast
  // that the channel still holds.
  lemma LagResumesAtOldest(q: Query, s: State)
    requires s.phase == Receiving && s.pending == [] && !s.replaying && !s.shutdown
    requires |s.bus.sent| > s.next + CHANNEL_CAPACITY
    requires forall e :: e in s.bus.sent[|s.bus.sent| - CHANNEL_CAPACITY..] ==> Matches(e, q.line)
    ensures var script := [Turn(false)] + ([Turn(true)] + ([Turn(false)] + Pump(CHANNEL_CAPACITY)));
            Run(q, s, script).emitted ==
            s.emitted + Delivered(s.bus.sent[|s.bus.sent| - CHANNEL_CAPACITY..], s.lastId)
  {
    var parked := s.(next := |s.bus.sent| - CHANNEL_CAPACITY);
    LagParks(q, s, Pump(CHANNEL_CAPACITY));
    LiveDelivery(q, parked);
  }

  lemma LagParks(q: Query, s: State, rest: seq<Action>)
    requires s.phase == Receiving && s.pending == [] && !s.replaying && !s.shutdown
    requires |s.bus.sent| > s.next + CHANNEL_CAPACITY
    ensures Run(q, s, [Turn(false)] + ([Turn(true)] + ([Turn(false)] + rest))) ==
            Run(q, s.(next := |s.bus.sent| - CHANNEL_CAPACITY), rest)
  {
    var told := s.(phase := Replaying, next := |s.bus.sent| - CHANNEL_CAPACITY);
    RunCons(q, s, Turn(false), [Turn(true)] + ([Turn(false)] + rest));
    RunCons(q, told, Turn(true), [Turn(false)] + rest);
    RunCons(q, told.(phase := Draining), Turn(false), rest);
  }

  // A history read that fails while the response drains ends the replay: live delivery goes on, with
  // everything that waits for it.
  lemma FailedPageGoesLive(q: Query, s: State)
    requires s.phase == Draining && s.pending == [] && s.replaying && !s.shutdown
    requires s.next <= |s.bus.sent| <= s.next + CHANNEL_CAPACITY
    requires forall e :: e in s.bus.sent[s.next..] ==> Matches(e, q.line)
    ensures Run(q, s, [Turn(true)] + Pump(|s.bus.sent| - s.next)).emitted ==
            s.emitted + Delivered(s.bus.sent[s.next..], s.lastId)
  {
    RunCons(q, s, Turn(true), Pump(|s.bus.sent| - s.next));
    LiveDelivery(q, s.(phase := Receiving, replaying := false));
  }

  // ---- The opening page ----------------------------------------------------------------------

  function FirstPage(q: Query, log: seq<Event>): seq<Event> {
    if q.after.Some? then HistoryAfter(log, q.line, StartId(q)) else Recent(log, q.line)
  }

  // The page is being handed over, or has been.
  predicate Handing(page: seq<Event>, s: State) {
    || (s.phase == Draining && s.emitted + s.pending == page && AscendingFrom(s.pending, s.lastId))
    || page <= s.emitted
  }

  lemma StepKeepsHanding(q: Query, s: State, a: Action, page: seq<Event>)
    requires Handing(page, s)
    ensures Handing(page, Step(q, s, a))
  {
    EmitsStep(q, s, a);
    if !(page <= s.emitted) && a.Turn? {
      assert s.pending != [] by { assert s.emitted + [] == s.emitted; }
      assert s.emitted + s.pending == (s.emitted + [s.pending[0]]) + s.pending[1..];
    }
  }

  lemma {:induction false} RunKeepsHanding(q: Query, s: State, script: seq<Action>, page: seq<Event>)
    requires Handing(page, s)
    ensures Handing(page, Run(q, s, script))
    decreases |script|
  {
    if script != [] {
      StepKeepsHanding(q, s, script[0], page);
      RunKeepsHanding(q, Step(q, s, script[0]), script[1..], page);
    }
  }

  lemma {:induction false} AscendsFrom(page: seq<Event>, lastId: int)
    requires Ascending(page) && forall e :: e in page ==> e.id > lastId
    ensures AscendingFrom(page, lastId)
  {
    if page != [] { AscendsFrom(page[1..], page[0].id); }
  }

  lemma FirstPageAscends(q: Query, log: seq<Event>)
    requires ValidLog(log)
    ensures AscendingFrom(FirstPage(q, log), StartId(q))
  {
    PageAscends(log, q.line, StartId(q));
    RecentAscends(log, q.line);
  }

  // So does any part of what is above the id.
  lemma PartAscends(log: seq<Event>, line: Option<string>, lo: int, part: seq<Event>, from: nat)
    requires ValidLog(log)
    requires var rows := After(Retained(log), line, lo);
             from + |part| <= |rows| && part == rows[from..from + |part|]
    ensures AscendingFrom(part, lo)
  {
    AfterAscends(Retained(log), line, lo);
    AfterMembers(Retained(log), line, lo);
    AscendsFrom(part, lo);
  }

  lemma PageAscends(log: seq<Event>, line: Option<string>, lo: int)
    requires ValidLog(log)
    ensures AscendingFrom(HistoryAfter(log, line, lo), lo)
  {
    PartAscends(log, line, lo, HistoryAfter(log, line, lo), 0);
  }

  lemma RecentAscends(log: seq<Event>, line: Option<string>)
    requires ValidLog(log)
    ensures AscendingFrom(Recent(log, line), 0)
  {
    var rows, page := After(Retained(log), line, 0), Recent(log, line);
    PartAscends(log, line, 0, page, |rows| - |page|);
  }

  // Nothing but the log moves before the connection's first turn.
  lemma {:induction false} BeforeOpening(q: Query, s: State, script: seq<Action>)
    requires NoTurns(script)
    ensures var s' := Run(q, s, script); s'.(bus := s.bus, shutdown := s.shutdown) == s
    decreases |script|
  {
    if script != [] {
      assert NoTurns(script[1..]) by { assert forall i :: 0 <= i < |script[1..]| ==> script[1..][i] == script[i + 1]; }
      BeforeOpening(q, Step(q, s, script[0]), script[1..]);
    }
  }

  lemma Opens(q: Query, bus: Bus, before: seq<Action>)
    requires Attachable(bus) && NoTurns(before)
    ensures var opening := Run(q, Subscribe(q, bus), before);
            var page, begun := FirstPage(q, opening.bus.log), Step(q, opening, Turn(false));
            && ValidLog(opening.bus.log) && AscendingFrom(page, StartId(q))
            && begun.phase == Draining && begun.emitted == [] && begun.pending == page && begun.lastId == StartId(q)
  {
    var s0 := Subscribe(q, bus);
    BeforeOpening(q, s0, before);
    SubscribesTruthful(q, bus);
    AlwaysTruthful(q, s0, before);
    FirstPageAscends(q, Run(q, s0, before).bus.log);
  }

  lemma SubscribesTruthful(q: Query, bus: Bus)
    requires Attachable(bus)
    ensures Truthful(q, Subscribe(q, bus)) && Sourced(q, Subscribe(q, bus))
  {
  }

  // A client whose first read succeeds is handed its opening page before anything else, whole
  // unless the response is still draining it; so many turns and it has it.
  lemma OpeningPageFirst(q: Query, bus: Bus, before: seq<Action>, after: seq<Action>)
    requires Attachable(bus) && NoTurns(before)
    ensures var opening := Run(q, Subscribe(q, bus), before);
            var page, s := FirstPage(q, opening.bus.log), Run(q, Step(q, opening, Turn(false)), after);
            && (page <= s.emitted || (s.phase == Draining && s.emitted + s.pending == page))
            && (AllTurns(after) && |after| == |page| ==> s.emitted == page)
  {
    var opening := Run(q, Subscribe(q, bus), before);
    var page, begun := FirstPage(q, opening.bus.log), Step(q, opening, Turn(false));
    Opens(q, bus, before);
    assert [] + page == page;
    RunKeepsHanding(q, begun, after, page);
    if AllTurns(after) && |after| == |page| {
      DrainsPending(q, begun, after);
      DeliveredAll(page, begun.lastId);
    }
  }

  // What a client that asks for no starting id is given: the newest retained events of its line, at
  // most a hundred, oldest first, and nothing live before them.
  lemma FreshClientGets(q: Query, bus: Bus, before: seq<Action>, after: seq<Action>, e: Event)
    requires Attachable(bus) && NoTurns(before) && q.after.None?
    ensures var opening := Run(q, Subscribe(q, bus), before);
            var log, s := opening.bus.log, Run(q, Step(q, opening, Turn(false)), after);
            var page := FirstPage(q, log);
            && Ascending(page)
            && (e in page <==>
                  && e in Retained(log) && (q.line.None? || q.line == e.line)
                  && |set id | id in Rows(log, q.line, 0) && id > e.id| < RECENT_LIMIT)
            && (page <= s.emitted || (s.phase == Draining && s.emitted + s.pending == page))
  {
    OpeningPageFirst(q, bus, before, after);
    Opens(q, bus, before);
    RecentExactly(Run(q, Subscribe(q, bus), before).bus.log, q.line, e);
  }

  // The id asked for is where the history starts; a negative one means the beginning.
  lemma StartsWhereAsked(q: Query, log: seq<Event>)
    requires ValidLog(log) && q.after.Some?
    ensures forall e :: e in After(log, q.line, StartId(q)) <==>
                        e in log && (q.line.None? || q.line == e.line) && e.id > q.after.value
  {
    AfterMembers(log, q.line, StartId(q));
  }

  // ---- Left to itself -------------------------------------------------------------------------

  lemma {:induction false} TurnsJoin(q: Query, s: State, m: nat, n: nat)
    ensures Run(q, s, Turns(m + n)) == Run(q, Run(q, s, Turns(m)), Turns(n))
    decreases m
  {
    if m > 0 {
      OneTurn(q, s, m - 1);
      OneTurn(q, s, m - 1 + n);
      TurnsJoin(q, TurnOf(q, s, false), m - 1, n);
    }
  }

  lemma OneTurn(q: Query, s: State, n: nat)
    ensures Run(q, s, Turns(1 + n)) == Run(q, TurnOf(q, s, false), Turns(n))
  {
    RunCons(q, s, Turn(false), Turns(n));
  }

  // A page is the next stretch of the retained history, and the rest follows its last entry.
  lemma PageIsNext(log: seq<Event>, line: Option<string>, lo: int)
    requires ValidLog(log) && HistoryAfter(log, line, lo) != []
    ensures var rows, page := After(Retained(log), line, lo), HistoryAfter(log, line, lo);
            && AscendingFrom(page, lo) && LastDelivered(page, lo) == page[|page| - 1].id
            && rows == page + After(Retained(log), line, page[|page| - 1].id)
  {
    var rows, page := After(Retained(log), line, lo), HistoryAfter(log, line, lo);
    PageAscends(log, line, lo);
    LastOfAscending(page, lo);
    AfterSuffix(Retained(log), line, lo, |page| - 1);
    assert page[|page| - 1] == rows[|page| - 1] && rows == page + rows[|page|..];
  }

  lemma HandsPage(q: Query, s: State)
    requires ValidLog(s.bus.log) && s.phase == Draining && s.pending == [] && s.replaying && !s.shutdown
    requires HistoryAfter(s.bus.log, q.line, s.lastId) != []
    ensures var page := HistoryAfter(s.bus.log, q.line, s.lastId);
            Run(q, s, Turns(1 + |page|)) == s.(lastId := page[|page| - 1].id, emitted := s.emitted + page)
  {
    var page := HistoryAfter(s.bus.log, q.line, s.lastId);
    PageIsNext(s.bus.log, q.line, s.lastId);
    OneTurn(q, s, |page|);
    DrainsByTurns(q, s.(pending := page));
    DeliveredAll(page, s.lastId);
  }

  // A replay that is left to itself hands over everything retained above the last id.
  lemma {:induction false} ReplayEnds(q: Query, s: State) returns (n: nat)
    requires ValidLog(s.bus.log) && s.phase == Draining && s.pending == [] && s.replaying && !s.shutdown
    ensures var s' := Run(q, s, Turns(n));
            && s'.phase == Receiving && s'.emitted == s.emitted + After(Retained(s.bus.log), q.line, s.lastId)
            && s' == s.(phase := Receiving, replaying := false, lastId := s'.lastId, emitted := s'.emitted)
    decreases |After(Retained(s.bus.log), q.line, s.lastId)|
  {
    if HistoryAfter(s.bus.log, q.line, s.lastId) == [] {
      n := 1;
      NothingToReplay(q, s);
    } else {
      var k, next := ReplaysPage(q, s);
      var m := ReplayEnds(q, next);
      n := k + m;
      TurnsJoin(q, s, k, m);
    }
  }

  lemma NothingToReplay(q: Query, s: State)
    requires s.phase == Draining && s.pending == [] && s.replaying && !s.shutdown
    requires HistoryAfter(s.bus.log, q.line, s.lastId) == []
    ensures After(Retained(s.bus.log), q.line, s.lastId) == [] && s.emitted + [] == s.emitted
    ensures Run(q, s, Turns(1)) == s.(phase := Receiving, replaying := false)
  {
    OneTurn(q, s, 0);
    assert Turns(0) == [];
  }

  lemma ReplaysPage(q: Query, s: State) returns (k: nat, next: State)
    requires ValidLog(s.bus.log) && s.phase == Draining && s.pending == [] && s.replaying && !s.shutdown
    requires HistoryAfter(s.bus.log, q.line, s.lastId) != []
    ensures next == Run(q, s, Turns(k)) == s.(lastId := next.lastId, emitted := next.emitted)
    ensures var rows := After(Retained(s.bus.log), q.line, s.lastId);
            var rest := After(Retained(s.bus.log), q.line, next.lastId);
            |rest| < |rows| && s.emitted + rows == next.emitted + rest
  {
    var page := HistoryAfter(s.bus.log, q.line, s.lastId);
    HandsPage(q, s);
    PageIsNext(s.bus.log, q.line, s.lastId);
    k, next := 1 + |page|, s.(lastId := page[|page| - 1].id, emitted := s.emitted + page);
    Regroup(s.emitted, page, After(Retained(s.bus.log), q.line, next.lastId));
  }

  lemma Regroup(a: seq<Event>, b: seq<Event>, c: seq<Event>)
    ensures (a + b) + c == a + (b + c)
  {
  }

  lemma {:induction false} LastOfAscending(queue: seq<Event>, lastId: int)
    requires AscendingFrom(queue, lastId)
    ensures LastDelivered(queue, lastId) == if queue == [] then lastId else queue[|queue| - 1].id
  {
    if queue != [] { LastOfAscending(queue[1..], queue[0].id); }
  }

  lemma DrainEnds(q: Query, s: State) returns (n: nat)
    requires ValidLog(s.bus.log) && s.phase == Draining && !s.shutdown
    ensures var s' := Run(q, s, Turns(n));
            s'.phase == Receiving && s'.pending == [] && !s'.replaying && !s'.shutdown
            && s'.bus == s.bus && s'.next == s.next
  {
    DrainsByTurns(q, s);
    var drained := Run(q, s, Turns(|s.pending|));
    var m := 1;
    if s.replaying {
      m := ReplayEnds(q, drained);
    } else {
      OneTurn(q, drained, 0);
    }
    n := |s.pending| + m;
    TurnsJoin(q, s, |s.pending|, m);
  }

  // A connection that is left to itself gets to the end of what was broadcast and parks there.
  lemma {:induction false} ParksIdle(q: Query, s: State) returns (n: nat)
    requires ValidLog(s.bus.log) && !s.shutdown && s.phase != Ended
    requires s.phase != Draining ==> s.pending == []
    requires s.phase == Receiving ==> !s.replaying
    ensures var s' := Run(q, s, Turns(n));
            && s'.phase == Receiving && s'.pending == [] && s'.bus == s.bus
            && s'.next == if s.next >= |s.bus.sent| then s.next else |s.bus.sent|
    decreases |s.bus.sent| - s.next, if s.phase == Receiving then 0 else if s.phase == Draining then 1 else 2
  {
    if s.phase == Draining {
      var m := DrainEnds(q, s);
      var k := ParksIdle(q, Run(q, s, Turns(m)));
      n := m + k;
      TurnsJoin(q, s, m, k);
    } else if s.phase == Receiving && s.next >= |s.bus.sent| {
      n := 0;
      assert Turns(0) == [];
    } else {
      var k := ParksIdle(q, TurnOf(q, s, false));
      n := 1 + k;
      OneTurn(q, s, k);
    }
  }

  lemma TurnStaysUnpruned(q: Query, s: State)
    requires NothingPruned(q, s)
    ensures NothingPruned(q, TurnOf(q, s, false))
  {
    TurnAdvances(q, s, false);
  }

  lemma {:induction false} SoundTurns(q: Query, s: State, n: nat)
    requires NothingPruned(q, s)
    ensures SoundRun(q, s, Turns(n))
    decreases n
  {
    if n > 0 {
      TurnStaysUnpruned(q, s);
      SoundTurns(q, TurnOf(q, s, false), n - 1);
      OneTurn(q, s, n - 1);
    }
  }

  lemma {:induction false} SoundJoins(q: Query, s: State, script: seq<Action>, more: seq<Action>)
    requires SoundRun(q, s, script) && SoundRun(q, Run(q, s, script), more)
    ensures SoundRun(q, s, script + more) && Run(q, s, script + more) == Run(q, Run(q, s, script), more)
    decreases |script|
  {
    if script == [] {
      assert script + more == more;
    } else {
      assert (script + more)[1..] == script[1..] + more;
      SoundJoins(q, Step(q, s, script[0]), script[1..], more);
    }
  }

  lemma ParksAfter(q: Query, bus: Bus, script: seq<Action>) returns (n: nat)
    requires Subscribable(bus) && SoundRun(q, Subscribe(q, bus), script)
    requires var s := Run(q, Subscribe(q, bus), script);
             s.phase != Ended && !s.shutdown && s.bus.unsent == []
    ensures var s, s' := Run(q, Subscribe(q, bus), script), Run(q, Run(q, Subscribe(q, bus), script), Turns(n));
            Idle(s') && s'.bus == s.bus
  {
    SubscribeInv(q, bus);
    RunInv(q, Subscribe(q, bus), script);
    var s := Run(q, Subscribe(q, bus), script);
    n := ParksIdle(q, s);
  }

  // Once the others are quiet and every event has been broadcast, so many turns bring the client
  // the rest of the line's history above its start, whatever went on before.
  lemma CatchesUp(q: Query, bus: Bus, script: seq<Action>) returns (n: nat)
    requires Subscribable(bus) && SoundRun(q, Subscribe(q, bus), script)
    requires var s := Run(q, Subscribe(q, bus), script);
             s.phase != Ended && !s.shutdown && s.bus.unsent == [] && NothingPruned(q, s)
    ensures var s := Run(q, Subscribe(q, bus), script + Turns(n));
            Idle(s) && (Anchored(q, s) ==> Served(q, s) == After(s.bus.log, q.line, Start(q, s)))
  {
    var s := Run(q, Subscribe(q, bus), script);
    n := ParksAfter(q, bus, script);
    SoundTurns(q, s, n);
    SoundJoins(q, Subscribe(q, bus), script, Turns(n));
    if Anchored(q, Run(q, s, Turns(n))) { CaughtUpWhenIdle(q, bus, script + Turns(n)); }
  }
}
