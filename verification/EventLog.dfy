/**
 The durable outbox behind the event stream: an append-only log, the slice of it
 that retention keeps, and the two queries the stream issues against it.
 */
module EventLog {
  import opened Options

  datatype Event = Event(id: int, line: Option<string>)

  // Page sizes requested by the stream, rows kept by the outbox, and the number of
  // messages the broadcast channel retains for a slow receiver.
  const PAGE_LIMIT := 500
  const RECENT_LIMIT := 100
  const RETAINED_ROWS := 10_000
  const CHANNEL_CAPACITY := 512

  predicate Matches(e: Event, line: Option<string>) {
    line.None? || e.line == line
  }

  ghost predicate Ascending(s: seq<Event>) {
    forall i, j :: 0 <= i < j < |s| ==> s[i].id < s[j].id
  }

  ghost predicate ValidLog(log: seq<Event>) {
    Ascending(log) && forall i :: 0 <= i < |log| ==> 0 < log[i].id
  }

  // The entries of the log for one line with an id above `lo`, in commit order.
  function After(log: seq<Event>, line: Option<string>, lo: int): seq<Event> {
    if log == [] then []
    else
      var e := log[|log| - 1];
      After(log[..|log| - 1], line, lo) + if Matches(e, line) && e.id > lo then [e] else []
  }

  function Floor(log: seq<Event>): nat {
    if |log| <= RETAINED_ROWS then 0 else |log| - RETAINED_ROWS
  }

  function Retained(log: seq<Event>): seq<Event> {
    log[Floor(log)..]
  }

  // `history_after`: the oldest retained matches above `lo`, one page of them.
  function HistoryAfter(log: seq<Event>, line: Option<string>, lo: int): seq<Event> {
    var rows := After(Retained(log), line, lo);
    if |rows| <= PAGE_LIMIT then rows else rows[..PAGE_LIMIT]
  }

  // `recent`: the newest retained matches, returned oldest first.
  function Recent(log: seq<Event>, line: Option<string>): seq<Event> {
    var rows := After(Retained(log), line, 0);
    if |rows| <= RECENT_LIMIT then rows else rows[|rows| - RECENT_LIMIT..]
  }

  lemma AfterAppend(log: seq<Event>, e: Event, line: Option<string>, lo: int)
    ensures After(log + [e], line, lo)
         == After(log, line, lo) + if Matches(e, line) && e.id > lo then [e] else []
  {
  }

  // Growing the log only appends to a query's answer.
  lemma {:induction false} AfterGrows(log: seq<Event>, more: seq<Event>, line: Option<string>, lo: int)
    ensures After(log, line, lo) <= After(log + more, line, lo)
  {
    if more == [] {
      assert log + more == log;
    } else {
      var rest, e := more[..|more| - 1], more[|more| - 1];
      AfterGrows(log, rest, line, lo);
      assert log + more == (log + rest) + [e];
      AfterAppend(log + rest, e, line, lo);
    }
  }

  lemma {:induction false} AfterMembers(log: seq<Event>, line: Option<string>, lo: int)
    ensures forall e :: e in After(log, line, lo) <==> e in log && Matches(e, line) && e.id > lo
    ensures After(log, line, lo) == [] <==>
            forall i :: 0 <= i < |log| ==> !(Matches(log[i], line) && log[i].id > lo)
  {
    if log != [] {
      AfterMembers(log[..|log| - 1], line, lo);
      assert log == log[..|log| - 1] + [log[|log| - 1]];
    }
  }

  // Reading past the first answer is the same as asking again from its id.
  ghost predicate HeadedBy(log: seq<Event>, line: Option<string>, lo: int, e: Event) {
    e in log && Matches(e, line) && e.id > lo && After(log, line, lo) == [e] + After(log, line, e.id)
  }

  lemma {:induction false} AfterHead(log: seq<Event>, line: Option<string>, lo: int)
    requires Ascending(log) && After(log, line, lo) != []
    ensures HeadedBy(log, line, lo, After(log, line, lo)[0])
  {
    var front, x := log[..|log| - 1], log[|log| - 1];
    assert log == front + [x];
    if After(front, line, lo) != [] { AfterHead(front, line, lo); }
    HeadOf(front, x, line, lo);
  }

  lemma HeadOf(front: seq<Event>, x: Event, line: Option<string>, lo: int)
    requires Ascending(front + [x]) && After(front + [x], line, lo) != []
    requires After(front, line, lo) != [] ==> HeadedBy(front, line, lo, After(front, line, lo)[0])
    ensures HeadedBy(front + [x], line, lo, After(front + [x], line, lo)[0])
  {
    if After(front, line, lo) == [] {
      NothingAfterLast(front, x, line, lo);
    } else {
      HeadStays(front, x, line, lo);
    }
  }

  lemma HeadStays(front: seq<Event>, x: Event, line: Option<string>, lo: int)
    requires Ascending(front + [x]) && After(front, line, lo) != []
    requires var e := After(front, line, lo)[0]; e in front && After(front, line, lo) == [e] + After(front, line, e.id)
    ensures var e := After(front, line, lo)[0];
            After(front + [x], line, lo) == [e] + After(front + [x], line, e.id)
  {
    var e := After(front, line, lo)[0];
    EarlierIsSmaller(front, x, e);
    AfterAppend(front, x, line, lo);
    AfterAppend(front, x, line, e.id);
    AfterMembers(front, line, lo);
    assert e in After(front, line, lo);
    var tail := if Matches(x, line) && x.id > lo then [x] else [];
    assert ([e] + After(front, line, e.id)) + tail == [e] + (After(front, line, e.id) + tail);
  }

  lemma EarlierIsSmaller(front: seq<Event>, x: Event, e: Event)
    requires Ascending(front + [x]) && e in front
    ensures e.id < x.id
  {
    var i :| 0 <= i < |front| && front[i] == e;
    assert (front + [x])[i] == e && (front + [x])[|front|] == x;
  }

  // Nothing is above the last entry of a log.
  lemma NothingAfterLast(front: seq<Event>, x: Event, line: Option<string>, lo: int)
    requires Ascending(front + [x]) && After(front, line, lo) == [] && After(front + [x], line, lo) != []
    ensures After(front + [x], line, lo) == [x] && After(front + [x], line, x.id) == []
    ensures x in front + [x] && Matches(x, line) && x.id > lo
  {
    AfterAppend(front, x, line, lo);
    AfterMembers(front + [x], line, x.id);
    forall i | 0 <= i < |front + [x]| ensures (front + [x])[i].id <= x.id {
      assert (front + [x])[|front|] == x;
    }
  }

  lemma {:induction false} AfterSuffix(log: seq<Event>, line: Option<string>, lo: int, k: nat)
    requires Ascending(log) && k < |After(log, line, lo)|
    ensures var e := After(log, line, lo)[k];
            e in log && Matches(e, line) && e.id > lo && After(log, line, lo)[k + 1..] == After(log, line, e.id)
    decreases k
  {
    AfterHead(log, line, lo);
    if k > 0 {
      AfterSuffix(log, line, After(log, line, lo)[0].id, k - 1);
    }
  }

  // Entries that a query would not return may be dropped from the front of the log.
  lemma {:induction false} AfterDrop(log: seq<Event>, line: Option<string>, lo: int, k: nat)
    requires k <= |log|
    requires forall i :: 0 <= i < k ==> !(Matches(log[i], line) && log[i].id > lo)
    ensures After(log[k..], line, lo) == After(log, line, lo)
    decreases |log|
  {
    if k == |log| {
      AfterMembers(log, line, lo);
    } else {
      AfterDrop(log[..|log| - 1], line, lo, k);
      assert log[k..][..|log[k..]| - 1] == log[..|log| - 1][k..];
    }
  }

  // The first matching entry heads the answer.
  lemma AfterFirst(log: seq<Event>, line: Option<string>, lo: int, k: nat)
    requires Ascending(log) && k < |log| && Matches(log[k], line) && log[k].id > lo
    requires forall i :: 0 <= i < k ==> !(Matches(log[i], line) && log[i].id > lo)
    ensures After(log, line, lo) == [log[k]] + After(log, line, log[k].id)
  {
    AfterDrop(log, line, lo, k);
    AfterMembers(log, line, lo);
    assert log[k] in After(log, line, lo);
    AfterHead(log, line, lo);
    var e := After(log, line, lo)[0];
    var i :| 0 <= i < |log| && log[i] == e;
    if i != k {
      assert i > k;
      AfterMembers(log, line, e.id);
    }
  }

  // ---- What a page holds ------------------------------------------------------------------

  function Ids(events: seq<Event>): set<int> {
    set e | e in events :: e.id
  }

  // Fewer than `n` of the events are newer.
  predicate AmongNewest(events: seq<Event>, e: Event, n: nat) {
    e in events && |set id | id in Ids(events) && id > e.id| < n
  }

  predicate AmongOldest(events: seq<Event>, e: Event, n: nat) {
    e in events && |set id | id in Ids(events) && id < e.id| < n
  }

  lemma {:induction false} CountIds(events: seq<Event>)
    requires Ascending(events)
    ensures |Ids(events)| == |events|
  {
    if events != [] {
      var front, last := events[..|events| - 1], events[|events| - 1];
      CountIds(front);
      assert events == front + [last];
      assert Ids(events) == Ids(front) + {last.id} && last.id !in Ids(front);
    }
  }

  lemma NewerThan(events: seq<Event>, k: nat)
    requires Ascending(events) && k < |events|
    ensures |set id | id in Ids(events) && id > events[k].id| == |events| - k - 1
  {
    CountIds(events[k + 1..]);
    assert (set id | id in Ids(events) && id > events[k].id) == Ids(events[k + 1..]) by {
      assert forall e :: e in events[k + 1..] <==> e in events && e.id > events[k].id;
    }
  }

  lemma OlderThan(events: seq<Event>, k: nat)
    requires Ascending(events) && k < |events|
    ensures |set id | id in Ids(events) && id < events[k].id| == k
  {
    CountIds(events[..k]);
    assert (set id | id in Ids(events) && id < events[k].id) == Ids(events[..k]) by {
      assert forall e :: e in events[..k] <==> e in events && e.id < events[k].id;
    }
  }

  lemma NewestIsSuffix(events: seq<Event>, n: nat, e: Event)
    requires Ascending(events)
    ensures e in events[if |events| <= n then 0 else |events| - n..] <==> AmongNewest(events, e, n)
  {
    var from := if |events| <= n then 0 else |events| - n;
    if e in events {
      var k :| 0 <= k < |events| && events[k] == e;
      NewerThan(events, k);
      if from <= k { assert e == events[from..][k - from]; }
    }
  }

  lemma OldestIsPrefix(events: seq<Event>, n: nat, e: Event)
    requires Ascending(events)
    ensures e in events[..if |events| <= n then |events| else n] <==> AmongOldest(events, e, n)
  {
    var to := if |events| <= n then |events| else n;
    if e in events {
      var k :| 0 <= k < |events| && events[k] == e;
      OlderThan(events, k);
      if k < to { assert e == events[..to][k]; }
    }
  }

  lemma AfterAscends(log: seq<Event>, line: Option<string>, lo: int)
    requires Ascending(log)
    ensures Ascending(After(log, line, lo))
  {
    var rows := After(log, line, lo);
    forall i, j | 0 <= i < j < |rows| ensures rows[i].id < rows[j].id {
      AfterSuffix(log, line, lo, i);
      AfterMembers(log, line, rows[i].id);
      assert rows[j] == rows[i + 1..][j - i - 1];
    }
  }

  // Retention keeps the newest rows.
  lemma RetainedExactly(log: seq<Event>, e: Event)
    requires Ascending(log)
    ensures e in Retained(log) <==> AmongNewest(log, e, RETAINED_ROWS)
  {
    NewestIsSuffix(log, RETAINED_ROWS, e);
  }

  // The ids of the retained events of a line, or of all lines, above `lo`.
  function Rows(log: seq<Event>, line: Option<string>, lo: int): set<int> {
    set e | e in Retained(log) && (line.None? || line == e.line) && e.id > lo :: e.id
  }

  lemma RowsOfAfter(log: seq<Event>, line: Option<string>, lo: int)
    requires ValidLog(log)
    ensures Ids(After(Retained(log), line, lo)) == Rows(log, line, lo)
    ensures Ascending(After(Retained(log), line, lo))
  {
    AfterMembers(Retained(log), line, lo);
    AfterAscends(Retained(log), line, lo);
  }

  // The opening page of a client without a starting id ascends, and holds an event exactly when it
  // is retained, of the line, and fewer than a hundred such events are newer.
  lemma RecentExactly(log: seq<Event>, line: Option<string>, e: Event)
    requires ValidLog(log)
    ensures Ascending(Recent(log, line))
    ensures e in Recent(log, line) <==>
              && e in Retained(log) && (line.None? || line == e.line)
              && |set id | id in Rows(log, line, 0) && id > e.id| < RECENT_LIMIT
  {
    RowsOfAfter(log, line, 0);
    RecentIsNewest(log, line, e);
    AfterMembers(Retained(log), line, 0);
  }

  lemma RecentIsNewest(log: seq<Event>, line: Option<string>, e: Event)
    requires Ascending(After(Retained(log), line, 0))
    ensures Ascending(Recent(log, line))
    ensures e in Recent(log, line) <==> AmongNewest(After(Retained(log), line, 0), e, RECENT_LIMIT)
  {
    var rows := After(Retained(log), line, 0);
    NewestIsSuffix(rows, RECENT_LIMIT, e);
    assert Recent(log, line) == rows[if |rows| <= RECENT_LIMIT then 0 else |rows| - RECENT_LIMIT..];
  }

  // A history page ascends, and holds an event exactly when it is retained, of the line, above the
  // id asked for, and fewer than five hundred such events are older.
  lemma PageExactly(log: seq<Event>, line: Option<string>, lo: int, e: Event)
    requires ValidLog(log)
    ensures Ascending(HistoryAfter(log, line, lo))
    ensures e in HistoryAfter(log, line, lo) <==>
              && e in Retained(log) && (line.None? || line == e.line) && e.id > lo
              && |set id | id in Rows(log, line, lo) && id < e.id| < PAGE_LIMIT
  {
    var rows := After(Retained(log), line, lo);
    RowsOfAfter(log, line, lo);
    OldestIsPrefix(rows, PAGE_LIMIT, e);
    assert HistoryAfter(log, line, lo) == rows[..if |rows| <= PAGE_LIMIT then |rows| else PAGE_LIMIT];
    AfterMembers(Retained(log), line, lo);
  }
}
