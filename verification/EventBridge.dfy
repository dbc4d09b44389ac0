/** The poller that publishes each connection attempt once, remembering a bounded number of keys. */
module EventBridge {
  import opened Sorting

  // `sequence:at` of one attempt.
  type Key = string

  const SEEN_LIMIT: nat := 200

  // What one poll publishes, and the remembered keys after it.
  datatype Poll = Poll(published: seq<Key>, seen: seq<Key>)

  function Recent(keys: seq<Key>): seq<Key> {
    if |keys| > SEEN_LIMIT then keys[|keys| - SEEN_LIMIT..] else keys
  }

  function PollWindow(seen: seq<Key>, window: seq<Key>): Poll
    decreases |window|
  {
    if window == [] then Poll([], seen)
    else if window[0] in seen then PollWindow(seen, window[1..])
    else
      var rest := PollWindow(Recent(seen + [window[0]]), window[1..]);
      Poll([window[0]] + rest.published, rest.seen)
  }

  // ---- The loop ----------------------------------------------------------------------------------------

  datatype Publication = Publication(line: string, key: Key)

  function Tagged(line: string, keys: seq<Key>): seq<Publication> {
    if keys == [] then [] else Tagged(line, keys[..|keys| - 1]) + [Publication(line, keys[|keys| - 1])]
  }

  lemma TaggedAppend(line: string, keys: seq<Key>, key: Key)
    ensures Tagged(line, keys + [key]) == Tagged(line, keys) + [Publication(line, key)]
  {
    assert (keys + [key])[..|keys|] == keys;
  }

  // What is left of a window from its `i`-th key on, after that key.
  lemma PollStep(queue: seq<Key>, window: seq<Key>, i: nat)
    requires i < |window|
    ensures PollWindow(queue, window[i..]) ==
              if window[i] in queue then PollWindow(queue, window[i + 1..])
              else
                var rest := PollWindow(Recent(queue + [window[i]]), window[i + 1..]);
                Poll([window[i]] + rest.published, rest.seen)
  {
    assert window[i..][1..] == window[i + 1..];
  }

  method Remember(queue: seq<Key>, key: Key) returns (r: seq<Key>)
    ensures r == Recent(queue + [key])
  {
    r := queue + [key];
    while |r| > SEEN_LIMIT
      invariant r == queue + [key] || (|queue| >= SEEN_LIMIT && |r| >= SEEN_LIMIT)
      invariant |r| <= |queue| + 1 && r == (queue + [key])[|queue| + 1 - |r|..]
    {
      r := r[1..];
    }
  }

  class Bridge {
    var seen: map<string, seq<Key>>
    var published: seq<Publication>

    constructor ()
      ensures seen == map[] && published == []
    {
      seen, published := map[], [];
    }

    function SeenOf(line: string): seq<Key>
      reads this
    {
      if line in seen then seen[line] else []
    }

    // One line's turn in one tick. A failed publish is logged and still remembered.
    method PollLine(line: string, attempts: seq<Key>)
      modifies this
      ensures var p := PollWindow(old(SeenOf(line)), attempts);
              seen == old(seen)[line := p.seen] && published == old(published) + Tagged(line, p.published)
      ensures |old(SeenOf(line))| <= SEEN_LIMIT ==> |SeenOf(line)| <= SEEN_LIMIT
    {
      var queue := SeenOf(line);
      ghost var whole, done := PollWindow(queue, attempts), [];
      assert attempts[0..] == attempts;
      for i := 0 to |attempts|
        invariant seen == old(seen)
        invariant done + PollWindow(queue, attempts[i..]).published == whole.published
        invariant PollWindow(queue, attempts[i..]).seen == whole.seen
        invariant published == old(published) + Tagged(line, done)
        invariant |old(SeenOf(line))| <= SEEN_LIMIT ==> |queue| <= SEEN_LIMIT
      {
        var key := attempts[i];
        PollStep(queue, attempts, i);
        if key in queue { continue; }
        TaggedAppend(line, done, key);
        published := published + [Publication(line, key)];
        queue := Remember(queue, key);
        Regroup(done, [key], PollWindow(queue, attempts[i + 1..]).published);
        done := done + [key];
      }
      assert done == whole.published by { assert attempts[|attempts|..] == []; }
      seen := seen[line := queue];
    }
  }

  // ---- Exactness ---------------------------------------------------------------------------------------

  lemma {:induction false} SkipKnown(seen: seq<Key>, known: seq<Key>, rest: seq<Key>)
    requires forall i :: 0 <= i < |known| ==> known[i] in seen
    ensures PollWindow(seen, known + rest) == PollWindow(seen, rest)
    decreases |known|
  {
    if known == [] {
      assert known + rest == rest;
    } else {
      assert (known + rest)[1..] == known[1..] + rest;
      SkipKnown(seen, known[1..], rest);
    }
  }

  ghost predicate Distinct(keys: seq<Key>) {
    forall i, j :: 0 <= i < j < |keys| ==> keys[i] != keys[j]
  }

  lemma RecentStep(keys: seq<Key>, k: Key)
    ensures Recent(Recent(keys) + [k]) == Recent(keys + [k])
  {
  }

  lemma RecentIsPart(keys: seq<Key>, k: Key)
    requires k !in keys
    ensures k !in Recent(keys)
  {
  }

  // Keys never published before are all published, in order, and the newest are remembered.
  lemma {:induction false} PublishFresh(published: seq<Key>, unseen: seq<Key>)
    requires Distinct(unseen) && forall i :: 0 <= i < |unseen| ==> unseen[i] !in published
    ensures PollWindow(Recent(published), unseen) == Poll(unseen, Recent(published + unseen))
    decreases |unseen|
  {
    if unseen == [] {
      assert published + unseen == published;
    } else {
      var k, rest := unseen[0], unseen[1..];
      RecentIsPart(published, k);
      RecentStep(published, k);
      assert published + [k] + rest == published + unseen;
      forall i | 0 <= i < |rest| ensures rest[i] !in published + [k] {
        assert rest[i] == unseen[i + 1];
      }
      PublishFresh(published + [k], rest);
    }
  }

  // A poll sees the attempts from `start` up to the current end of the history.
  datatype View = View(start: nat, end: nat)

  predicate InHistory(history: seq<Key>, v: View) {
    v.start <= v.end <= |history| && v.end - v.start <= SEEN_LIMIT
  }

  // Between polls the list only grows at its end and only loses entries at its front.
  predicate Follows(a: View, b: View) {
    a.start <= b.start && a.end <= b.end
  }

  predicate Windows(history: seq<Key>, prev: View, views: seq<View>)
    decreases |views|
  {
    InHistory(history, prev) &&
    (views == [] || (Follows(prev, views[0]) && Windows(history, views[0], views[1..])))
  }

  function Part(history: seq<Key>, from: nat, to: nat): seq<Key> {
    if from <= to <= |history| then history[from..to] else []
  }

  function RunPolls(history: seq<Key>, seen: seq<Key>, views: seq<View>): Poll
    decreases |views|
  {
    if views == [] then Poll([], seen)
    else
      var p := PollWindow(seen, Part(history, views[0].start, views[0].end));
      var rest := RunPolls(history, p.seen, views[1..]);
      Poll(p.published + rest.published, rest.seen)
  }

  function From(prev: View, v: View): nat {
    if prev.end > v.start then prev.end else v.start
  }

  // The attempts the polls saw that were not there at the previous poll, in the order they happened.
  function Observed(history: seq<Key>, prev: View, views: seq<View>): seq<Key>
    decreases |views|
  {
    if views == [] then []
    else Part(history, From(prev, views[0]), views[0].end) + Observed(history, views[0], views[1..])
  }

  // Published so far: nothing from beyond the last poll, and the last window at the very end.
  ghost predicate Frontier(history: seq<Key>, v: View, published: seq<Key>)
    requires InHistory(history, v)
  {
    && (forall j :: v.end <= j < |history| ==> history[j] !in published)
    && v.end - v.start <= |published|
    && published[|published| - (v.end - v.start)..] == history[v.start..v.end]
  }

  lemma EndIsRecent(published: seq<Key>, window: seq<Key>, i: nat)
    requires i < |window| <= |published| && |window| <= SEEN_LIMIT
    requires published[|published| - |window|..] == window
    ensures window[i] in Recent(published)
  {
    var recent := Recent(published);
    assert recent[|recent| - |window| + i] == published[|published| - |window| + i]
        == published[|published| - |window|..][i];
  }

  lemma PartDistinct(history: seq<Key>, from: nat, to: nat)
    requires Distinct(history)
    ensures Distinct(Part(history, from, to))
  {
  }

  lemma KnownIsRecent(history: seq<Key>, prev: View, v: View, published: seq<Key>, j: nat)
    requires InHistory(history, prev) && Follows(prev, v) && Frontier(history, prev, published)
    requires v.start <= j < prev.end
    ensures history[j] in Recent(published)
  {
    var window := history[prev.start..prev.end];
    assert window[j - prev.start] == history[j];
    EndIsRecent(published, window, j - prev.start);
  }

  // One poll publishes exactly its window past what the poll before it saw.
  lemma OnePoll(history: seq<Key>, prev: View, v: View, published: seq<Key>)
    requires Distinct(history) && InHistory(history, prev) && InHistory(history, v) && Follows(prev, v)
    requires Frontier(history, prev, published)
    ensures var added := Part(history, From(prev, v), v.end);
            PollWindow(Recent(published), Part(history, v.start, v.end)) == Poll(added, Recent(published + added))
  {
    var from := From(prev, v);
    KnownAreRecent(history, prev, v, published);
    UnseenAreNew(history, prev, v, published);
    PartDistinct(history, from, v.end);
    SkipThenPublish(published, Part(history, v.start, from), Part(history, from, v.end));
    PartSplits(history, v.start, from, v.end);
  }

  lemma PartSplits(history: seq<Key>, from: nat, mid: nat, to: nat)
    requires from <= mid <= to <= |history|
    ensures Part(history, from, to) == Part(history, from, mid) + Part(history, mid, to)
  {
  }

  lemma KnownAreRecent(history: seq<Key>, prev: View, v: View, published: seq<Key>)
    requires InHistory(history, prev) && Follows(prev, v) && Frontier(history, prev, published)
    ensures var known := Part(history, v.start, From(prev, v));
            forall i :: 0 <= i < |known| ==> known[i] in Recent(published)
  {
    var known := Part(history, v.start, From(prev, v));
    forall i | 0 <= i < |known| ensures known[i] in Recent(published) {
      KnownIsRecent(history, prev, v, published, v.start + i);
    }
  }

  lemma UnseenAreNew(history: seq<Key>, prev: View, v: View, published: seq<Key>)
    requires InHistory(history, prev) && Frontier(history, prev, published)
    ensures var unseen := Part(history, From(prev, v), v.end);
            forall i :: 0 <= i < |unseen| ==> unseen[i] !in published
  {
  }

  lemma SkipThenPublish(published: seq<Key>, known: seq<Key>, unseen: seq<Key>)
    requires forall i :: 0 <= i < |known| ==> known[i] in Recent(published)
    requires Distinct(unseen) && forall i :: 0 <= i < |unseen| ==> unseen[i] !in published
    ensures PollWindow(Recent(published), known + unseen) == Poll(unseen, Recent(published + unseen))
  {
    SkipKnown(Recent(published), known, unseen);
    PublishFresh(published, unseen);
  }

  lemma FrontierMoves(history: seq<Key>, prev: View, v: View, published: seq<Key>)
    requires Distinct(history) && InHistory(history, prev) && InHistory(history, v) && Follows(prev, v)
    requires Frontier(history, prev, published)
    ensures Frontier(history, v, published + Part(history, From(prev, v), v.end))
  {
    var from := From(prev, v);
    var unseen := history[from..v.end];
    var all := published + unseen;
    forall j | v.end <= j < |history| ensures history[j] !in all {
      forall i | 0 <= i < |unseen| ensures unseen[i] != history[j] {
        assert unseen[i] == history[from + i];
      }
    }
    var n := v.end - v.start;
    if from == v.start {
      assert all[|all| - n..] == unseen;
    } else {
      SuffixExtends(history, prev, v, published);
    }
  }

  lemma SuffixExtends(history: seq<Key>, prev: View, v: View, published: seq<Key>)
    requires InHistory(history, prev) && InHistory(history, v) && Follows(prev, v) && prev.end > v.start
    requires prev.end - prev.start <= |published|
    requires published[|published| - (prev.end - prev.start)..] == history[prev.start..prev.end]
    ensures var all, n := published + history[prev.end..v.end], v.end - v.start;
            n <= |all| && all[|all| - n..] == history[v.start..v.end]
  {
    var tail := history[prev.start..prev.end];
    var kept := published[|published| - (prev.end - v.start)..];
    assert kept == tail[v.start - prev.start..];
    assert kept == history[v.start..prev.end];
    assert (published + history[prev.end..v.end])[|published| - (prev.end - v.start)..]
        == kept + history[prev.end..v.end];
    assert kept + history[prev.end..v.end] == history[v.start..v.end];
  }

  lemma Regroup(a: seq<Key>, b: seq<Key>, c: seq<Key>)
    ensures a + b + c == a + (b + c)
  {
  }

  // From any frontier, the polls publish exactly what they newly observe.
  lemma {:induction false} PublishesObserved(history: seq<Key>, prev: View, views: seq<View>, published: seq<Key>)
    requires Distinct(history) && Windows(history, prev, views) && Frontier(history, prev, published)
    ensures var all := published + Observed(history, prev, views);
            RunPolls(history, Recent(published), views) == Poll(Observed(history, prev, views), Recent(all))
    decreases |views|
  {
    if views == [] {
      assert published + [] == published;
    } else {
      var added, rest := Part(history, From(prev, views[0]), views[0].end), Observed(history, views[0], views[1..]);
      OnePoll(history, prev, views[0], published);
      FrontierMoves(history, prev, views[0], published);
      PublishesObserved(history, views[0], views[1..], published + added);
      Regroup(published, added, rest);
    }
  }

  // What is observed lies beyond the previous poll.
  lemma {:induction false} ObservedBeyond(history: seq<Key>, prev: View, views: seq<View>, k: Key)
    requires Windows(history, prev, views) && k in Observed(history, prev, views)
    ensures exists j :: prev.end <= j < |history| && history[j] == k
    decreases |views|
  {
    var v := views[0];
    var added := Part(history, From(prev, v), v.end);
    if k in added {
      var i :| 0 <= i < |added| && added[i] == k;
      assert history[From(prev, v) + i] == k;
    } else {
      ObservedBeyond(history, v, views[1..], k);
    }
  }

  lemma PartBefore(history: seq<Key>, from: nat, to: nat, i: nat, k: Key)
    requires Distinct(history) && i < |Part(history, from, to)|
    requires exists j :: to <= j < |history| && history[j] == k
    ensures Part(history, from, to)[i] != k
  {
  }

  lemma {:induction false} ObservedIsDistinct(history: seq<Key>, prev: View, views: seq<View>)
    requires Distinct(history) && Windows(history, prev, views)
    ensures Distinct(Observed(history, prev, views))
    decreases |views|
  {
    if views != [] {
      var v, rest := views[0], Observed(history, views[0], views[1..]);
      var added := Part(history, From(prev, v), v.end);
      ObservedIsDistinct(history, v, views[1..]);
      PartDistinct(history, From(prev, v), v.end);
      forall i, j | 0 <= i < |added| && 0 <= j < |rest| ensures added[i] != rest[j] {
        ObservedBeyond(history, v, views[1..], rest[j]);
        PartBefore(history, From(prev, v), v.end, i, rest[j]);
      }
    }
  }

  ghost predicate SeenBySome(views: seq<View>, j: nat) {
    exists i :: 0 <= i < |views| && views[i].start <= j < views[i].end
  }

  lemma SeenByFirstOrRest(views: seq<View>, j: nat)
    requires views != []
    ensures SeenBySome(views, j) <==> views[0].start <= j < views[0].end || SeenBySome(views[1..], j)
  {
  }

  // Seen by some poll means observed, and the other way round.
  lemma {:induction false} ObservedIsSeen(history: seq<Key>, prev: View, views: seq<View>, j: nat)
    requires Distinct(history) && Windows(history, prev, views) && prev.end <= j < |history|
    ensures history[j] in Observed(history, prev, views) <==> SeenBySome(views, j)
    decreases |views|
  {
    if views != [] {
      var v, rest := views[0], views[1..];
      var added := Part(history, From(prev, v), v.end);
      SeenByFirstOrRest(views, j);
      if v.start <= j < v.end {
        assert added[j - From(prev, v)] == history[j];
      } else {
        forall i | 0 <= i < |added| ensures added[i] != history[j] {
          assert added[i] == history[From(prev, v) + i];
        }
        if j >= v.end {
          ObservedIsSeen(history, v, rest, j);
        } else {
          NeverSeen(history, v, rest, j);
          if history[j] in Observed(history, v, rest) { ObservedBeyond(history, v, rest, history[j]); }
        }
      }
    }
  }

  // Windows never reach back.
  lemma {:induction false} NeverSeen(history: seq<Key>, prev: View, views: seq<View>, j: nat)
    requires Windows(history, prev, views) && j < prev.start
    ensures forall i :: 0 <= i < |views| ==> views[i].start > j
    decreases |views|
  {
    if views != [] { NeverSeen(history, views[0], views[1..], j); }
  }

  // Every attempt that some poll saw is published exactly once, in history order; the queue
  // holds the newest of what was published.
  lemma PublishesExactlyOnce(history: seq<Key>, views: seq<View>)
    requires Distinct(history) && Windows(history, View(0, 0), views)
    ensures var r := RunPolls(history, [], views);
            && Distinct(r.published) && r.seen == Recent(r.published)
            && r.published == Observed(history, View(0, 0), views)
            && (forall k :: k in r.published ==> k in history)
            && forall j :: 0 <= j < |history| ==>
                 (history[j] in r.published <==> SeenBySome(views, j))
  {
    PublishesObserved(history, View(0, 0), views, []);
    assert [] + Observed(history, View(0, 0), views) == Observed(history, View(0, 0), views);
    ObservedIsDistinct(history, View(0, 0), views);
    forall k | k in Observed(history, View(0, 0), views) ensures k in history {
      ObservedBeyond(history, View(0, 0), views, k);
    }
    forall j | 0 <= j < |history|
      ensures history[j] in Observed(history, View(0, 0), views) <==> SeenBySome(views, j)
    {
      ObservedIsSeen(history, View(0, 0), views, j);
    }
  }

  // The limit is exact: polling one list twice publishes from it again as soon as it is longer than the queue.
  lemma LimitIsExact(window: seq<Key>)
    requires Distinct(window)
    ensures PollWindow(PollWindow([], window).seen, window).published == [] <==> |window| <= SEEN_LIMIT
  {
    FirstPoll(window);
    if |window| <= SEEN_LIMIT {
      assert window + [] == window;
      SkipKnown(window, window, []);
    } else {
      FirstIsForgotten(window);
    }
  }

  lemma FirstPoll(window: seq<Key>)
    requires Distinct(window)
    ensures PollWindow([], window).seen == Recent(window)
  {
    PublishFresh([], window);
    assert [] + window == window;
  }

  lemma FirstIsForgotten(window: seq<Key>)
    requires Distinct(window) && |window| > SEEN_LIMIT
    ensures window[0] !in Recent(window)
  {
  }
}
