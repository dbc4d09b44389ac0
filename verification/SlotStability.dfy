/** What repeated reconciliation keeps: keys, orders and labels of known slots. */
module SlotStability {
  import opened Options
  import opened Sorting
  import opened Text
  import opened ModemSlots
  import opened SlotOrders

  // The part of a slot that must never change under a user.
  datatype Core = Core(slotId: string, uim: U8, order: U32, title: string)

  function CoreOf(s: Slot): Core {
    Core(s.slotId, s.uim, s.order, s.title)
  }

  function KeyOf(s: Slot): Key {
    (s.slotId, s.uim)
  }

  function KeysOf(slots: seq<Slot>): set<Key> {
    set i | 0 <= i < |slots| :: KeyOf(slots[i])
  }

  ghost predicate GoodSlot(s: Slot) {
    && Trimmed(s.slotId) && s.slotId != "" && s.uim >= 1 && s.order > 0
    && Trimmed(s.title) && s.title != ""
  }

  ghost predicate WellFormed(slots: seq<Slot>) {
    && (forall i :: 0 <= i < |slots| ==> GoodSlot(slots[i]))
    && DistinctBy(KeyOf, slots) && DistinctBy(OrderOf, slots)
  }

  ghost predicate SameCores(a: seq<Slot>, b: seq<Slot>) {
    |a| == |b| && forall i :: 0 <= i < |a| ==> CoreOf(a[i]) == CoreOf(b[i])
  }

  lemma SameCoresMaxOrder(a: seq<Slot>, b: seq<Slot>)
    requires SameCores(a, b)
    ensures MaxOrder(a) <= MaxOrder(b)
  {
  }

  lemma SameCoresKeys(a: seq<Slot>, b: seq<Slot>)
    requires SameCores(a, b)
    ensures KeysOf(a) == KeysOf(b)
  {
  }

  lemma SameCoresWellFormed(a: seq<Slot>, b: seq<Slot>)
    requires SameCores(a, b) && WellFormed(a)
    ensures WellFormed(b)
    ensures MaxOrder(a) == MaxOrder(b) && KeysOf(a) == KeysOf(b)
  {
    SameCoresMaxOrder(a, b);
    SameCoresMaxOrder(b, a);
    SameCoresKeys(a, b);
    forall i | 0 <= i < |b| ensures GoodSlot(b[i]) {
      assert CoreOf(a[i]) == CoreOf(b[i]) && GoodSlot(a[i]);
    }
    forall i, j | 0 <= i < j < |b| ensures KeyOf(b[i]) != KeyOf(b[j]) && OrderOf(b[i]) != OrderOf(b[j]) {
      assert CoreOf(a[i]) == CoreOf(b[i]) && CoreOf(a[j]) == CoreOf(b[j]);
      assert KeyOf(a[i]) != KeyOf(a[j]) && OrderOf(a[i]) != OrderOf(a[j]);
    }
  }

  // ---- Each pass on a well-formed list ------------------------------------------------------

  lemma NormalizeKeepsCores(slots: seq<Slot>)
    requires WellFormed(slots)
    ensures SameCores(slots, NormalizeAll(slots))
  {
  }

  lemma {:induction false} KeepFirstKeepsAll(slots: seq<Slot>, seen: set<Key>)
    requires WellFormed(slots) && forall i :: 0 <= i < |slots| ==> KeyOf(slots[i]) !in seen
    ensures KeepFirst(slots, seen) == slots
  {
    if slots != [] {
      assert GoodSlot(slots[0]) && IdentityOf(slots[0]) == KeyOf(slots[0]);
      var rest := slots[1..];
      assert forall i :: 0 <= i < |rest| ==> rest[i] == slots[i + 1] && KeyOf(rest[i]) != KeyOf(slots[0]);
      assert WellFormed(rest);
      KeepFirstKeepsAll(rest, seen + {KeyOf(slots[0])});
    }
  }

  lemma AdoptKeepsCores(slots: seq<Slot>, o: Observation, now: string)
    requires forall i :: 0 <= i < |slots| ==> slots[i].slotId != ""
    ensures SameCores(slots, Adopt(slots, o, now).slots)
  {
  }

  lemma {:induction false} AdoptAllKeepsCores(slots: seq<Slot>, os: seq<Observation>, now: string)
    requires WellFormed(slots)
    ensures SameCores(slots, AdoptAll(slots, os, now).slots) && WellFormed(AdoptAll(slots, os, now).slots)
    decreases |os|
  {
    if os != [] {
      assert forall i :: 0 <= i < |slots| ==> GoodSlot(slots[i]);
      AdoptKeepsCores(slots, os[0], now);
      var first := Adopt(slots, os[0], now).slots;
      SameCoresWellFormed(slots, first);
      AdoptAllKeepsCores(first, os[1..], now);
    }
  }

  // The slots that one call adds, in the order of the sorted observations.
  function NewSlots(known: set<Key>, os: seq<Observation>, next: U32, now: string): seq<Slot>
    decreases |os|
  {
    if os == [] then []
    else if Trim(os[0].slotId) == "" || ObservedKey(os[0]) in known then NewSlots(known, os[1..], next, now)
    else [NewSlot(os[0], next, now)] + NewSlots(known + {ObservedKey(os[0])}, os[1..], SatInc(next), now)
  }

  lemma {:induction false} AppendIsNewSlots(slots: seq<Slot>, os: seq<Observation>, next: U32, now: string)
    ensures AppendNew(slots, os, next, now) == slots + NewSlots(KeysOf(slots), os, next, now)
    decreases |os|
  {
    if os != [] {
      assert Known(slots, ObservedKey(os[0])) <==> ObservedKey(os[0]) in KeysOf(slots);
      if Trim(os[0].slotId) == "" || Known(slots, ObservedKey(os[0])) {
        AppendIsNewSlots(slots, os[1..], next, now);
      } else {
        var s := NewSlot(os[0], next, now);
        AppendIsNewSlots(slots + [s], os[1..], SatInc(next), now);
        KeysAppend(slots, s);
      }
    }
  }

  lemma KeysAppend(slots: seq<Slot>, s: Slot)
    ensures KeysOf(slots + [s]) == KeysOf(slots) + {KeyOf(s)}
  {
    assert (slots + [s])[|slots|] == s;
    assert forall i :: 0 <= i < |slots| ==> (slots + [s])[i] == slots[i];
  }

  lemma NewSlotIsGood(o: Observation, order: U32, now: string)
    requires Trim(o.slotId) != "" && order > 0
    ensures GoodSlot(NewSlot(o, order, now))
  {
    TrimTrims(o.slotId);
    DecDigits(order);
    var title := LABEL_PREFIX + Dec(order);
    assert title[0] == '\U{57FA}' && title[|title| - 1] == Dec(order)[|Dec(order)| - 1];
  }

  function Capped(n: nat): U32 {
    if n <= U32_MAX then n else U32_MAX
  }

  // New slots get consecutive orders.
  lemma {:induction false} NewSlotIsNumbered(known: set<Key>, os: seq<Observation>, next: U32, now: string, i: nat)
    requires next > 0 && i < |NewSlots(known, os, next, now)|
    ensures NewSlots(known, os, next, now)[i].order == Capped(next + i)
    decreases |os|
  {
    var o, rest := os[0], os[1..];
    if Trim(o.slotId) == "" || ObservedKey(o) in known {
      NewSlotIsNumbered(known, rest, next, now, i);
    } else if i > 0 {
      NewSlotIsNumbered(known + {ObservedKey(o)}, rest, SatInc(next), now, i - 1);
    }
  }

  // New slots are valid, unknown before, and carry the default label.
  lemma {:induction false} NewSlotIsUnknown(known: set<Key>, os: seq<Observation>, next: U32, now: string, s: Slot)
    requires next > 0 && s in NewSlots(known, os, next, now)
    ensures GoodSlot(s) && KeyOf(s) !in known && s.title == LABEL_PREFIX + Dec(s.order)
    decreases |os|
  {
    var o, rest := os[0], os[1..];
    if Trim(o.slotId) == "" || ObservedKey(o) in known {
      NewSlotIsUnknown(known, rest, next, now, s);
    } else if s != NewSlot(o, next, now) {
      NewSlotIsUnknown(known + {ObservedKey(o)}, rest, SatInc(next), now, s);
    } else {
      NewSlotIsGood(o, next, now);
    }
  }

  lemma {:induction false} NewKeysDiffer(known: set<Key>, os: seq<Observation>, next: U32, now: string)
    requires next > 0
    ensures DistinctBy(KeyOf, NewSlots(known, os, next, now))
    decreases |os|
  {
    if os != [] {
      var o, rest := os[0], os[1..];
      if Trim(o.slotId) == "" || ObservedKey(o) in known {
        NewKeysDiffer(known, rest, next, now);
      } else {
        var known1 := known + {ObservedKey(o)};
        var more := NewSlots(known1, rest, SatInc(next), now);
        NewKeysDiffer(known1, rest, SatInc(next), now);
        forall j | 0 <= j < |more| ensures KeyOf(more[j]) != KeyOf(NewSlot(o, next, now)) {
          NewSlotIsUnknown(known1, rest, SatInc(next), now, more[j]);
        }
      }
    }
  }

  lemma KeysOfCons(s: Slot, more: seq<Slot>)
    ensures KeysOf([s] + more) == {KeyOf(s)} + KeysOf(more)
  {
    assert ([s] + more)[0] == s;
    assert forall i :: 0 <= i < |more| ==> ([s] + more)[i + 1] == more[i];
  }

  // Every named observation is known or new.
  lemma {:induction false} NewSlotsCover(known: set<Key>, os: seq<Observation>, next: U32, now: string, i: nat)
    requires i < |os| && Trim(os[i].slotId) != ""
    ensures ObservedKey(os[i]) in known + KeysOf(NewSlots(known, os, next, now))
    decreases |os|
  {
    var o, rest := os[0], os[1..];
    if Trim(o.slotId) == "" || ObservedKey(o) in known {
      if i > 0 { NewSlotsCover(known, rest, next, now, i - 1); }
    } else {
      var s, known1 := NewSlot(o, next, now), known + {ObservedKey(o)};
      KeysOfCons(s, NewSlots(known1, rest, SatInc(next), now));
      if i > 0 { NewSlotsCover(known1, rest, SatInc(next), now, i - 1); }
    }
  }

  // Nothing else is new.
  lemma {:induction false} NewSlotsOrigin(known: set<Key>, os: seq<Observation>, next: U32, now: string, s: Slot)
    requires s in NewSlots(known, os, next, now)
    ensures exists i :: 0 <= i < |os| && ObservedKey(os[i]) == KeyOf(s)
    decreases |os|
  {
    var o, rest := os[0], os[1..];
    if Trim(o.slotId) == "" || ObservedKey(o) in known {
      NewSlotsOrigin(known, rest, next, now, s);
      var i :| 0 <= i < |rest| && ObservedKey(rest[i]) == KeyOf(s);
      assert os[i + 1] == rest[i];
    } else if s != NewSlot(o, next, now) {
      NewSlotsOrigin(known + {ObservedKey(o)}, rest, SatInc(next), now, s);
      var i :| 0 <= i < |rest| && ObservedKey(rest[i]) == KeyOf(s);
      assert os[i + 1] == rest[i];
    } else {
      assert ObservedKey(os[0]) == KeyOf(s);
    }
  }

  lemma RelabelGood(s: Slot)
    requires GoodSlot(s)
    ensures Relabel(s) == s
  {
  }

  // Nothing to repair: the pass changes nothing and asks for nothing.
  lemma {:induction false} RepairIdle(slots: seq<Slot>, used: set<int>, next: U32)
    requires DistinctBy(OrderOf, slots)
    requires forall i :: 0 <= i < |slots| ==>
               slots[i].order > 0 && slots[i].order !in used && Relabel(slots[i]) == slots[i]
    ensures Repair(slots, used, next) == Pass(slots, false)
  {
    if slots != [] {
      var rest := slots[1..];
      forall i | 0 <= i < |rest|
        ensures rest[i].order > 0 && rest[i].order !in used + {slots[0].order} && Relabel(rest[i]) == rest[i]
      {
        assert rest[i] == slots[i + 1] && OrderOf(slots[i + 1]) != OrderOf(slots[0]);
      }
      TailDistinct(slots);
      RepairIdle(rest, used + {slots[0].order}, next);
      assert slots == [slots[0]] + rest;
    }
  }

  lemma TailDistinct(slots: seq<Slot>)
    requires DistinctBy(OrderOf, slots) && slots != []
    ensures DistinctBy(OrderOf, slots[1..])
  {
    var rest := slots[1..];
    assert forall i :: 0 <= i < |rest| ==> rest[i] == slots[i + 1];
  }

  // ---- One call ------------------------------------------------------------------------------

  function Added(slots: seq<Slot>, observations: seq<Observation>, now: string): seq<Slot> {
    NewSlots(KeysOf(slots), Sort(ObservationLe, observations), NextOrder(slots), now)
  }

  // Orders are left for every slot this call adds.
  predicate Fits(slots: seq<Slot>, observations: seq<Observation>, now: string) {
    MaxOrder(slots) + |Added(slots, observations, now)| <= U32_MAX
  }

  ghost predicate Concatenable(a: seq<Slot>, b: seq<Slot>) {
    && WellFormed(a)
    && (forall i :: 0 <= i < |b| ==> GoodSlot(b[i]) && KeyOf(b[i]) !in KeysOf(a) && b[i].order > MaxOrder(a))
    && DistinctBy(KeyOf, b) && DistinctBy(OrderOf, b)
  }

  lemma ConcatWellFormed(a: seq<Slot>, b: seq<Slot>)
    requires Concatenable(a, b)
    ensures WellFormed(a + b)
  {
  }

  function KnownAfter(slots: seq<Slot>, observations: seq<Observation>, now: string): seq<Slot> {
    AdoptAll(KeepFirst(NormalizeAll(slots), {}), Sort(ObservationLe, observations), now).slots
  }

  lemma KnownKeepCores(slots: seq<Slot>, observations: seq<Observation>, now: string)
    requires WellFormed(slots)
    ensures SameCores(slots, KnownAfter(slots, observations, now)) && WellFormed(KnownAfter(slots, observations, now))
  {
    var normal := NormalizeAll(slots);
    NormalizeKeepsCores(slots);
    SameCoresWellFormed(slots, normal);
    KeepFirstKeepsAll(normal, {});
    AdoptAllKeepsCores(normal, Sort(ObservationLe, observations), now);
  }

  // New slots carry on the numbering from the maximum, with default labels and new keys.
  lemma AddedAreNumbered(slots: seq<Slot>, observations: seq<Observation>, now: string)
    requires WellFormed(slots) && Fits(slots, observations, now)
    ensures var added := Added(slots, observations, now);
            && (forall i :: 0 <= i < |added| ==>
                  && GoodSlot(added[i]) && KeyOf(added[i]) !in KeysOf(slots)
                  && added[i].order == MaxOrder(slots) + 1 + i
                  && added[i].title == LABEL_PREFIX + Dec(MaxOrder(slots) + 1 + i))
            && DistinctBy(KeyOf, added)
  {
    var os, added := Sort(ObservationLe, observations), Added(slots, observations, now);
    NewKeysDiffer(KeysOf(slots), os, NextOrder(slots), now);
    forall i | 0 <= i < |added|
      ensures GoodSlot(added[i]) && KeyOf(added[i]) !in KeysOf(slots)
           && added[i].order == MaxOrder(slots) + 1 + i
           && added[i].title == LABEL_PREFIX + Dec(MaxOrder(slots) + 1 + i)
    {
      AddedIsNumbered(slots, os, now, i);
    }
  }

  lemma AddedIsNumbered(slots: seq<Slot>, os: seq<Observation>, now: string, i: nat)
    requires var added := NewSlots(KeysOf(slots), os, NextOrder(slots), now);
             i < |added| && MaxOrder(slots) + |added| <= U32_MAX
    ensures var s := NewSlots(KeysOf(slots), os, NextOrder(slots), now)[i];
            && GoodSlot(s) && KeyOf(s) !in KeysOf(slots) && s.order == MaxOrder(slots) + 1 + i
            && s.title == LABEL_PREFIX + Dec(MaxOrder(slots) + 1 + i)
  {
    NewSlotIsNumbered(KeysOf(slots), os, NextOrder(slots), now, i);
    NewSlotIsUnknown(KeysOf(slots), os, NextOrder(slots), now, NewSlots(KeysOf(slots), os, NextOrder(slots), now)[i]);
  }

  // On a well-formed list the call is: adopt, append, sort.
  lemma ReconcileWellFormed(slots: seq<Slot>, observations: seq<Observation>, now: string)
    requires WellFormed(slots) && Fits(slots, observations, now)
    ensures var all := KnownAfter(slots, observations, now) + Added(slots, observations, now);
            WellFormed(all) && Reconcile(slots, observations, now).slots == Sort(SlotLe, all)
  {
    var known, added := KnownAfter(slots, observations, now), Added(slots, observations, now);
    KnownKeepCores(slots, observations, now);
    SameCoresWellFormed(slots, known);
    AppendedIsKnownAndNew(slots, observations, now);
    AddedAreNumbered(slots, observations, now);
    assert DistinctBy(OrderOf, added);
    ConcatWellFormed(known, added);
    SortedAlready(known + added);
  }

  lemma SortedAlready(appended: seq<Slot>)
    requires WellFormed(appended)
    ensures Repair(Sort(SlotLe, appended), {}, NextOrder(appended)) == Pass(Sort(SlotLe, appended), false)
    ensures Sort(SlotLe, Sort(SlotLe, appended)) == Sort(SlotLe, appended)
    ensures StrictlyAscending(Sort(SlotLe, appended)) && WellFormed(Sort(SlotLe, appended))
    ensures multiset(Sort(SlotLe, appended)) == multiset(appended)
  {
    var sorted := Sort(SlotLe, appended);
    forall i | 0 <= i < |appended| ensures appended[i].order > 0 { assert GoodSlot(appended[i]); }
    SortAscends(appended);
    DistinctPermuted(OrderOf, appended, sorted);
    DistinctPermuted(KeyOf, appended, sorted);
    forall i | 0 <= i < |sorted| ensures GoodSlot(sorted[i]) && Relabel(sorted[i]) == sorted[i] {
      assert sorted[i] in multiset(sorted) && sorted[i] in multiset(appended);
      RelabelGood(sorted[i]);
    }
    RepairIdle(sorted, {}, NextOrder(appended));
    SlotLeIsPreorder();
    SortCorrect(SlotLe, appended);
    SortIdle(SlotLe, sorted);
  }

  ghost predicate Preserves(before: seq<Slot>, after: seq<Slot>) {
    forall s :: s in before ==> exists r :: r in after && CoreOf(r) == CoreOf(s)
  }

  // A known slot keeps its key, order and label; the rest of the result is the new slots.
  lemma SlotsAreStable(slots: seq<Slot>, observations: seq<Observation>, now: string)
    requires WellFormed(slots) && Fits(slots, observations, now)
    ensures var result := Reconcile(slots, observations, now).slots;
            && WellFormed(result) && StrictlyAscending(result)
            && Preserves(slots, result)
            && |result| == |slots| + |Added(slots, observations, now)|
            && (forall s :: s in Added(slots, observations, now) ==> s in result)
  {
    ReconcileWellFormed(slots, observations, now);
    KnownKeepCores(slots, observations, now);
    var known := KnownAfter(slots, observations, now);
    var added, result := Added(slots, observations, now), Reconcile(slots, observations, now).slots;
    SortedAlready(known + added);
    assert |multiset(result)| == |multiset(known + added)|;
    forall s | s in slots ensures exists r :: r in result && CoreOf(r) == CoreOf(s) {
      var i :| 0 <= i < |slots| && slots[i] == s;
      assert known[i] in known + added && known[i] in multiset(known + added) && known[i] in multiset(result);
    }
    forall s | s in added ensures s in result {
      assert s in known + added && s in multiset(known + added) && s in multiset(result);
    }
  }

  // After a call every named observation has a slot, and only observations make new ones.
  lemma AddedAreObserved(slots: seq<Slot>, observations: seq<Observation>, now: string)
    ensures forall o :: o in observations && Trim(o.slotId) != "" ==>
              ObservedKey(o) in KeysOf(slots) + KeysOf(Added(slots, observations, now))
    ensures forall s :: s in Added(slots, observations, now) ==>
              exists o :: o in observations && ObservedKey(o) == KeyOf(s)
  {
    var os := Sort(ObservationLe, observations);
    SameObservations(observations);
    forall o | o in observations && Trim(o.slotId) != ""
      ensures ObservedKey(o) in KeysOf(slots) + KeysOf(Added(slots, observations, now))
    {
      var i :| 0 <= i < |os| && os[i] == o;
      NewSlotsCover(KeysOf(slots), os, NextOrder(slots), now, i);
    }
    forall s | s in Added(slots, observations, now)
        ensures exists o :: o in observations && ObservedKey(o) == KeyOf(s) {
      NewSlotsOrigin(KeysOf(slots), os, NextOrder(slots), now, s);
      var i :| 0 <= i < |os| && ObservedKey(os[i]) == KeyOf(s);
      assert os[i] in observations;
    }
  }

  lemma SameObservations(observations: seq<Observation>)
    ensures forall o :: o in Sort(ObservationLe, observations) <==> o in observations
  {
    ObservationLeIsPreorder();
    SortCorrect(ObservationLe, observations);
    assert forall o :: o in Sort(ObservationLe, observations) <==> o in multiset(Sort(ObservationLe, observations));
  }

  // Two entries at the top order leave nothing to repair with.
  lemma TopTwiceHasNoRoom(slots: seq<Slot>)
    requires exists i, j :: 0 <= i < j < |slots| && slots[i].order == U32_MAX && slots[j].order == U32_MAX
    ensures !RoomToRepair(slots)
  {
    var q, next := Sort(SlotLe, slots), NextOrder(slots);
    QueueOrders(slots);
    assert MaxOrder(slots) == U32_MAX;
    if Renumbered(q, {}, next) == 0 {
      NothingRenumbered(q, {}, next);
      RepairDistinct(q, {}, next);
      forall i, j | 0 <= i < j < |q| ensures OrderOf(q[i]) != OrderOf(q[j]) {
        var r := Repair(q, {}, next).slots;
        assert OrderOf(r[i]) != OrderOf(r[j]) && r[i] == Relabel(q[i]) && r[j] == Relabel(q[j]);
      }
      DistinctPermuted(OrderOf, q, slots);
    }
  }

  lemma AppendedIsKnownAndNew(slots: seq<Slot>, observations: seq<Observation>, now: string)
    requires WellFormed(slots)
    ensures Appended(slots, observations, now) == KnownAfter(slots, observations, now) + Added(slots, observations, now)
    ensures MaxOrder(KnownAfter(slots, observations, now)) == MaxOrder(slots)
  {
    var known := KnownAfter(slots, observations, now);
    KnownKeepCores(slots, observations, now);
    SameCoresWellFormed(slots, known);
    AppendIsNewSlots(known, Sort(ObservationLe, observations), NextOrder(known), now);
  }

  lemma OverflowHasNoRoom(known: seq<Slot>, added: seq<Slot>)
    requires MaxOrder(known) + |added| > U32_MAX
    requires forall i :: 0 <= i < |added| ==> added[i].order == Capped(NextOrder(known) + i)
    ensures !RoomToRepair(known + added)
  {
    var all, last := known + added, |known| + |added| - 1;
    assert all[last] == added[|added| - 1];
    if MaxOrder(known) == U32_MAX {
      var i :| 0 <= i < |known| && known[i].order == U32_MAX;
      assert all[i].order == U32_MAX;
    } else {
      assert all[last - 1] == added[|added| - 2];
    }
    TopTwiceHasNoRoom(all);
  }

  // The bound is exact: one slot too many and the orders are no longer distinct.
  lemma StabilityIsExact(slots: seq<Slot>, observations: seq<Observation>, now: string)
    requires WellFormed(slots)
    ensures WellFormed(Reconcile(slots, observations, now).slots) <==> Fits(slots, observations, now)
  {
    if Fits(slots, observations, now) {
      SlotsAreStable(slots, observations, now);
    } else {
      AppendedIsKnownAndNew(slots, observations, now);
      forall i | 0 <= i < |Added(slots, observations, now)|
        ensures Added(slots, observations, now)[i].order == Capped(NextOrder(slots) + i)
      {
        NewSlotIsNumbered(KeysOf(slots), Sort(ObservationLe, observations), NextOrder(slots), now, i);
      }
      OverflowHasNoRoom(KnownAfter(slots, observations, now), Added(slots, observations, now));
      OrderRepairExact(slots, observations, now);
      if WellFormed(Reconcile(slots, observations, now).slots) {
        WellFormedAscends(slots, observations, now);
      }
    }
  }

  lemma WellFormedAscends(slots: seq<Slot>, observations: seq<Observation>, now: string)
    requires WellFormed(Reconcile(slots, observations, now).slots)
    ensures StrictlyAscending(Reconcile(slots, observations, now).slots)
  {
    var repaired := Repaired(Appended(slots, observations, now));
    var result := Reconcile(slots, observations, now).slots;
    SlotLeIsPreorder();
    SortCorrect(SlotLe, repaired);
    forall i | 0 <= i < |result| ensures result[i].order > 0 { assert GoodSlot(result[i]); }
    forall i, j | 0 <= i < j < |result| ensures result[i].order < result[j].order {
      assert OrderOf(result[i]) != OrderOf(result[j]) && SlotLe(result[i], result[j]);
    }
  }

  lemma ObservationLeIsPreorder()
    ensures TotalPreorder(ObservationLe)
  {
    forall a, b ensures ObservationLe(a, b) || ObservationLe(b, a) {
      LexTotal(a.slotId, b.slotId);
    }
    forall a, b, c | ObservationLe(a, b) && ObservationLe(b, c) ensures ObservationLe(a, c) {
      if a.slotId != b.slotId && b.slotId != c.slotId {
        LexTransitive(a.slotId, b.slotId, c.slotId);
        LexTotal(a.slotId, b.slotId);
      }
    }
  }

  // ---- Every run -----------------------------------------------------------------------------

  datatype Call = Call(observations: seq<Observation>, now: string)

  function RunAll(slots: seq<Slot>, calls: seq<Call>): seq<Slot>
    decreases |calls|
  {
    if calls == [] then slots
    else RunAll(Reconcile(slots, calls[0].observations, calls[0].now).slots, calls[1..])
  }

  predicate AllFit(slots: seq<Slot>, calls: seq<Call>)
    decreases |calls|
  {
    calls == [] ||
    (Fits(slots, calls[0].observations, calls[0].now) &&
     AllFit(Reconcile(slots, calls[0].observations, calls[0].now).slots, calls[1..]))
  }

  // Hotplug in any order, with anything missing: a slot once known keeps its place.
  lemma {:induction false} StableOverRuns(slots: seq<Slot>, calls: seq<Call>)
    requires WellFormed(slots)
    ensures AllFit(slots, calls) ==> WellFormed(RunAll(slots, calls)) && Preserves(slots, RunAll(slots, calls))
    decreases |calls|
  {
    if calls != [] && AllFit(slots, calls) {
      var next := Reconcile(slots, calls[0].observations, calls[0].now).slots;
      SlotsAreStable(slots, calls[0].observations, calls[0].now);
      StableOverRuns(next, calls[1..]);
      forall s | s in slots ensures exists r :: r in RunAll(next, calls[1..]) && CoreOf(r) == CoreOf(s) {
        var mid :| mid in next && CoreOf(mid) == CoreOf(s);
      }
    }
  }

  // ---- The map handed to callers -------------------------------------------------------------

  lemma MapKeyInjective(a: Slot, b: Slot)
    requires MapKey(a) == MapKey(b)
    ensures KeyOf(a) == KeyOf(b)
  {
    DecSuffix(a.slotId + "#uim", a.uim, b.slotId + "#uim", b.uim);
    assert (a.slotId + "#uim")[..|a.slotId|] == a.slotId && (b.slotId + "#uim")[..|b.slotId|] == b.slotId;
  }
}
