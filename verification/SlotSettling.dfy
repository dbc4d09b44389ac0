/** When reconciliation asks for a save, when it settles, and when it makes a duplicate key. */
module SlotSettling {
  import opened Options
  import opened Sorting
  import opened Text
  import opened ModemSlots
  import opened SlotOrders
  import opened SlotStability

  // ---- The dirty flag --------------------------------------------------------------------------

  lemma {:induction false} KeepFirstShrinks(slots: seq<Slot>, seen: set<Key>)
    ensures |KeepFirst(slots, seen)| <= |slots|
    ensures |KeepFirst(slots, seen)| == |slots| ==> KeepFirst(slots, seen) == slots
  {
    if slots != [] {
      var id := IdentityOf(slots[0]);
      assert slots == [slots[0]] + slots[1..];
      if id.0 != "" && id !in seen {
        KeepFirstShrinks(slots[1..], seen + {id});
      } else {
        KeepFirstShrinks(slots[1..], seen);
      }
    }
  }

  lemma {:induction false} CleanAdoption(slots: seq<Slot>, os: seq<Observation>, now: string)
    requires !AdoptAll(slots, os, now).dirty
    ensures AdoptAll(slots, os, now).slots == slots
    decreases |os|
  {
    if os != [] {
      assert Adopt(slots, os[0], now).slots == slots;
      CleanAdoption(slots, os[1..], now);
    }
  }

  lemma {:induction false} CleanRepair(slots: seq<Slot>, used: set<int>, next: U32)
    requires !Repair(slots, used, next).dirty
    ensures Repair(slots, used, next).slots == slots
  {
    if slots != [] {
      var rest := slots[1..];
      RepairUnfolds(slots[0], rest, used, next);
      CleanRepair(rest, used + {slots[0].order}, next);
      assert slots == [slots[0]] + rest;
    }
  }

  lemma CleanCallAppendsNothing(slots: seq<Slot>, observations: seq<Observation>, now: string)
    requires !Reconcile(slots, observations, now).dirty
    ensures Appended(slots, observations, now) == slots
  {
    KeepFirstShrinks(slots, {});
    CleanAdoption(slots, Sort(ObservationLe, observations), now);
  }

  lemma CleanRepairOnlySorts(slots: seq<Slot>, repaired: Pass)
    requires repaired == Repair(Sort(SlotLe, slots), {}, NextOrder(slots)) && !repaired.dirty
    ensures Sort(SlotLe, repaired.slots) == Sort(SlotLe, slots)
  {
    CleanRepair(Sort(SlotLe, slots), {}, NextOrder(slots));
    SlotLeIsPreorder();
    SortCorrect(SlotLe, slots);
    SortIdle(SlotLe, Sort(SlotLe, slots));
  }

  lemma CleanCallRepairsNothing(slots: seq<Slot>, observations: seq<Observation>, now: string) returns (repaired: Pass)
    requires !Reconcile(slots, observations, now).dirty && Appended(slots, observations, now) == slots
    ensures repaired == Repair(Sort(SlotLe, slots), {}, NextOrder(slots)) && !repaired.dirty
    ensures Reconcile(slots, observations, now).slots == Sort(SlotLe, repaired.slots)
  {
    repaired := Repair(Sort(SlotLe, slots), {}, NextOrder(slots));
  }

  // A call that asks for no save has only sorted the entries: no content is left unsaved.
  lemma CleanCallOnlySorts(slots: seq<Slot>, observations: seq<Observation>, now: string)
    ensures !Reconcile(slots, observations, now).dirty ==>
              && Reconcile(slots, observations, now).slots == Sort(SlotLe, slots)
              && multiset(Sort(SlotLe, slots)) == multiset(slots)
  {
    SortKeepsSlots(slots);
    if !Reconcile(slots, observations, now).dirty {
      CleanCallAppendsNothing(slots, observations, now);
      var repaired := CleanCallRepairsNothing(slots, observations, now);
      CleanRepairOnlySorts(slots, repaired);
    }
  }

  lemma SortKeepsSlots(slots: seq<Slot>)
    ensures multiset(Sort(SlotLe, slots)) == multiset(slots)
  {
    SlotLeIsPreorder();
    SortCorrect(SlotLe, slots);
  }

  // ---- A repeated call ---------------------------------------------------------------------------

  // Adopting this observation again would not change the entry's content.
  predicate SettledFor(s: Slot, o: Observation) {
    s.equipment == o.equipment && !s.retired && (s.hardwareKey == "" ==> FirstOr(o.legacyKeys) == "")
  }

  predicate Tidy(o: Observation) {
    Trimmed(o.slotId) && Trimmed(FirstOr(o.legacyKeys))
  }

  ghost predicate Settled(slots: seq<Slot>, os: seq<Observation>) {
    forall s, o :: s in slots && o in os && Matches(s, o) ==> SettledFor(s, o)
  }

  ghost predicate TidyHardware(slots: seq<Slot>) {
    forall s :: s in slots ==> Trimmed(s.hardwareKey)
  }

  lemma MatchIsByKey(s: Slot, o: Observation)
    requires s.slotId != "" && Trimmed(o.slotId)
    ensures Matches(s, o) <==> KeyOf(s) == ObservedKey(o)
  {
  }

  lemma KeysIdentify(slots: seq<Slot>, i: nat, j: nat)
    requires DistinctBy(KeyOf, slots) && i < |slots| && j < |slots| && KeyOf(slots[i]) == KeyOf(slots[j])
    ensures i == j
  {
  }

  lemma OneMatch(slots: seq<Slot>, o: Observation, i: nat, j: nat)
    requires WellFormed(slots) && Trimmed(o.slotId) && i < |slots| && j < |slots|
    requires Matches(slots[i], o) && Matches(slots[j], o)
    ensures i == j
  {
    MatchIsByKey(slots[i], o);
    MatchIsByKey(slots[j], o);
    KeysIdentify(slots, i, j);
  }

  lemma AdoptKeepsWellFormed(slots: seq<Slot>, o: Observation, now: string)
    requires WellFormed(slots)
    ensures SameCores(slots, Adopt(slots, o, now).slots) && WellFormed(Adopt(slots, o, now).slots)
  {
  }

  lemma AdoptKeepsTidy(slots: seq<Slot>, o: Observation, now: string)
    requires TidyHardware(slots) && Tidy(o)
    ensures TidyHardware(Adopt(slots, o, now).slots)
  {
  }

  lemma AdoptSettlesAt(slots: seq<Slot>, o: Observation, d: Observation, now: string, k: nat)
    requires WellFormed(slots) && Tidy(o) && Tidy(d) && k < |slots|
    requires d == o || (ObservedKey(d) != ObservedKey(o) && (Matches(slots[k], d) ==> SettledFor(slots[k], d)))
    requires Matches(Adopt(slots, o, now).slots[k], d)
    ensures SettledFor(Adopt(slots, o, now).slots[k], d)
  {
    var i, s := FirstMatch(slots, o), Adopt(slots, o, now).slots[k];
    AdoptKeepsWellFormed(slots, o, now);
    MatchIsByKey(s, o);
    MatchIsByKey(s, d);
    if d == o && k != i {
      OneMatch(Adopt(slots, o, now).slots, o, i, k);
    }
  }

  lemma AdoptSettles(slots: seq<Slot>, o: Observation, done: seq<Observation>, now: string)
    requires WellFormed(slots) && Settled(slots, done)
    requires Tidy(o) && forall d :: d in done ==> Tidy(d) && ObservedKey(d) != ObservedKey(o)
    ensures Settled(Adopt(slots, o, now).slots, done + [o])
  {
    var next := Adopt(slots, o, now).slots;
    forall s, d | s in next && d in done + [o] && Matches(s, d) ensures SettledFor(s, d) {
      var k :| 0 <= k < |next| && next[k] == s;
      assert slots[k] in slots && (d == o || d in done);
      AdoptSettlesAt(slots, o, d, now, k);
    }
  }

  lemma {:induction false} AdoptAllSettles(slots: seq<Slot>, os: seq<Observation>, done: seq<Observation>, now: string)
    requires WellFormed(slots) && TidyHardware(slots) && Settled(slots, done)
    requires DistinctBy(ObservedKey, done + os) && forall o :: o in done + os ==> Tidy(o)
    ensures var next := AdoptAll(slots, os, now).slots;
            WellFormed(next) && TidyHardware(next) && Settled(next, done + os)
    decreases |os|
  {
    if os == [] {
      assert done + os == done;
    } else {
      forall d | d in done ensures Tidy(d) && ObservedKey(d) != ObservedKey(os[0]) {
        var k :| 0 <= k < |done| && done[k] == d;
        assert (done + os)[k] == d && (done + os)[|done|] == os[0];
        assert d in done + os;
      }
      assert os[0] in done + os;
      AdoptKeepsWellFormed(slots, os[0], now);
      AdoptKeepsTidy(slots, os[0], now);
      AdoptSettles(slots, os[0], done, now);
      assert done + [os[0]] + os[1..] == done + os;
      AdoptAllSettles(Adopt(slots, os[0], now).slots, os[1..], done + [os[0]], now);
    }
  }

  // A match with no hardware key is overwritten, possibly by another empty one, and counted as a change.
  ghost predicate AsksAgain(slots: seq<Slot>, os: seq<Observation>) {
    exists i, k :: 0 <= i < |slots| && 0 <= k < |os| && Matches(slots[i], os[k]) && slots[i].hardwareKey == ""
  }

  lemma SettledAdopt(slots: seq<Slot>, o: Observation, now: string)
    requires WellFormed(slots) && Tidy(o) && Settled(slots, [o])
    ensures Adopt(slots, o, now).slots == slots
    ensures Adopt(slots, o, now).dirty <==> AsksAgain(slots, [o])
  {
  }

  lemma {:induction false} SettledAdoption(slots: seq<Slot>, os: seq<Observation>, now: string)
    requires WellFormed(slots) && Settled(slots, os) && forall o :: o in os ==> Tidy(o)
    ensures AdoptAll(slots, os, now).slots == slots
    ensures AdoptAll(slots, os, now).dirty <==> AsksAgain(slots, os)
    decreases |os|
  {
    if os != [] {
      assert os == [os[0]] + os[1..];
      SettledAdopt(slots, os[0], now);
      SettledAdoption(slots, os[1..], now);
      AsksAgainSplits(slots, os);
    }
  }

  lemma AsksAgainSplits(slots: seq<Slot>, os: seq<Observation>)
    requires os != []
    ensures AsksAgain(slots, os) <==> AsksAgain(slots, [os[0]]) || AsksAgain(slots, os[1..])
  {
    if AsksAgain(slots, [os[0]]) {
      var i, k :| 0 <= i < |slots| && 0 <= k < |[os[0]]| && Matches(slots[i], [os[0]][k]) && slots[i].hardwareKey == "";
      assert Matches(slots[i], os[0]);
    }
    if AsksAgain(slots, os[1..]) {
      var i, k :| 0 <= i < |slots| && 0 <= k < |os[1..]| && Matches(slots[i], os[1..][k]) && slots[i].hardwareKey == "";
      assert Matches(slots[i], os[k + 1]);
    }
    if AsksAgain(slots, os) {
      var i, k :| 0 <= i < |slots| && 0 <= k < |os| && Matches(slots[i], os[k]) && slots[i].hardwareKey == "";
      if k == 0 { assert Matches(slots[i], [os[0]][0]); } else { assert Matches(slots[i], os[1..][k - 1]); }
    }
  }

  // ---- After one call ------------------------------------------------------------------------

  lemma {:induction false} NewSlotsSettled(known: set<Key>, os: seq<Observation>, next: U32, now: string, s: Slot)
    requires next > 0 && s in NewSlots(known, os, next, now)
    ensures exists k :: 0 <= k < |os| && ObservedKey(os[k]) == KeyOf(s)
                        && s.hardwareKey == FirstOr(os[k].legacyKeys) && s.equipment == os[k].equipment && !s.retired
    decreases |os|
  {
    var o, rest := os[0], os[1..];
    if Trim(o.slotId) == "" || ObservedKey(o) in known {
      NewSlotsSettled(known, rest, next, now, s);
      var k :| 0 <= k < |rest| && ObservedKey(rest[k]) == KeyOf(s)
               && s.hardwareKey == FirstOr(rest[k].legacyKeys) && s.equipment == rest[k].equipment && !s.retired;
      assert os[k + 1] == rest[k];
    } else if s != NewSlot(o, next, now) {
      NewSlotsSettled(known + {ObservedKey(o)}, rest, SatInc(next), now, s);
      var k :| 0 <= k < |rest| && ObservedKey(rest[k]) == KeyOf(s)
               && s.hardwareKey == FirstOr(rest[k].legacyKeys) && s.equipment == rest[k].equipment && !s.retired;
      assert os[k + 1] == rest[k];
    } else {
      assert ObservedKey(os[0]) == KeyOf(s);
    }
  }

  // Observations whose names are trimmed and whose identities are distinct.
  ghost predicate CleanReport(observations: seq<Observation>) {
    DistinctBy(ObservedKey, observations) && forall o :: o in observations ==> Tidy(o)
  }

  lemma CleanReportSorted(observations: seq<Observation>)
    requires CleanReport(observations)
    ensures CleanReport(Sort(ObservationLe, observations))
  {
    var os := Sort(ObservationLe, observations);
    ObservationLeIsPreorder();
    SortCorrect(ObservationLe, observations);
    DistinctPermuted(ObservedKey, observations, os);
    SameObservations(observations);
  }

  lemma NormalizeTidies(slots: seq<Slot>)
    ensures TidyHardware(NormalizeAll(slots))
  {
    forall s | s in NormalizeAll(slots) ensures Trimmed(s.hardwareKey) {
      var i :| 0 <= i < |slots| && NormalizeAll(slots)[i] == s;
      TrimTrims(slots[i].hardwareKey);
    }
  }

  lemma KnownSettled(slots: seq<Slot>, observations: seq<Observation>, now: string)
    requires WellFormed(slots) && CleanReport(observations)
    ensures var known := KnownAfter(slots, observations, now);
            TidyHardware(known) && Settled(known, Sort(ObservationLe, observations))
  {
    var normal, os := NormalizeAll(slots), Sort(ObservationLe, observations);
    NormalizeKeepsCores(slots);
    SameCoresWellFormed(slots, normal);
    KeepFirstKeepsAll(normal, {});
    NormalizeTidies(slots);
    CleanReportSorted(observations);
    assert [] + os == os;
    AdoptAllSettles(normal, os, [], now);
  }

  lemma AddedSettled(slots: seq<Slot>, observations: seq<Observation>, now: string)
    requires CleanReport(observations)
    ensures var added := Added(slots, observations, now);
            TidyHardware(added) && Settled(added, Sort(ObservationLe, observations))
  {
    var added, os := Added(slots, observations, now), Sort(ObservationLe, observations);
    CleanReportSorted(observations);
    forall s | s in added
      ensures Trimmed(s.hardwareKey) && forall o :: o in os && Matches(s, o) ==> SettledFor(s, o)
    {
      NewSlotIsUnknown(KeysOf(slots), os, NextOrder(slots), now, s);
      NewSlotsSettled(KeysOf(slots), os, NextOrder(slots), now, s);
      var k :| 0 <= k < |os| && ObservedKey(os[k]) == KeyOf(s)
               && s.hardwareKey == FirstOr(os[k].legacyKeys) && s.equipment == os[k].equipment && !s.retired;
      assert os[k] in os;
      forall o | o in os && Matches(s, o) ensures SettledFor(s, o) {
        MatchIsByKey(s, o);
        var j :| 0 <= j < |os| && os[j] == o;
        ObservationsIdentify(os, j, k);
      }
    }
  }

  lemma ObservationsIdentify(os: seq<Observation>, i: nat, j: nat)
    requires DistinctBy(ObservedKey, os) && i < |os| && j < |os| && ObservedKey(os[i]) == ObservedKey(os[j])
    ensures i == j
  {
  }

  lemma FirstCallSettles(slots: seq<Slot>, observations: seq<Observation>, now: string)
    requires WellFormed(slots) && Fits(slots, observations, now) && CleanReport(observations)
    ensures var result := Reconcile(slots, observations, now).slots;
            TidyHardware(result) && Settled(result, Sort(ObservationLe, observations))
  {
    var os, result := Sort(ObservationLe, observations), Reconcile(slots, observations, now).slots;
    var all := KnownAfter(slots, observations, now) + Added(slots, observations, now);
    KnownSettled(slots, observations, now);
    AddedSettled(slots, observations, now);
    ReconcileWellFormed(slots, observations, now);
    SortedAlready(all);
    forall s | s in result ensures s in all {
      assert s in multiset(result);
    }
  }

  // Every observed name is known: nothing is appended.
  lemma {:induction false} NothingNew(known: set<Key>, os: seq<Observation>, next: U32, now: string)
    requires forall k :: 0 <= k < |os| && Trim(os[k].slotId) != "" ==> ObservedKey(os[k]) in known
    ensures NewSlots(known, os, next, now) == []
    decreases |os|
  {
    if os != [] { NothingNew(known, os[1..], next, now); }
  }

  // A settled list comes back as it is, and is reported changed exactly when a match has no hardware key.
  lemma SettledReconcile(slots: seq<Slot>, observations: seq<Observation>, now: string)
    requires WellFormed(slots) && StrictlyAscending(slots) && TidyHardware(slots)
    requires CleanReport(observations) && Settled(slots, Sort(ObservationLe, observations))
    requires forall o :: o in observations && Trim(o.slotId) != "" ==> ObservedKey(o) in KeysOf(slots)
    ensures Reconcile(slots, observations, now).slots == slots
    ensures Reconcile(slots, observations, now).dirty <==> AsksAgain(slots, observations)
  {
    var os := Sort(ObservationLe, observations);
    forall i | 0 <= i < |slots| ensures Normalize(slots[i]) == slots[i] {
      assert GoodSlot(slots[i]) && slots[i] in slots;
      TrimTrims(slots[i].slotId);
      TrimTrims(slots[i].hardwareKey);
    }
    assert NormalizeAll(slots) == slots;
    KeepFirstKeepsAll(slots, {});
    CleanReportSorted(observations);
    SettledAdoption(slots, os, now);
    SameObservations(observations);
    NothingNew(KeysOf(slots), os, NextOrder(slots), now);
    AppendIsNewSlots(slots, os, NextOrder(slots), now);
    SortIdleAscending(slots);
    SortedAlready(slots);
    AsksAgainSorted(slots, observations);
  }

  lemma SortIdleAscending(slots: seq<Slot>)
    requires StrictlyAscending(slots)
    ensures Sort(SlotLe, slots) == slots
  {
  }

  lemma AsksAgainSorted(slots: seq<Slot>, observations: seq<Observation>)
    ensures AsksAgain(slots, observations) <==> AsksAgain(slots, Sort(ObservationLe, observations))
  {
    var os := Sort(ObservationLe, observations);
    SameObservations(observations);
    if AsksAgain(slots, observations) {
      var i, k :| 0 <= i < |slots| && 0 <= k < |observations| && Matches(slots[i], observations[k])
          && slots[i].hardwareKey == "";
      assert observations[k] in os;
      var j :| 0 <= j < |os| && os[j] == observations[k];
      assert Matches(slots[i], os[j]);
    }
    if AsksAgain(slots, os) {
      var i, k :| 0 <= i < |slots| && 0 <= k < |os| && Matches(slots[i], os[k]) && slots[i].hardwareKey == "";
      assert os[k] in observations;
      var j :| 0 <= j < |observations| && observations[j] == os[k];
      assert Matches(slots[i], observations[j]);
    }
  }

  // Reporting the same hardware again, at any later time, changes nothing. The repeat still asks
  // for a save exactly when it meets an observed slot that has no hardware key.
  lemma SecondCallIsIdle(slots: seq<Slot>, observations: seq<Observation>, now: string, later: string)
    requires WellFormed(slots) && Fits(slots, observations, now) && CleanReport(observations)
    ensures var once := Reconcile(slots, observations, now).slots;
            && Reconcile(once, observations, later).slots == once
            && (Reconcile(once, observations, later).dirty <==> AsksAgain(once, observations))
  {
    var once := Reconcile(slots, observations, now).slots;
    SlotsAreStable(slots, observations, now);
    FirstCallSettles(slots, observations, now);
    forall o | o in observations && Trim(o.slotId) != "" ensures ObservedKey(o) in KeysOf(once) {
      ObservedIsKnown(slots, observations, now, o);
    }
    SettledReconcile(once, observations, later);
  }

  lemma ObservedIsKnown(slots: seq<Slot>, observations: seq<Observation>, now: string, o: Observation)
    requires WellFormed(slots) && Fits(slots, observations, now) && o in observations && Trim(o.slotId) != ""
    ensures ObservedKey(o) in KeysOf(Reconcile(slots, observations, now).slots)
  {
    var once, added := Reconcile(slots, observations, now).slots, Added(slots, observations, now);
    SlotsAreStable(slots, observations, now);
    AddedAreObserved(slots, observations, now);
    if ObservedKey(o) in KeysOf(slots) {
      var i :| 0 <= i < |slots| && KeyOf(slots[i]) == ObservedKey(o);
      assert slots[i] in slots;
      var r :| r in once && CoreOf(r) == CoreOf(slots[i]);
      assert KeyOf(r) == ObservedKey(o);
    } else {
      var i :| 0 <= i < |added| && KeyOf(added[i]) == ObservedKey(o);
      assert added[i] in added && added[i] in once;
    }
  }
}
