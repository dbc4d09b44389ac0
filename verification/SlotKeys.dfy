/** Which reconciliations leave two entries for one slot, and the map built from the entries. */
module SlotKeys {
  import opened Options
  import opened Sorting
  import opened Text
  import opened ModemSlots
  import opened SlotOrders
  import opened SlotStability

  // No two named entries stand for the same physical slot.
  ghost predicate NamedDistinct(slots: seq<Slot>) {
    forall i, j :: 0 <= i < j < |slots| && slots[i].slotId != "" && slots[j].slotId != "" ==>
        KeyOf(slots[i]) != KeyOf(slots[j])
  }

  // The observation is taken by an unnamed entry although another entry already has its name.
  predicate Shadowed(slots: seq<Slot>, o: Observation) {
    && FirstMatch(slots, o) < |slots| && slots[FirstMatch(slots, o)].slotId == ""
    && o.slotId != ""
    && exists j :: 0 <= j < |slots| && slots[j].slotId == o.slotId && slots[j].uim == AtLeastOne(o.uim)
  }

  predicate AnyShadowed(slots: seq<Slot>, os: seq<Observation>, now: string)
    decreases |os|
  {
    os != [] && (Shadowed(slots, os[0]) || AnyShadowed(Adopt(slots, os[0], now).slots, os[1..], now))
  }

  // ---- Each pass -------------------------------------------------------------------------------

  lemma {:induction false} KeepFirstDistinct(slots: seq<Slot>, seen: set<Key>)
    ensures DistinctBy(IdentityOf, KeepFirst(slots, seen))
    ensures forall s :: s in KeepFirst(slots, seen) ==> IdentityOf(s) !in seen
  {
    if slots != [] {
      KeepFirstDistinct(slots[1..], seen);
      KeepFirstDistinct(slots[1..], seen + {IdentityOf(slots[0])});
    }
  }

  lemma UniqueIsNamedDistinct(slots: seq<Slot>)
    ensures NamedDistinct(KeepFirst(slots, {}))
  {
    KeepFirstDistinct(slots, {});
    var u := KeepFirst(slots, {});
    forall i, j | 0 <= i < j < |u| && u[i].slotId != "" && u[j].slotId != "" ensures KeyOf(u[i]) != KeyOf(u[j]) {
      assert IdentityOf(u[i]) != IdentityOf(u[j]);
    }
  }

  // Adopting makes a duplicate exactly when an unnamed entry is listed before the named one.
  lemma AdoptKeepsKeys(slots: seq<Slot>, o: Observation, now: string)
    requires NamedDistinct(slots)
    ensures NamedDistinct(Adopt(slots, o, now).slots) <==> !Shadowed(slots, o)
  {
    var i, next := FirstMatch(slots, o), Adopt(slots, o, now).slots;
    if Shadowed(slots, o) {
      var j :| 0 <= j < |slots| && slots[j].slotId == o.slotId && slots[j].uim == AtLeastOne(o.uim);
      assert Matches(slots[j], o);
      assert i < j && KeyOf(next[i]) == KeyOf(next[j]);
    } else {
      forall a, b | 0 <= a < b < |next| && next[a].slotId != "" && next[b].slotId != ""
        ensures KeyOf(next[a]) != KeyOf(next[b])
      {
        if a != i { assert next[a] == slots[a]; }
        if b != i { assert next[b] == slots[b]; }
      }
    }
  }

  // A duplicate stays for the rest of the pass.
  lemma AdoptKeepsDuplicate(slots: seq<Slot>, o: Observation, now: string)
    requires !NamedDistinct(slots)
    ensures !NamedDistinct(Adopt(slots, o, now).slots)
  {
    var next := Adopt(slots, o, now).slots;
    var i, j :| 0 <= i < j < |slots| && slots[i].slotId != "" && slots[j].slotId != ""
        && KeyOf(slots[i]) == KeyOf(slots[j]);
    assert KeyOf(next[i]) == KeyOf(slots[i]) && KeyOf(next[j]) == KeyOf(slots[j]);
  }

  lemma {:induction false} AdoptAllKeepsKeys(slots: seq<Slot>, os: seq<Observation>, now: string)
    ensures NamedDistinct(AdoptAll(slots, os, now).slots) <==> NamedDistinct(slots) && !AnyShadowed(slots, os, now)
    decreases |os|
  {
    if os != [] {
      AdoptAllKeepsKeys(Adopt(slots, os[0], now).slots, os[1..], now);
      if NamedDistinct(slots) {
        AdoptKeepsKeys(slots, os[0], now);
      } else {
        AdoptKeepsDuplicate(slots, os[0], now);
      }
    }
  }

  lemma NamedDistinctGrows(slots: seq<Slot>, s: Slot)
    requires s.slotId != "" && !Known(slots, KeyOf(s))
    ensures NamedDistinct(slots + [s]) <==> NamedDistinct(slots)
  {
    var more := slots + [s];
    if NamedDistinct(more) {
      forall i, j | 0 <= i < j < |slots| && slots[i].slotId != "" && slots[j].slotId != ""
        ensures KeyOf(slots[i]) != KeyOf(slots[j])
      {
        assert more[i] == slots[i] && more[j] == slots[j];
      }
    }
  }

  lemma {:induction false} AppendKeepsKeys(slots: seq<Slot>, os: seq<Observation>, next: U32, now: string)
    ensures NamedDistinct(AppendNew(slots, os, next, now)) <==> NamedDistinct(slots)
    decreases |os|
  {
    if os != [] {
      if Trim(os[0].slotId) == "" || Known(slots, ObservedKey(os[0])) {
        AppendKeepsKeys(slots, os[1..], next, now);
      } else {
        NamedDistinctGrows(slots, NewSlot(os[0], next, now));
        AppendKeepsKeys(slots + [NewSlot(os[0], next, now)], os[1..], SatInc(next), now);
      }
    }
  }

  lemma NamedPermuted(a: seq<Slot>, b: seq<Slot>)
    requires multiset(a) == multiset(b) && NamedDistinct(a)
    ensures NamedDistinct(b)
  {
    forall i, j | 0 <= i < j < |b| && b[i].slotId != "" && b[j].slotId != "" ensures KeyOf(b[i]) != KeyOf(b[j]) {
      Repeated(b, b[i]);
      Repeated(a, b[i]);
      Repeated(b, b[j]);
      Repeated(a, b[j]);
    }
  }

  lemma SortKeepsKeys(slots: seq<Slot>)
    ensures NamedDistinct(Sort(SlotLe, slots)) <==> NamedDistinct(slots)
  {
    SlotLeIsPreorder();
    SortCorrect(SlotLe, slots);
    if NamedDistinct(slots) { NamedPermuted(slots, Sort(SlotLe, slots)); }
    if NamedDistinct(Sort(SlotLe, slots)) { NamedPermuted(Sort(SlotLe, slots), slots); }
  }

  lemma RepairKeepsKeys(slots: seq<Slot>, next: U32)
    ensures NamedDistinct(Repair(slots, {}, next).slots) <==> NamedDistinct(slots)
  {
    RepairShape(slots, {}, next);
    var r := Repair(slots, {}, next).slots;
    forall i | 0 <= i < |slots| ensures KeyOf(r[i]) == KeyOf(slots[i]) {
      assert r[i] == Relabel(slots[i].(order := r[i].order));
    }
  }

  // ---- Main result -------------------------------------------------------------------------------

  // One call ends with one entry per slot exactly when no observation was shadowed on the way.
  lemma ReconcileKeysExact(slots: seq<Slot>, observations: seq<Observation>, now: string)
    ensures NamedDistinct(Reconcile(slots, observations, now).slots)
       <==> !AnyShadowed(KeepFirst(NormalizeAll(slots), {}), Sort(ObservationLe, observations), now)
  {
    var os, unique := Sort(ObservationLe, observations), KeepFirst(NormalizeAll(slots), {});
    var known := AdoptAll(unique, os, now).slots;
    var appended := AppendNew(known, os, NextOrder(known), now);
    UniqueIsNamedDistinct(NormalizeAll(slots));
    AdoptAllKeepsKeys(unique, os, now);
    AppendKeepsKeys(known, os, NextOrder(known), now);
    SortKeepsKeys(appended);
    RepairKeepsKeys(Sort(SlotLe, appended), NextOrder(appended));
    SortKeepsKeys(Repaired(appended));
  }

  // An unnamed entry that some observation offers to name.
  predicate Claimable(s: Slot, o: Observation) {
    s.slotId == "" && s.hardwareKey in o.legacyKeys && s.uim == AtLeastOne(o.uim)
  }

  ghost predicate NoneClaimable(slots: seq<Slot>, os: seq<Observation>) {
    forall i, o :: 0 <= i < |slots| && o in os ==> !Claimable(slots[i], o)
  }

  predicate Identified(slots: seq<Slot>) {
    forall i :: 0 <= i < |slots| ==> IdentityOf(slots[i]).0 != ""
  }

  lemma {:induction false} KeepFirstIdentifies(slots: seq<Slot>, seen: set<Key>)
    ensures Identified(KeepFirst(slots, seen))
    ensures forall s :: s in KeepFirst(slots, seen) ==> s in slots
  {
    if slots != [] {
      KeepFirstIdentifies(slots[1..], seen);
      KeepFirstIdentifies(slots[1..], seen + {IdentityOf(slots[0])});
    }
  }

  lemma AdoptKeepsUnclaimable(slots: seq<Slot>, o: Observation, os: seq<Observation>, now: string)
    requires Identified(slots) && NoneClaimable(slots, os) && o in os
    ensures !Shadowed(slots, o)
    ensures var next := Adopt(slots, o, now).slots; Identified(next) && NoneClaimable(next, os)
  {
    var i := FirstMatch(slots, o);
    if i < |slots| {
      assert !Claimable(slots[i], o) && IdentityOf(slots[i]).0 != "";
      assert slots[i].slotId == o.slotId;
    }
  }

  lemma {:induction false} UnclaimableIsUnshadowed(slots: seq<Slot>, os: seq<Observation>, all: seq<Observation>,
      now: string)
    requires Identified(slots) && NoneClaimable(slots, all) && forall o :: o in os ==> o in all
    ensures !AnyShadowed(slots, os, now)
    decreases |os|
  {
    if os != [] {
      assert os[0] in os;
      AdoptKeepsUnclaimable(slots, os[0], all, now);
      UnclaimableIsUnshadowed(Adopt(slots, os[0], now).slots, os[1..], all, now);
    }
  }

  // A duplicate is gone after the next call whose report offers no name to an unnamed entry,
  // whatever else it reports. With several such entries it can come back call after call.
  lemma NextCallDropsDuplicate(slots: seq<Slot>, observations: seq<Observation>, now: string)
    requires NoneClaimable(NormalizeAll(slots), observations)
    ensures NamedDistinct(Reconcile(slots, observations, now).slots)
  {
    var normal, os := NormalizeAll(slots), Sort(ObservationLe, observations);
    var unique := KeepFirst(normal, {});
    KeepFirstIdentifies(normal, {});
    SameObservations(observations);
    forall i, o | 0 <= i < |unique| && o in observations ensures !Claimable(unique[i], o) {
      assert unique[i] in normal;
    }
    UnclaimableIsUnshadowed(unique, os, observations, now);
    ReconcileKeysExact(slots, observations, now);
  }

  // Two stored entries and one report are enough to make a duplicate.
  lemma DuplicateHappens(now: string)
    ensures var legacy := Slot("", "imei-1", 1, 1, "A", "", None, false);
            var exact := Slot("usb-1", "", 1, 2, "B", "", None, false);
            !NamedDistinct(Reconcile([legacy, exact], [Observation("usb-1", ["imei-1"], "", 1)], now).slots)
  {
    var legacy := Slot("", "imei-1", 1, 1, "A", "", None, false);
    var exact := Slot("usb-1", "", 1, 2, "B", "", None, false);
    var o := Observation("usb-1", ["imei-1"], "", 1);
    var slots := [legacy, exact];
    assert NormalizeAll(slots) == slots by {
      assert Trim("") == "" && Trim("imei-1") == "imei-1" && Trim("usb-1") == "usb-1";
    }
    assert |"imei-1"| != |"usb-1"|;
    KeepBoth(legacy, exact);
    assert Sort(ObservationLe, [o]) == [o];
    assert Matches(slots[0], o) && FirstMatch(slots, o) == 0;
    assert Shadowed(slots, o) by { assert slots[1].slotId == o.slotId; }
    ReconcileKeysExact(slots, [o], now);
  }

  lemma KeepBoth(a: Slot, b: Slot)
    requires IdentityOf(a).0 != "" && IdentityOf(b).0 != "" && IdentityOf(a) != IdentityOf(b)
    ensures KeepFirst([a, b], {}) == [a, b]
  {
    assert [a, b][1..] == [b] && [b][1..] == [];
    var seen := {} + {IdentityOf(a)};
    assert KeepFirst([b], seen) == [b] + KeepFirst([b][1..], seen + {IdentityOf(b)});
    assert KeepFirst([a, b], {}) == [a] + KeepFirst([b], seen);
  }

  // ---- The map handed to callers -------------------------------------------------------------------

  // Named entries by `slot#uimN`; a later entry replaces an earlier one of the same key.
  function MapOf(slots: seq<Slot>): map<string, Slot> {
    if slots == [] then map[]
    else
      var front, last := MapOf(slots[..|slots| - 1]), slots[|slots| - 1];
      if last.slotId == "" then front else front[MapKey(last) := last]
  }

  // The map holds named entries of the list, each under its own key.
  lemma {:induction false} MapHoldsEntries(slots: seq<Slot>, key: string)
    requires key in MapOf(slots)
    ensures MapOf(slots)[key] in slots && MapOf(slots)[key].slotId != "" && MapKey(MapOf(slots)[key]) == key
  {
    var front, last := slots[..|slots| - 1], slots[|slots| - 1];
    if last.slotId == "" || key != MapKey(last) {
      MapHoldsEntries(front, key);
      assert slots == front + [last];
    }
  }

  // With one entry per slot, each named entry is found under its key.
  lemma {:induction false} MapIsExact(slots: seq<Slot>, i: nat)
    requires NamedDistinct(slots) && i < |slots| && slots[i].slotId != ""
    ensures MapKey(slots[i]) in MapOf(slots) && MapOf(slots)[MapKey(slots[i])] == slots[i]
  {
    var front, last := slots[..|slots| - 1], slots[|slots| - 1];
    if i < |front| {
      MapIsExact(front, i);
      if last.slotId != "" && MapKey(slots[i]) == MapKey(last) {
        MapKeyInjective(slots[i], last);
      }
    }
  }
}
