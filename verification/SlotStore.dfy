/** The stored slot list and its reconciliation, pass by pass, in place. */
module SlotStore {
  import opened Options
  import opened Sorting
  import opened Text
  import opened ModemSlots
  import SlotKeys

  lemma KeepFirstStep(slots: seq<Slot>, seen: set<Key>, kept: seq<Slot>)
    requires slots != []
    ensures var id := IdentityOf(slots[0]);
            kept + KeepFirst(slots, seen) ==
              if id.0 != "" && id !in seen then kept + [slots[0]] + KeepFirst(slots[1..], seen + {id})
              else kept + KeepFirst(slots[1..], seen)
  {
  }

  lemma RepairStep(slots: seq<Slot>, used: set<int>, next: U32, done: seq<Slot>)
    requires slots != []
    ensures var renumber, s1 := NeedsOrder(slots[0], used), Numbered(slots[0], used, next);
            var rest := Repair(slots[1..], used + {s1.order}, NextAfter(slots[0], used, next));
            && done + Repair(slots, used, next).slots == done + [Relabel(s1)] + rest.slots
            && Repair(slots, used, next).dirty == (renumber || Relabel(s1) != s1 || rest.dirty)
  {
    assert slots == [slots[0]] + slots[1..];
    RepairUnfolds(slots[0], slots[1..], used, next);
  }

  lemma ReplaceNext(done: seq<Slot>, rest: seq<Slot>, slot: Slot)
    requires rest != []
    ensures (done + rest)[|done| := slot] == done + [slot] + rest[1..]
  {
  }

  class ModemSlotStore {
    var modemSlots: seq<Slot>

    constructor (slots: seq<Slot>)
      ensures modemSlots == slots
    {
      modemSlots := slots;
    }

    method NormalizeIdentities() returns (changed: bool)
      modifies this
      ensures modemSlots == NormalizeAll(old(modemSlots))
      ensures changed <==> modemSlots != old(modemSlots)
    {
      var i := 0;
      changed := false;
      while i < |modemSlots|
        invariant i <= |modemSlots| == |old(modemSlots)|
        invariant forall k :: 0 <= k < i ==> modemSlots[k] == Normalize(old(modemSlots[k]))
        invariant forall k :: i <= k < |modemSlots| ==> modemSlots[k] == old(modemSlots[k])
        invariant changed <==> exists k :: 0 <= k < i && Normalize(old(modemSlots[k])) != old(modemSlots[k])
      {
        var slot := modemSlots[i];
        if slot.uim == 0 {
          slot := slot.(uim := 1);
          changed := true;
        }
        if Trim(slot.slotId) != slot.slotId {
          slot := slot.(slotId := Trim(slot.slotId));
          changed := true;
        }
        if Trim(slot.hardwareKey) != slot.hardwareKey {
          slot := slot.(hardwareKey := Trim(slot.hardwareKey));
          changed := true;
        }
        modemSlots := modemSlots[i := slot];
        i := i + 1;
      }
    }

    method RetainFirst()
      modifies this
      ensures modemSlots == KeepFirst(old(modemSlots), {})
    {
      var all, kept, seen, i := modemSlots, [], {}, 0;
      assert all[0..] == all;
      while i < |all|
        invariant i <= |all|
        invariant kept + KeepFirst(all[i..], seen) == KeepFirst(all, {})
      {
        var slot := all[i];
        var identity := (if slot.slotId == "" then slot.hardwareKey else slot.slotId, slot.uim);
        KeepFirstStep(all[i..], seen, kept);
        assert all[i..][1..] == all[i + 1..] && slot == all[i..][0];
        if identity.0 != "" && identity !in seen {
          kept := kept + [slot];
          seen := seen + {identity};
        }
        i := i + 1;
      }
      modemSlots := kept;
    }

    method Position(o: Observation) returns (i: nat)
      ensures i == FirstMatch(modemSlots, o)
    {
      i := 0;
      while i < |modemSlots|
        invariant i <= |modemSlots|
        invariant forall k :: 0 <= k < i ==> !Matches(modemSlots[k], o)
      {
        if Matches(modemSlots[i], o) { return; }
        i := i + 1;
      }
    }

    static method AdoptSlot(s: Slot, o: Observation, now: string) returns (slot: Slot, changed: bool)
      ensures slot == Adopted(s, o, now) && (changed <==> AdoptDirties(s, o))
    {
      slot, changed := s, false;
      if slot.slotId != o.slotId {
        slot := slot.(slotId := o.slotId);
        changed := true;
      }
      if slot.hardwareKey == "" {
        slot := slot.(hardwareKey := FirstOr(o.legacyKeys));
        changed := true;
      }
      if slot.equipment != o.equipment {
        slot := slot.(equipment := o.equipment, lastSeen := Some(now));
        changed := true;
      }
      if slot.retired {
        slot := slot.(retired := false);
        changed := true;
      }
    }

    method AdoptObserved(os: seq<Observation>, now: string) returns (changed: bool)
      modifies this
      ensures Pass(modemSlots, changed) == AdoptAll(old(modemSlots), os, now)
    {
      var k := 0;
      changed := false;
      while k < |os|
        invariant k <= |os|
        invariant AdoptAll(old(modemSlots), os, now).slots == AdoptAll(modemSlots, os[k..], now).slots
        invariant AdoptAll(old(modemSlots), os, now).dirty == (changed || AdoptAll(modemSlots, os[k..], now).dirty)
      {
        assert os[k..][0] == os[k] && os[k..][1..] == os[k + 1..];
        var index := Position(os[k]);
        if index < |modemSlots| {
          var slot, touched := AdoptSlot(modemSlots[index], os[k], now);
          modemSlots := modemSlots[index := slot];
          changed := changed || touched;
        }
        k := k + 1;
      }
    }

    method LargestOrder() returns (m: U32)
      ensures m == MaxOrder(modemSlots)
    {
      m := 0;
      var i := 0;
      while i < |modemSlots|
        invariant i <= |modemSlots|
        invariant forall k :: 0 <= k < i ==> modemSlots[k].order <= m
        invariant m == 0 || exists k :: 0 <= k < i && modemSlots[k].order == m
      {
        if modemSlots[i].order > m { m := modemSlots[i].order; }
        i := i + 1;
      }
    }

    method AppendUnknown(os: seq<Observation>, now: string) returns (changed: bool)
      modifies this
      ensures modemSlots == AppendNew(old(modemSlots), os, NextOrder(old(modemSlots)), now)
      ensures changed <==> modemSlots != old(modemSlots)
    {
      var largest := LargestOrder();
      var nextOrder, k := SatInc(largest), 0;
      changed := false;
      while k < |os|
        invariant k <= |os|
        invariant AppendNew(old(modemSlots), os, SatInc(largest), now) == AppendNew(modemSlots, os[k..], nextOrder, now)
        invariant |modemSlots| >= |old(modemSlots)| && (!changed ==> modemSlots == old(modemSlots))
        invariant changed ==> |modemSlots| > |old(modemSlots)|
      {
        var o := os[k];
        assert os[k..] == [o] + os[k + 1..];
        if Trim(o.slotId) != "" && !Known(modemSlots, ObservedKey(o)) {
          modemSlots := modemSlots + [NewSlot(o, nextOrder, now)];
          nextOrder := SatInc(nextOrder);
          changed := true;
        }
        k := k + 1;
      }
    }

    method SortSlots()
      modifies this
      ensures modemSlots == Sort(SlotLe, old(modemSlots))
    {
      modemSlots := Sort(SlotLe, modemSlots);
    }

    static method RelabelSlot(s: Slot) returns (slot: Slot, changed: bool)
      ensures slot == Relabel(s) && (changed <==> slot != s)
    {
      slot, changed := s, false;
      if Trim(slot.title) != slot.title {
        slot := slot.(title := Trim(slot.title));
        changed := true;
      }
      if slot.title == "" {
        slot := slot.(title := LABEL_PREFIX + Dec(slot.order));
        changed := true;
      }
    }

    static method RepairSlot(s: Slot, used: set<int>, next: U32)
      returns (slot: Slot, used1: set<int>, next1: U32, changed: bool)
      ensures var s1 := Numbered(s, used, next);
              && slot == Relabel(s1) && used1 == used + {s1.order} && next1 == NextAfter(s, used, next)
              && changed == (NeedsOrder(s, used) || Relabel(s1) != s1)
    {
      slot, used1, next1, changed := s, used, next, false;
      if slot.order == 0 || slot.order in used {
        slot := slot.(order := next);
        next1 := SatInc(next);
        changed := true;
      }
      used1 := used + {slot.order};
      var relabelled: bool;
      slot, relabelled := RelabelSlot(slot);
      changed := changed || relabelled;
    }

    method RepairOrders(repairFrom: U32) returns (changed: bool)
      modifies this
      ensures Pass(modemSlots, changed) == Repair(old(modemSlots), {}, repairFrom)
    {
      var used, repairOrder, i := {}, repairFrom, 0;
      ghost var whole, done, rest := Repair(modemSlots, {}, repairFrom), [], modemSlots;
      changed := false;
      while i < |modemSlots|
        invariant i == |done| && modemSlots == done + rest
        invariant done + Repair(rest, used, repairOrder).slots == whole.slots
        invariant (changed || Repair(rest, used, repairOrder).dirty) == whole.dirty
        decreases |rest|
      {
        var slot := modemSlots[i];
        assert slot == rest[0];
        RepairStep(rest, used, repairOrder, done);
        var touched: bool;
        slot, used, repairOrder, touched := RepairSlot(slot, used, repairOrder);
        changed := changed || touched;
        ReplaceNext(done, rest, slot);
        modemSlots := modemSlots[i := slot];
        done, rest := done + [slot], rest[1..];
        i := i + 1;
      }
    }

    method CollectMap() returns (slots: map<string, Slot>)
      ensures slots == SlotKeys.MapOf(modemSlots)
    {
      slots := map[];
      var i := 0;
      while i < |modemSlots|
        invariant i <= |modemSlots|
        invariant slots == SlotKeys.MapOf(modemSlots[..i])
      {
        assert modemSlots[..i + 1][..i] == modemSlots[..i];
        if modemSlots[i].slotId != "" {
          slots := slots[MapKey(modemSlots[i]) := modemSlots[i]];
        }
        i := i + 1;
      }
      assert modemSlots[..i] == modemSlots;
    }

    // Everything done under the write lock; `changed` asks for a save.
    method ReconcileModemSlots(observations: seq<Observation>, now: string)
      returns (slots: map<string, Slot>, changed: bool)
      modifies this
      ensures Pass(modemSlots, changed) == Reconcile(old(modemSlots), observations, now)
      ensures slots == SlotKeys.MapOf(modemSlots)
    {
      var normalized := NormalizeIdentities();
      var originalCount := |modemSlots|;
      RetainFirst();
      var dropped := |modemSlots| != originalCount;
      var os := Sort(ObservationLe, observations);
      var adopted := AdoptObserved(os, now);
      var appended := AppendUnknown(os, now);
      var largest := LargestOrder();
      SortSlots();
      var repaired := RepairOrders(SatInc(largest));
      SortSlots();
      slots := CollectMap();
      changed := normalized || dropped || adopted || appended || repaired;
    }
  }
}
