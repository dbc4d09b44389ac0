/** Display orders after one reconciliation of an arbitrary stored slot list. */
module SlotOrders {
  import opened Options
  import opened Sorting
  import opened Text
  import opened ModemSlots

  function OrderOf(s: Slot): int {
    s.order
  }

  // How many entries the repair pass gives a new order.
  function Renumbered(slots: seq<Slot>, used: set<int>, next: U32): nat {
    if slots == [] then 0
    else if NeedsOrder(slots[0], used) then 1 + Renumbered(slots[1..], used + {next}, SatInc(next))
    else Renumbered(slots[1..], used + {slots[0].order}, next)
  }

  // The sorted list the repair pass works on.
  function Queue(slots: seq<Slot>, observations: seq<Observation>, now: string): seq<Slot> {
    Sort(SlotLe, Appended(slots, observations, now))
  }

  lemma SlotLeIsPreorder()
    ensures TotalPreorder(SlotLe)
  {
    forall a, b ensures SlotLe(a, b) || SlotLe(b, a) {
      LexTotal(a.slotId, b.slotId);
      LexTotal(a.hardwareKey, b.hardwareKey);
    }
    forall a, b, c | SlotLe(a, b) && SlotLe(b, c) ensures SlotLe(a, c) {
      if a.order == b.order == c.order {
        if a.slotId != b.slotId && b.slotId != c.slotId {
          LexTransitive(a.slotId, b.slotId, c.slotId);
          LexTotal(a.slotId, b.slotId);
        } else if a.slotId == b.slotId == c.slotId {
          LexTransitive(a.hardwareKey, b.hardwareKey, c.hardwareKey);
        }
      }
    }
  }

  lemma {:induction false} RepairShape(slots: seq<Slot>, used: set<int>, next: U32)
    ensures |Repair(slots, used, next).slots| == |slots|
    ensures forall i :: 0 <= i < |slots| ==>
              var r := Repair(slots, used, next).slots[i];
              r == Relabel(slots[i].(order := r.order))
  {
    if slots != [] {
      var s1, next1 := Numbered(slots[0], used, next), NextAfter(slots[0], used, next);
      var rest := Repair(slots[1..], used + {s1.order}, next1).slots;
      RepairShape(slots[1..], used + {s1.order}, next1);
      assert Repair(slots, used, next).slots == [Relabel(s1)] + rest;
      forall i | 0 <= i < |slots|
        ensures var r := ([Relabel(s1)] + rest)[i]; r == Relabel(slots[i].(order := r.order))
      {
        if i > 0 { assert slots[i] == slots[1..][i - 1] && ([Relabel(s1)] + rest)[i] == rest[i - 1]; }
      }
    }
  }

  // With room above `next`, the pass makes every order positive and distinct.
  lemma {:induction false} RepairDistinct(slots: seq<Slot>, used: set<int>, next: U32)
    requires next >= 1
    requires Renumbered(slots, used, next) > 0 ==>
               && next + Renumbered(slots, used, next) - 1 <= U32_MAX
               && (forall i :: 0 <= i < |slots| ==> slots[i].order < next)
               && (forall u :: u in used ==> u < next)
    ensures var r := Repair(slots, used, next).slots;
            DistinctBy(OrderOf, r) && forall i :: 0 <= i < |r| ==> r[i].order > 0 && r[i].order !in used
  {
    if slots != [] {
      var s1, next1 := Numbered(slots[0], used, next), NextAfter(slots[0], used, next);
      RepairDistinct(slots[1..], used + {s1.order}, next1);
      var rest := Repair(slots[1..], used + {s1.order}, next1).slots;
      assert Repair(slots, used, next).slots == [Relabel(s1)] + rest;
      ConsDistinct(Relabel(s1), rest);
    }
  }

  lemma ConsDistinct(s: Slot, rest: seq<Slot>)
    requires DistinctBy(OrderOf, rest) && forall i :: 0 <= i < |rest| ==> rest[i].order != s.order
    ensures DistinctBy(OrderOf, [s] + rest)
  {
    forall i, j | 0 <= i < j < |[s] + rest| ensures OrderOf(([s] + rest)[i]) != OrderOf(([s] + rest)[j]) {
      assert OrderOf(rest[j - 1]) != OrderOf(s);
    }
  }

  // The first holder of a positive order keeps it.
  lemma {:induction false} RepairKeepsFirst(slots: seq<Slot>, used: set<int>, next: U32, i: nat)
    requires i < |slots| && slots[i].order > 0 && slots[i].order !in used && slots[i].order < next
    requires forall j :: 0 <= j < i ==> slots[j].order != slots[i].order
    ensures |Repair(slots, used, next).slots| == |slots| && Repair(slots, used, next).slots[i] == Relabel(slots[i])
  {
    var s1 := Numbered(slots[0], used, next);
    var rest := Repair(slots[1..], used + {s1.order}, NextAfter(slots[0], used, next)).slots;
    RepairShape(slots[1..], used + {s1.order}, NextAfter(slots[0], used, next));
    if i > 0 {
      assert slots[1..][i - 1] == slots[i] && s1.order != slots[i].order;
      RepairKeepsFirst(slots[1..], used + {s1.order}, NextAfter(slots[0], used, next), i - 1);
      assert ([Relabel(s1)] + rest)[i] == rest[i - 1];
    }
  }

  // ---- Running out of orders ------------------------------------------------------------

  // Once the next order has saturated, every renumbered entry gets the top order.
  lemma {:induction false} TopReached(slots: seq<Slot>, used: set<int>)
    requires Renumbered(slots, used, U32_MAX) > 0
    ensures exists i :: 0 <= i < |slots| && |Repair(slots, used, U32_MAX).slots| == |slots|
                        && Repair(slots, used, U32_MAX).slots[i].order == U32_MAX
  {
    RepairShape(slots, used, U32_MAX);
    var r := Repair(slots, used, U32_MAX).slots;
    if NeedsOrder(slots[0], used) {
      assert r[0].order == U32_MAX;
    } else {
      TopReached(slots[1..], used + {slots[0].order});
      var i :| 0 <= i < |slots[1..]| && Repair(slots[1..], used + {slots[0].order}, U32_MAX).slots[i].order == U32_MAX;
      assert r[i + 1].order == U32_MAX;
    }
  }

  ghost predicate Collision(r: seq<Slot>) {
    exists i, j :: 0 <= i < j < |r| && r[i].order == r[j].order
  }

  lemma CollisionBehind(head: Slot, rest: seq<Slot>)
    requires Collision(rest)
    ensures Collision([head] + rest)
  {
    var i, j :| 0 <= i < j < |rest| && rest[i].order == rest[j].order;
    var r := [head] + rest;
    assert r[i + 1].order == r[j + 1].order;
  }

  lemma CollisionAhead(head: Slot, rest: seq<Slot>, i: nat)
    requires i < |rest| && rest[i].order == head.order
    ensures Collision([head] + rest)
  {
    var r := [head] + rest;
    assert r[0].order == r[i + 1].order;
  }

  // More renumbered entries than orders left above the maximum.
  lemma {:induction false} RepairOverflows(slots: seq<Slot>, used: set<int>, next: U32)
    requires next + Renumbered(slots, used, next) - 1 > U32_MAX
    ensures Collision(Repair(slots, used, next).slots)
  {
    var renumber := NeedsOrder(slots[0], used);
    var s1, next1 := Numbered(slots[0], used, next), NextAfter(slots[0], used, next);
    var rest := Repair(slots[1..], used + {s1.order}, next1).slots;
    if renumber && next == U32_MAX {
      TopReached(slots[1..], used + {next});
      var i :| 0 <= i < |rest| && rest[i].order == U32_MAX;
      CollisionAhead(Relabel(s1), rest, i);
    } else {
      RepairOverflows(slots[1..], used + {s1.order}, next1);
      CollisionBehind(Relabel(s1), rest);
    }
  }

  // The top order is already taken and something still needs one.
  lemma {:induction false} TopTaken(slots: seq<Slot>, used: set<int>)
    requires Renumbered(slots, used, U32_MAX) > 0
    requires exists i :: 0 <= i < |slots| && slots[i].order == U32_MAX
    ensures U32_MAX in used || Collision(Repair(slots, used, U32_MAX).slots)
  {
    var renumber := NeedsOrder(slots[0], used);
    var s1 := Numbered(slots[0], used, U32_MAX);
    var used1 := used + {s1.order};
    var rest := Repair(slots[1..], used1, U32_MAX).slots;
    var i :| 0 <= i < |slots| && slots[i].order == U32_MAX;
    if U32_MAX !in used {
      if s1.order == U32_MAX {
        if renumber {
          assert slots[1..][i - 1] == slots[i];
          StillNeeded(slots[1..], used1, i - 1);
        }
        TopReached(slots[1..], used1);
        var k :| 0 <= k < |rest| && rest[k].order == U32_MAX;
        CollisionAhead(Relabel(s1), rest, k);
      } else {
        assert slots[1..][i - 1] == slots[i];
        TopTaken(slots[1..], used1);
        CollisionBehind(Relabel(s1), rest);
      }
    }
  }

  lemma {:induction false} StillNeeded(slots: seq<Slot>, used: set<int>, i: nat)
    requires i < |slots| && slots[i].order == U32_MAX && U32_MAX in used
    ensures Renumbered(slots, used, U32_MAX) > 0
  {
    if i > 0 && !NeedsOrder(slots[0], used) {
      StillNeeded(slots[1..], used + {slots[0].order}, i - 1);
    }
  }

  // ---- Main results -------------------------------------------------------------------------

  ghost predicate StrictlyAscending(slots: seq<Slot>) {
    && (forall i :: 0 <= i < |slots| ==> slots[i].order > 0)
    && (forall i, j :: 0 <= i < j < |slots| ==> slots[i].order < slots[j].order)
  }

  // Enough orders are left for the entries that need one.
  predicate RoomToRepair(slots: seq<Slot>) {
    var r := Renumbered(Sort(SlotLe, slots), {}, NextOrder(slots));
    r == 0 || MaxOrder(slots) + r <= U32_MAX
  }

  lemma QueueOrders(appended: seq<Slot>)
    ensures var q := Sort(SlotLe, appended);
            && SortedBy(SlotLe, q) && multiset(q) == multiset(appended) && |q| == |appended|
            && (forall i :: 0 <= i < |q| ==> q[i].order <= MaxOrder(appended))
            && (MaxOrder(appended) == 0 || exists i :: 0 <= i < |q| && q[i].order == MaxOrder(appended))
  {
    SlotLeIsPreorder();
    SortCorrect(SlotLe, appended);
    var q := Sort(SlotLe, appended);
    forall i | 0 <= i < |q| ensures q[i].order <= MaxOrder(appended) {
      assert q[i] in multiset(q);
    }
    if MaxOrder(appended) != 0 {
      var i :| 0 <= i < |appended| && appended[i].order == MaxOrder(appended);
      assert appended[i] in multiset(q);
    }
  }

  // One call leaves positive, distinct, strictly ascending orders exactly when there is
  // room above the largest order for every entry it renumbers.
  lemma OrderRepairExact(slots: seq<Slot>, observations: seq<Observation>, now: string)
    ensures StrictlyAscending(Reconcile(slots, observations, now).slots)
       <==> RoomToRepair(Appended(slots, observations, now))
  {
    var appended := Appended(slots, observations, now);
    if RoomToRepair(appended) {
      RepairedAscending(appended);
    } else {
      RepairedCollides(appended);
    }
  }

  function Repaired(appended: seq<Slot>): seq<Slot> {
    Repair(Sort(SlotLe, appended), {}, NextOrder(appended)).slots
  }

  lemma SortAscends(slots: seq<Slot>)
    requires DistinctBy(OrderOf, slots) && forall i :: 0 <= i < |slots| ==> slots[i].order > 0
    ensures StrictlyAscending(Sort(SlotLe, slots)) && multiset(Sort(SlotLe, slots)) == multiset(slots)
  {
    var sorted := Sort(SlotLe, slots);
    SlotLeIsPreorder();
    SortCorrect(SlotLe, slots);
    DistinctPermuted(OrderOf, slots, sorted);
    forall i | 0 <= i < |sorted| ensures sorted[i].order > 0 {
      assert sorted[i] in multiset(sorted) && sorted[i] in multiset(slots);
    }
    forall i, j | 0 <= i < j < |sorted| ensures sorted[i].order < sorted[j].order {
      assert OrderOf(sorted[i]) != OrderOf(sorted[j]) && SlotLe(sorted[i], sorted[j]);
    }
  }

  lemma RepairedAscending(appended: seq<Slot>)
    requires RoomToRepair(appended)
    ensures StrictlyAscending(Sort(SlotLe, Repaired(appended)))
  {
    QueueOrders(appended);
    RepairDistinct(Sort(SlotLe, appended), {}, NextOrder(appended));
    SortAscends(Repaired(appended));
  }

  lemma RepairedCollides(appended: seq<Slot>)
    requires !RoomToRepair(appended)
    ensures !StrictlyAscending(Sort(SlotLe, Repaired(appended)))
  {
    QueueOrders(appended);
    if MaxOrder(appended) == U32_MAX {
      TopTaken(Sort(SlotLe, appended), {});
    } else {
      RepairOverflows(Sort(SlotLe, appended), {}, NextOrder(appended));
    }
    SlotLeIsPreorder();
    SortCorrect(SlotLe, Repaired(appended));
    CollisionSurvivesSort(Repaired(appended), Sort(SlotLe, Repaired(appended)));
  }

  lemma CollisionSurvivesSort(repaired: seq<Slot>, final: seq<Slot>)
    requires Collision(repaired) && multiset(final) == multiset(repaired)
    ensures !StrictlyAscending(final)
  {
    if StrictlyAscending(final) {
      DistinctPermuted(OrderOf, final, repaired);
    }
  }

  // Whoever comes first with a positive order keeps it, name and hardware included.
  lemma FirstHolderKeepsOrder(slots: seq<Slot>, observations: seq<Observation>, now: string, i: nat)
    requires RoomToRepair(Appended(slots, observations, now))
    requires var q := Queue(slots, observations, now);
             i < |q| && q[i].order > 0 && forall j :: 0 <= j < i ==> q[j].order != q[i].order
    ensures Relabel(Queue(slots, observations, now)[i]) in Reconcile(slots, observations, now).slots
  {
    var appended := Appended(slots, observations, now);
    var q, next := Sort(SlotLe, appended), NextOrder(appended);
    QueueOrders(appended);
    var repaired := Repair(q, {}, next).slots;
    SlotLeIsPreorder();
    SortCorrect(SlotLe, repaired);
    RepairShape(q, {}, next);
    if MaxOrder(appended) < U32_MAX {
      RepairKeepsFirst(q, {}, next, i);
    } else {
      NothingRenumbered(q, {}, next);
    }
    assert repaired[i] in multiset(repaired);
    assert repaired[i] in multiset(Sort(SlotLe, repaired));
  }

  lemma {:induction false} NothingRenumbered(slots: seq<Slot>, used: set<int>, next: U32)
    requires Renumbered(slots, used, next) == 0
    ensures |Repair(slots, used, next).slots| == |slots|
    ensures forall i :: 0 <= i < |slots| ==> Repair(slots, used, next).slots[i] == Relabel(slots[i])
  {
    if slots != [] {
      NothingRenumbered(slots[1..], used + {slots[0].order}, next);
      forall i | 0 <= i < |slots| ensures Repair(slots, used, next).slots[i] == Relabel(slots[i]) {
        if i > 0 { assert slots[i] == slots[1..][i - 1]; }
      }
    }
  }
}
