/** What one report does to the slots: the order of new ones, and what known ones take from it. */
module SlotEffects {
  import opened Options
  import opened Sorting
  import opened Text
  import opened ModemSlots
  import opened SlotOrders
  import opened SlotStability

  // ---- The order of new slots -----------------------------------------------------------------

  // By slot id, character by character, and then by SIM position.
  ghost predicate Earlier(slotId: string, uim: int, otherId: string, otherUim: int) {
    Precedes(slotId, otherId) || (slotId == otherId && uim < otherUim)
  }

  lemma EarlierComesFirst(os: seq<Observation>, i: nat, j: nat)
    requires SortedBy(ObservationLe, os) && i < |os| && j < |os|
    requires Earlier(os[i].slotId, os[i].uim, os[j].slotId, os[j].uim)
    ensures i < j
  {
    LexLeExactly(os[i].slotId, os[j].slotId);
    LexLeExactly(os[j].slotId, os[i].slotId);
    assert !ObservationLe(os[j], os[i]) && i != j;
  }

  // A new slot is made from the first observation, or from one further on with another key.
  lemma NewSlotIsHere(known: set<Key>, os: seq<Observation>, next: U32, now: string, s: Slot) returns (here: bool)
    requires next > 0 && s in NewSlots(known, os, next, now)
    ensures var skip := Trim(os[0].slotId) == "" || ObservedKey(os[0]) in known;
            if here then !skip && s == NewSlot(os[0], next, now) && KeyOf(s) == ObservedKey(os[0])
            else if skip then s in NewSlots(known, os[1..], next, now) && KeyOf(s) != ObservedKey(os[0])
            else
              && s in NewSlots(known + {ObservedKey(os[0])}, os[1..], SatInc(next), now)
              && KeyOf(s) != ObservedKey(os[0])
  {
    var o, rest := os[0], os[1..];
    NewSlotIsUnknown(known, os, next, now, s);
    here := false;
    if !(Trim(o.slotId) == "" || ObservedKey(o) in known) {
      here := s == NewSlot(o, next, now);
      if !here { NewSlotIsUnknown(known + {ObservedKey(o)}, rest, SatInc(next), now, s); }
    }
  }

  // Of two new slots, the one that is observed first is numbered first.
  lemma {:induction false} NewSlotsFollow(known: set<Key>, os: seq<Observation>, next: U32, now: string,
                                          a: Slot, b: Slot, i: nat)
    requires next > 0 && next + |NewSlots(known, os, next, now)| - 1 <= U32_MAX
    requires a in NewSlots(known, os, next, now) && b in NewSlots(known, os, next, now)
    requires i < |os| && ObservedKey(os[i]) == KeyOf(a)
    requires forall j :: 0 <= j <= i ==> ObservedKey(os[j]) != KeyOf(b)
    ensures a.order < b.order
    decreases |os|
  {
    var o, rest := os[0], os[1..];
    var aHere := NewSlotIsHere(known, os, next, now, a);
    var bHere := NewSlotIsHere(known, os, next, now, b);
    var skip := Trim(o.slotId) == "" || ObservedKey(o) in known;
    if aHere {
      var more := NewSlots(known + {ObservedKey(o)}, rest, SatInc(next), now);
      var k :| 0 <= k < |more| && more[k] == b;
      NewSlotIsNumbered(known + {ObservedKey(o)}, rest, SatInc(next), now, k);
    } else {
      assert i > 0 && forall j :: 0 <= j <= i - 1 ==> rest[j] == os[j + 1];
      NewSlotsFollow(if skip then known else known + {ObservedKey(o)}, rest, if skip then next else SatInc(next), now,
                     a, b, i - 1);
    }
  }

  lemma NewInResult(slots: seq<Slot>, observations: seq<Observation>, now: string, s: Slot)
    requires WellFormed(slots) && Fits(slots, observations, now)
    requires s in Reconcile(slots, observations, now).slots && KeyOf(s) !in KeysOf(slots)
    ensures s in Added(slots, observations, now)
  {
    var known, added := KnownAfter(slots, observations, now), Added(slots, observations, now);
    ReconcileWellFormed(slots, observations, now);
    SortedAlready(known + added);
    KnownKeepCores(slots, observations, now);
    SameCoresKeys(slots, known);
    assert s in multiset(Reconcile(slots, observations, now).slots) && s in known + added;
  }

  // Of two slots that one call adds, the one observed earlier, by raw slot id and SIM position, has
  // the smaller order.
  lemma NewSlotsInOrder(slots: seq<Slot>, observations: seq<Observation>, now: string, a: Slot, b: Slot, o: Observation)
    requires WellFormed(slots) && Fits(slots, observations, now)
    requires var result := Reconcile(slots, observations, now).slots;
             a in result && b in result && KeyOf(a) !in KeysOf(slots) && KeyOf(b) !in KeysOf(slots)
    requires o in observations && ObservedKey(o) == KeyOf(a)
    requires forall p :: p in observations && ObservedKey(p) == KeyOf(b) ==> Earlier(o.slotId, o.uim, p.slotId, p.uim)
    ensures a.order < b.order
  {
    var os := Sort(ObservationLe, observations);
    NewInResult(slots, observations, now, a);
    NewInResult(slots, observations, now, b);
    SameObservations(observations);
    ObservationLeIsPreorder();
    SortCorrect(ObservationLe, observations);
    var i :| 0 <= i < |os| && os[i] == o;
    forall j | 0 <= j <= i ensures ObservedKey(os[j]) != KeyOf(b) {
      if ObservedKey(os[j]) == KeyOf(b) {
        assert os[j] in observations;
        EarlierComesFirst(os, i, j);
      }
    }
    NewSlotsFollow(KeysOf(slots), os, NextOrder(slots), now, a, b, i);
  }

  // With trimmed slot ids, new slots are numbered by slot id and SIM position.
  lemma NewSlotsInKeyOrder(slots: seq<Slot>, observations: seq<Observation>, now: string, a: Slot, b: Slot)
    requires WellFormed(slots) && Fits(slots, observations, now)
    requires forall o :: o in observations ==> Trimmed(o.slotId)
    requires var result := Reconcile(slots, observations, now).slots;
             a in result && b in result && KeyOf(a) !in KeysOf(slots) && KeyOf(b) !in KeysOf(slots)
    requires Earlier(a.slotId, a.uim, b.slotId, b.uim)
    ensures a.order < b.order
  {
    NewInResult(slots, observations, now, a);
    AddedAreObserved(slots, observations, now);
    var o :| o in observations && ObservedKey(o) == KeyOf(a);
    TrimTrims(o.slotId);
    forall p | p in observations && ObservedKey(p) == KeyOf(b) ensures Earlier(o.slotId, o.uim, p.slotId, p.uim) {
      TrimTrims(p.slotId);
    }
    NewSlotsInOrder(slots, observations, now, a, b, o);
  }

  // ---- What a new slot records ------------------------------------------------------------------

  // A new slot is made from the first observation of its key.
  lemma {:induction false} NewSlotIsMadeFrom(known: set<Key>, os: seq<Observation>, next: U32, now: string, s: Slot)
    returns (i: nat)
    requires next > 0 && s in NewSlots(known, os, next, now)
    ensures i < |os| && ObservedKey(os[i]) == KeyOf(s) && forall j :: 0 <= j < i ==> ObservedKey(os[j]) != KeyOf(s)
    ensures Records(s, os[i], now)
    decreases |os|
  {
    var here := NewSlotIsHere(known, os, next, now, s);
    if here {
      i := 0;
    } else {
      var k;
      if Trim(os[0].slotId) == "" || ObservedKey(os[0]) in known {
        k := NewSlotIsMadeFrom(known, os[1..], next, now, s);
      } else {
        k := NewSlotIsMadeFrom(known + {ObservedKey(os[0])}, os[1..], SatInc(next), now, s);
      }
      i := k + 1;
      forall j | 0 <= j < i ensures ObservedKey(os[j]) != KeyOf(s) {
        if j > 0 { assert os[j] == os[1..][j - 1]; }
      }
    }
  }

  predicate Records(s: Slot, o: Observation, now: string) {
    && s.hardwareKey == (if o.legacyKeys == [] then "" else o.legacyKeys[0])
    && s.equipment == o.equipment && s.lastSeen == Some(now) && !s.retired
  }

  // ---- One observation -----------------------------------------------------------------------------

  // The entry has the observed slot's name, or has none yet and a hardware key that the observation
  // offers, and the same SIM position.
  predicate Answers(s: Slot, o: Observation) {
    && (s.slotId == o.slotId
        || (s.slotId == "" && exists k :: 0 <= k < |o.legacyKeys| && o.legacyKeys[k] == s.hardwareKey))
    && s.uim == if o.uim == 0 then 1 else o.uim
  }

  // What an entry becomes that takes an observation over.
  predicate Took(r: Slot, s: Slot, o: Observation, now: string) {
    && r.slotId == o.slotId && r.equipment == o.equipment && !r.retired
    && r.hardwareKey == (if s.hardwareKey != "" then s.hardwareKey
                         else if o.legacyKeys == [] then "" else o.legacyKeys[0])
    && r.lastSeen == (if s.equipment == o.equipment then s.lastSeen else Some(now))
    && r.uim == s.uim && r.order == s.order && r.title == s.title
  }

  // In an arbitrary list the first entry that answers an observation takes it over, and no other
  // entry changes.
  lemma AdoptExactly(slots: seq<Slot>, o: Observation, now: string)
    ensures |Adopt(slots, o, now).slots| == |slots|
    ensures forall i :: 0 <= i < |slots| ==>
              if Answers(slots[i], o) && forall j :: 0 <= j < i ==> !Answers(slots[j], o)
              then Took(Adopt(slots, o, now).slots[i], slots[i], o, now)
              else Adopt(slots, o, now).slots[i] == slots[i]
  {
    forall s ensures Matches(s, o) <==> Answers(s, o) {
    }
  }

  // Every stored entry goes into the call with its names trimmed and a position of at least one.
  lemma NormalizeExactly(slots: seq<Slot>)
    ensures |NormalizeAll(slots)| == |slots|
    ensures forall i :: 0 <= i < |slots| ==>
              var s := slots[i];
              NormalizeAll(slots)[i] == s.(slotId := Trim(s.slotId), hardwareKey := Trim(s.hardwareKey),
                                           uim := if s.uim == 0 then 1 else s.uim)
  {
  }

  // ---- What a known slot takes over ---------------------------------------------------------------

  // One entry through a report: only the observations that match it matter.
  function Follow(s: Slot, os: seq<Observation>, now: string): Slot
    decreases |os|
  {
    if os == [] then s else Follow(if Matches(s, os[0]) then Adopted(s, os[0], now) else s, os[1..], now)
  }

  lemma MatchIsUnique(slots: seq<Slot>, o: Observation, i: nat)
    requires WellFormed(slots) && i < |slots| && Matches(slots[i], o)
    ensures FirstMatch(slots, o) == i
  {
    var k := FirstMatch(slots, o);
    assert k <= i && GoodSlot(slots[k]) && GoodSlot(slots[i]);
    assert KeyOf(slots[k]) == KeyOf(slots[i]);
  }

  lemma {:induction false} AdoptAllFollows(slots: seq<Slot>, os: seq<Observation>, now: string, i: nat)
    requires WellFormed(slots) && i < |slots|
    ensures |AdoptAll(slots, os, now).slots| == |slots|
    ensures AdoptAll(slots, os, now).slots[i] == Follow(slots[i], os, now)
    decreases |os|
  {
    if os != [] {
      var first := Adopt(slots, os[0], now).slots;
      AdoptKeepsCores(slots, os[0], now);
      SameCoresWellFormed(slots, first);
      AdoptAllFollows(first, os[1..], now, i);
      if Matches(slots[i], os[0]) { MatchIsUnique(slots, os[0], i); }
    }
  }

  // Every match of a slot in the report is the same observation.
  ghost predicate OnlyMatch(s: Slot, os: seq<Observation>, o: Observation) {
    forall p :: p in os && p.slotId == s.slotId && AtLeastOne(p.uim) == s.uim ==> p == o
  }

  lemma {:induction false} FollowsOnly(s: Slot, os: seq<Observation>, o: Observation, now: string)
    requires s.slotId != "" && OnlyMatch(s, os, o)
    ensures Follow(s, os, now) == if exists i :: 0 <= i < |os| && Matches(s, os[i]) then Adopted(s, o, now) else s
    decreases |os|
  {
    if os != [] {
      assert os[0] in os && forall p :: p in os[1..] ==> p in os;
      if Matches(s, os[0]) {
        FollowsOnly(Adopted(s, o, now), os[1..], o, now);
        assert Adopted(Adopted(s, o, now), o, now) == Adopted(s, o, now);
      } else {
        FollowsOnly(s, os[1..], o, now);
        if i :| 0 <= i < |os[1..]| && Matches(s, os[1..][i]) { assert Matches(s, os[i + 1]); }
      }
    }
  }

  lemma KnownInResult(slots: seq<Slot>, observations: seq<Observation>, now: string, i: nat)
    requires WellFormed(slots) && Fits(slots, observations, now) && i < |slots|
    ensures var os, s := Sort(ObservationLe, observations), Normalize(slots[i]);
            Follow(s, os, now) in Reconcile(slots, observations, now).slots
  {
    var os, normal := Sort(ObservationLe, observations), NormalizeAll(slots);
    var known, added := KnownAfter(slots, observations, now), Added(slots, observations, now);
    NormalizeKeepsCores(slots);
    SameCoresWellFormed(slots, normal);
    KeepFirstKeepsAll(normal, {});
    AdoptAllFollows(normal, os, now, i);
    ReconcileWellFormed(slots, observations, now);
    SortedAlready(known + added);
    assert known[i] in known + added && known[i] in multiset(known + added);
    assert known[i] in multiset(Reconcile(slots, observations, now).slots);
  }

  predicate TakesOver(r: Slot, s: Slot, o: Observation, now: string) {
    && CoreOf(r) == CoreOf(s) && !r.retired && r.equipment == o.equipment
    && r.lastSeen == (if s.equipment == o.equipment then s.lastSeen else Some(now))
    && r.hardwareKey == (if Trim(s.hardwareKey) != "" then Trim(s.hardwareKey)
                         else if o.legacyKeys == [] then "" else o.legacyKeys[0])
  }

  // A known slot that one observation matches takes its equipment over and is in service again; it
  // keeps key, order and label, and its own hardware key when it has one. When it was last seen
  // changes with the equipment only.
  lemma KnownSlotTakesOver(slots: seq<Slot>, observations: seq<Observation>, now: string, s: Slot, o: Observation)
    requires WellFormed(slots) && Fits(slots, observations, now) && s in slots
    requires o in observations && o.slotId == s.slotId && AtLeastOne(o.uim) == s.uim && OnlyMatch(s, observations, o)
    ensures exists r :: r in Reconcile(slots, observations, now).slots && TakesOver(r, s, o, now)
  {
    var os := Sort(ObservationLe, observations);
    var i :| 0 <= i < |slots| && slots[i] == s;
    assert GoodSlot(slots[i]);
    SameObservations(observations);
    KnownInResult(slots, observations, now, i);
    FollowsOnly(Normalize(s), os, o, now);
    var k :| 0 <= k < |os| && os[k] == o;
    assert Matches(Normalize(s), os[k]);
    AdoptedTakesOver(s, o, now);
  }

  lemma AdoptedTakesOver(s: Slot, o: Observation, now: string)
    requires GoodSlot(s) && o.slotId == s.slotId
    ensures TakesOver(Adopted(Normalize(s), o, now), s, o, now)
  {
    TrimTrims(s.slotId);
  }

  // A known slot that nothing in the report matches stays as it was, its hardware key trimmed.
  lemma MissingSlotIsKept(slots: seq<Slot>, observations: seq<Observation>, now: string, s: Slot)
    requires WellFormed(slots) && Fits(slots, observations, now) && s in slots
    requires forall o :: o in observations ==> !(o.slotId == s.slotId && AtLeastOne(o.uim) == s.uim)
    ensures s.(hardwareKey := Trim(s.hardwareKey)) in Reconcile(slots, observations, now).slots
  {
    var os := Sort(ObservationLe, observations);
    var i :| 0 <= i < |slots| && slots[i] == s;
    assert GoodSlot(slots[i]);
    SameObservations(observations);
    KnownInResult(slots, observations, now, i);
    forall k | 0 <= k < |os| ensures !Matches(Normalize(s), os[k]) {
      assert os[k] in observations;
    }
    if os != [] { FollowsOnly(Normalize(s), os, os[0], now); }
  }

  // A new slot records the observation it was made from: the first of its key in the sorted report.
  lemma NewSlotRecords(slots: seq<Slot>, observations: seq<Observation>, now: string, s: Slot) returns (i: nat)
    requires WellFormed(slots) && Fits(slots, observations, now)
    requires s in Reconcile(slots, observations, now).slots && KeyOf(s) !in KeysOf(slots)
    ensures var os := Sort(ObservationLe, observations);
            && i < |os| && os[i] in observations && ObservedKey(os[i]) == KeyOf(s) && Records(s, os[i], now)
            && forall j :: 0 <= j < i ==> ObservedKey(os[j]) != KeyOf(s)
  {
    NewInResult(slots, observations, now, s);
    SameObservations(observations);
    i := NewSlotIsMadeFrom(KeysOf(slots), Sort(ObservationLe, observations), NextOrder(slots), now, s);
    assert Sort(ObservationLe, observations)[i] in observations;
  }

  // ---- Stored entries with the same identity ------------------------------------------------------

  // An entry is kept exactly when it has an identity that no earlier entry has; those that are kept
  // stay in order.
  predicate IsKept(slots: seq<Slot>, i: nat)
    requires i < |slots|
  {
    var name := if slots[i].slotId == "" then slots[i].hardwareKey else slots[i].slotId;
    name != "" && forall j :: 0 <= j < i ==>
      !(slots[j].uim == slots[i].uim && name == if slots[j].slotId == "" then slots[j].hardwareKey else slots[j].slotId)
  }

  function Chosen(slots: seq<Slot>, n: nat): seq<Slot>
    requires n <= |slots|
  {
    if n == 0 then [] else Chosen(slots, n - 1) + if IsKept(slots, n - 1) then [slots[n - 1]] else []
  }

  function Identities(slots: seq<Slot>, n: nat): set<Key>
    requires n <= |slots|
  {
    set j | 0 <= j < n && IdentityOf(slots[j]).0 != "" :: IdentityOf(slots[j])
  }

  lemma {:induction false} KeepsFrom(slots: seq<Slot>, n: nat)
    requires n <= |slots|
    ensures Chosen(slots, |slots|) == Chosen(slots, n) + KeepFirst(slots[n..], Identities(slots, n))
    decreases |slots| - n
  {
    if n < |slots| {
      KeepsFrom(slots, n + 1);
      KeepsNext(slots, n);
    }
  }

  lemma KeepsNext(slots: seq<Slot>, n: nat)
    requires n < |slots|
    ensures Chosen(slots, n + 1) + KeepFirst(slots[n + 1..], Identities(slots, n + 1)) ==
            Chosen(slots, n) + KeepFirst(slots[n..], Identities(slots, n))
  {
    var s, seen, chosen := slots[n], Identities(slots, n), Chosen(slots, n);
    IdentitiesGrow(slots, n);
    KeptIsNew(slots, n);
    KeepFirstUnfolds(s, slots[n + 1..], seen);
    assert slots[n..] == [s] + slots[n + 1..];
    var more := KeepFirst(slots[n + 1..], Identities(slots, n + 1));
    if IsKept(slots, n) {
      assert KeepFirst(slots[n..], seen) == [s] + more;
      assert (chosen + [s]) + more == chosen + ([s] + more);
    } else {
      assert Identities(slots, n + 1) == seen && Chosen(slots, n + 1) == chosen + [] == chosen;
    }
  }

  lemma KeepFirstUnfolds(s: Slot, rest: seq<Slot>, seen: set<Key>)
    ensures KeepFirst([s] + rest, seen) ==
            if IdentityOf(s).0 != "" && IdentityOf(s) !in seen then [s] + KeepFirst(rest, seen + {IdentityOf(s)})
            else KeepFirst(rest, seen)
  {
    assert ([s] + rest)[1..] == rest;
  }

  lemma KeptIsNew(slots: seq<Slot>, n: nat)
    requires n < |slots|
    ensures IsKept(slots, n) <==> IdentityOf(slots[n]).0 != "" && IdentityOf(slots[n]) !in Identities(slots, n)
  {
  }

  lemma IdentitiesGrow(slots: seq<Slot>, n: nat)
    requires n < |slots|
    ensures Identities(slots, n + 1) ==
            Identities(slots, n) + if IdentityOf(slots[n]).0 != "" then {IdentityOf(slots[n])} else {}
  {
  }

  lemma KeepFirstExactly(slots: seq<Slot>)
    ensures KeepFirst(slots, {}) == Chosen(slots, |slots|)
  {
    KeepsFrom(slots, 0);
    assert slots[0..] == slots && Identities(slots, 0) == {};
  }

  // ---- Which entries get a new order, and which ------------------------------------------------------

  // By order, then slot id, then hardware key.
  ghost predicate InOrder(a: Slot, b: Slot) {
    || a.order < b.order
    || (a.order == b.order && Precedes(a.slotId, b.slotId))
    || (a.order == b.order && a.slotId == b.slotId
        && (a.hardwareKey == b.hardwareKey || Precedes(a.hardwareKey, b.hardwareKey)))
  }

  lemma SortedInOrder(slots: seq<Slot>)
    ensures var q := Sort(SlotLe, slots);
            multiset(q) == multiset(slots) && forall i, j :: 0 <= i < j < |q| ==> InOrder(q[i], q[j])
  {
    var q := Sort(SlotLe, slots);
    SlotLeIsPreorder();
    SortCorrect(SlotLe, slots);
    forall i, j | 0 <= i < j < |q| ensures InOrder(q[i], q[j]) {
      assert SlotLe(q[i], q[j]);
      LexLeExactly(q[i].slotId, q[j].slotId);
      LexLeExactly(q[i].hardwareKey, q[j].hardwareKey);
    }
  }

  // Without an order, or with one that an earlier entry has.
  predicate Again(slots: seq<Slot>, i: nat)
    requires i < |slots|
  {
    slots[i].order == 0 || exists j :: 0 <= j < i && slots[j].order == slots[i].order
  }

  function Agains(slots: seq<Slot>, n: nat): nat
    requires n <= |slots|
  {
    if n == 0 then 0 else Agains(slots, n - 1) + if Again(slots, n - 1) then 1 else 0
  }

  lemma {:induction false} AgainsGrow(slots: seq<Slot>, m: nat, n: nat)
    requires m <= n <= |slots|
    ensures Agains(slots, m) <= Agains(slots, n)
    decreases n
  {
    if m < n { AgainsGrow(slots, m, n - 1); }
  }

  // Of the orders in use, the small ones are those of the first `n` entries.
  ghost predicate UsedBy(slots: seq<Slot>, n: nat, used: set<int>, base: int)
    requires n <= |slots|
  {
    forall k :: 0 < k < base ==> (k in used <==> exists j :: 0 <= j < n && slots[j].order == k)
  }

  lemma UsedGrows(slots: seq<Slot>, n: nat, used: set<int>, base: int, order: int)
    requires n < |slots| && UsedBy(slots, n, used, base) && slots[n].order < base
    requires order == slots[n].order || (order >= base && Again(slots, n))
    ensures UsedBy(slots, n + 1, used + {order}, base)
  {
    forall k | 0 < k < base
      ensures k in used + {order} <==> exists j :: 0 <= j < n + 1 && slots[j].order == k
    {
      if k in used {
        var j :| 0 <= j < n && slots[j].order == k;
      }
      if j :| 0 <= j < n + 1 && slots[j].order == k { assert j < n || slots[n].order == k; }
    }
  }

  lemma RepairHere(slots: seq<Slot>, n: nat, used: set<int>, next: U32)
    requires n < |slots|
    ensures var r, s1 := Repair(slots[n..], used, next).slots, Numbered(slots[n], used, next);
            var more := Repair(slots[n + 1..], used + {s1.order}, NextAfter(slots[n], used, next)).slots;
            && |r| == |slots| - n == |more| + 1 && r[0].order == s1.order
            && forall k :: 0 < k < |r| ==> r[k] == more[k - 1]
  {
    assert slots[n..] == [slots[n]] + slots[n + 1..];
    RepairUnfolds(slots[n], slots[n + 1..], used, next);
    RepairShape(slots[n + 1..], used + {Numbered(slots[n], used, next).order}, NextAfter(slots[n], used, next));
  }

  // The pass has come to entry `n`, and there are orders left for the entries up to the `i`-th.
  ghost predicate Repairing(slots: seq<Slot>, n: nat, used: set<int>, next: U32, base: nat, i: nat) {
    && n <= i < |slots| && UsedBy(slots, n, used, base)
    && (forall k :: 0 <= k < |slots| ==> slots[k].order < base)
    && (Agains(slots, i + 1) > Agains(slots, n) ==>
          base <= next && next + Agains(slots, i + 1) - Agains(slots, n) - 1 <= U32_MAX)
  }

  lemma NeedsIsAgain(slots: seq<Slot>, n: nat, used: set<int>, next: U32, base: nat, i: nat)
    requires Repairing(slots, n, used, next, base, i)
    ensures NeedsOrder(slots[n], used) <==> Again(slots, n)
  {
  }

  lemma RepairsOn(slots: seq<Slot>, n: nat, used: set<int>, next: U32, base: nat, i: nat)
    requires Repairing(slots, n, used, next, base, i) && n < i
    ensures var order, next1 := Numbered(slots[n], used, next).order, NextAfter(slots[n], used, next);
            && Repairing(slots, n + 1, used + {order}, next1, base, i)
            && (Again(slots, i) ==> next1 - Agains(slots, n + 1) == next - Agains(slots, n))
  {
    NeedsIsAgain(slots, n, used, next, base, i);
    AgainsGrow(slots, n + 1, i + 1);
    AgainsGrow(slots, n + 1, i);
    UsedGrows(slots, n, used, base, Numbered(slots[n], used, next).order);
  }

  // The order that the pass, come to entry `n`, gives the `i`-th.
  function OrderAt(slots: seq<Slot>, n: nat, used: set<int>, next: U32, i: nat): U32
    requires n <= i < |slots|
    decreases i - n
  {
    var order := Numbered(slots[n], used, next).order;
    if i == n then order else OrderAt(slots, n + 1, used + {order}, NextAfter(slots[n], used, next), i)
  }

  lemma {:induction false} RepairOrderAt(slots: seq<Slot>, n: nat, used: set<int>, next: U32, i: nat)
    requires n <= i < |slots|
    ensures |Repair(slots[n..], used, next).slots| == |slots| - n
    ensures Repair(slots[n..], used, next).slots[i - n].order == OrderAt(slots, n, used, next, i)
    decreases i - n
  {
    RepairHere(slots, n, used, next);
    if i > n {
      RepairOrderAt(slots, n + 1, used + {Numbered(slots[n], used, next).order}, NextAfter(slots[n], used, next), i);
    }
  }

  // The pass gives the entries that need one consecutive orders, in their turn, and no other entry
  // a new one.
  lemma {:induction false} RepairsFrom(slots: seq<Slot>, n: nat, used: set<int>, next: U32, base: nat, i: nat)
    requires Repairing(slots, n, used, next, base, i)
    ensures OrderAt(slots, n, used, next, i) ==
            if Again(slots, i) then next + Agains(slots, i) - Agains(slots, n) else slots[i].order
    decreases i - n
  {
    var order, next1 := Numbered(slots[n], used, next).order, NextAfter(slots[n], used, next);
    if i > n {
      RepairsOn(slots, n, used, next, base, i);
      RepairsFrom(slots, n + 1, used + {order}, next1, base, i);
    } else {
      NeedsIsAgain(slots, n, used, next, base, i);
    }
  }

  lemma RepairAt(slots: seq<Slot>, top: U32, next: U32, i: nat) returns (order: U32)
    requires next == SatInc(top) && i < |slots| && forall k :: 0 <= k < |slots| ==> slots[k].order <= top
    requires top + Agains(slots, |slots|) <= U32_MAX
    ensures order == (if Again(slots, i) then top + 1 + Agains(slots, i) else slots[i].order) && order > 0
    ensures |Repair(slots, {}, next).slots| == |slots| && Repair(slots, {}, next).slots[i] == Labelled(slots[i], order)
  {
    AgainsGrow(slots, i + 1, |slots|);
    assert Repairing(slots, 0, {}, next, top + 1, i);
    RepairsFrom(slots, 0, {}, next, top + 1, i);
    RepairOrderAt(slots, 0, {}, next, i);
    assert slots[0..] == slots;
    RepairShape(slots, {}, next);
    order := Repair(slots, {}, next).slots[i].order;
  }

  lemma InSorted(slots: seq<Slot>, i: nat)
    requires i < |slots|
    ensures slots[i] in Sort(SlotLe, slots)
  {
    SlotLeIsPreorder();
    SortCorrect(SlotLe, slots);
    assert slots[i] in multiset(slots) && slots[i] in multiset(Sort(SlotLe, slots));
  }

  // Every stored entry after the call, exactly, when there is room: in the order of the queue it keeps
  // its own order if it is the first to have it, and otherwise gets the next one above the maximum.
  lemma RepairedExactly(slots: seq<Slot>, observations: seq<Observation>, now: string, i: nat) returns (order: U32)
    requires var q := Queue(slots, observations, now);
             i < |q| && MaxOrder(Appended(slots, observations, now)) + Agains(q, |q|) <= U32_MAX
    ensures var q, top := Queue(slots, observations, now), MaxOrder(Appended(slots, observations, now));
            order == (if Again(q, i) then top + 1 + Agains(q, i) else q[i].order) && order > 0
    ensures Labelled(Queue(slots, observations, now)[i], order) in Reconcile(slots, observations, now).slots
  {
    var appended := Appended(slots, observations, now);
    var q, next := Queue(slots, observations, now), NextOrder(appended);
    var repaired := Repair(q, {}, next).slots;
    QueueOrders(appended);
    order := RepairAt(q, MaxOrder(appended), next, i);
    InSorted(repaired, i);
  }

  // An entry with an order, its label trimmed, or made from the order when there is none.
  function Labelled(s: Slot, order: U32): Slot {
    s.(order := order, title := if Trim(s.title) == "" then LABEL_PREFIX + Dec(order) else Trim(s.title))
  }
}
