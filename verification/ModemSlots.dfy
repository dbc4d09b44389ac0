/**
 The persistent map of physical modem slots, reconciled with what hotplug reports.
 Each pass of the reconciliation is given as a function; `SlotStore` runs the passes
 in place.
 */
module ModemSlots {
  import opened Options
  import opened Sorting
  import opened Text

  const U32_MAX: int := 0xFFFF_FFFF
  const LABEL_PREFIX := "\U{57FA}\U{5E26} "

  type U8 = n: int | 0 <= n < 256
  type U32 = n: int | 0 <= n <= U32_MAX witness 0

  datatype Slot = Slot(
    slotId: string,
    hardwareKey: string,
    uim: U8,
    order: U32,
    title: string,
    equipment: string,
    lastSeen: Option<string>,
    retired: bool)

  datatype Observation = Observation(slotId: string, legacyKeys: seq<string>, equipment: string, uim: U8)

  // A pass's result, and whether it asks for a save.
  datatype Pass = Pass(slots: seq<Slot>, dirty: bool)

  function SatInc(n: U32): U32 {
    if n == U32_MAX then n else n + 1
  }

  function AtLeastOne(n: U8): U8 {
    if n == 0 then 1 else n
  }

  function FirstOr(keys: seq<string>): string {
    if keys == [] then "" else keys[0]
  }

  // ---- Pass 1: normalize identities ------------------------------------------------------

  function Normalize(s: Slot): Slot {
    s.(uim := AtLeastOne(s.uim), slotId := Trim(s.slotId), hardwareKey := Trim(s.hardwareKey))
  }

  function NormalizeAll(slots: seq<Slot>): seq<Slot> {
    seq(|slots|, i requires 0 <= i < |slots| => Normalize(slots[i]))
  }

  // ---- Pass 2: keep the first entry of each identity ---------------------------------------

  type Key = (string, U8)

  function IdentityOf(s: Slot): Key {
    (if s.slotId == "" then s.hardwareKey else s.slotId, s.uim)
  }

  function KeepFirst(slots: seq<Slot>, seen: set<Key>): seq<Slot> {
    if slots == [] then []
    else if IdentityOf(slots[0]).0 != "" && IdentityOf(slots[0]) !in seen then
      [slots[0]] + KeepFirst(slots[1..], seen + {IdentityOf(slots[0])})
    else KeepFirst(slots[1..], seen)
  }

  // ---- Pass 3: adopt observations into known slots -------------------------------------------

  predicate ObservationLe(a: Observation, b: Observation) {
    if a.slotId == b.slotId then a.uim <= b.uim else LexLe(a.slotId, b.slotId)
  }

  predicate Matches(s: Slot, o: Observation) {
    && (s.slotId == o.slotId || (s.slotId == "" && s.hardwareKey in o.legacyKeys))
    && s.uim == AtLeastOne(o.uim)
  }

  function FirstMatch(slots: seq<Slot>, o: Observation): (i: nat)
    ensures i <= |slots| && (forall j :: 0 <= j < i ==> !Matches(slots[j], o))
    ensures i < |slots| ==> Matches(slots[i], o)
  {
    if slots == [] || Matches(slots[0], o) then 0 else 1 + FirstMatch(slots[1..], o)
  }

  function Adopted(s: Slot, o: Observation, now: string): Slot {
    var s1 := s.(slotId := o.slotId,
                 hardwareKey := if s.hardwareKey == "" then FirstOr(o.legacyKeys) else s.hardwareKey,
                 retired := false);
    if s.equipment == o.equipment then s1 else s1.(equipment := o.equipment, lastSeen := Some(now))
  }

  predicate AdoptDirties(s: Slot, o: Observation) {
    s.slotId != o.slotId || s.hardwareKey == "" || s.equipment != o.equipment || s.retired
  }

  function Adopt(slots: seq<Slot>, o: Observation, now: string): Pass {
    var i := FirstMatch(slots, o);
    if i == |slots| then Pass(slots, false)
    else Pass(slots[i := Adopted(slots[i], o, now)], AdoptDirties(slots[i], o))
  }

  function AdoptAll(slots: seq<Slot>, os: seq<Observation>, now: string): Pass
    decreases |os|
  {
    if os == [] then Pass(slots, false)
    else
      var first := Adopt(slots, os[0], now);
      var rest := AdoptAll(first.slots, os[1..], now);
      Pass(rest.slots, first.dirty || rest.dirty)
  }

  // ---- Pass 4: append slots seen for the first time --------------------------------------------

  function MaxOrder(slots: seq<Slot>): (m: U32)
    ensures forall i :: 0 <= i < |slots| ==> slots[i].order <= m
    ensures m == 0 || exists i :: 0 <= i < |slots| && slots[i].order == m
  {
    if slots == [] then 0
    else
      var rest := MaxOrder(slots[1..]);
      if slots[0].order >= rest then slots[0].order
      else
        var i :| 0 <= i < |slots[1..]| && slots[1..][i].order == rest;
        assert slots[i + 1].order == rest;
        rest
  }

  function NextOrder(slots: seq<Slot>): U32 {
    SatInc(MaxOrder(slots))
  }

  predicate Known(slots: seq<Slot>, key: Key) {
    exists i :: 0 <= i < |slots| && (slots[i].slotId, slots[i].uim) == key
  }

  function ObservedKey(o: Observation): Key {
    (Trim(o.slotId), AtLeastOne(o.uim))
  }

  function NewSlot(o: Observation, order: U32, now: string): Slot {
    Slot(Trim(o.slotId), FirstOr(o.legacyKeys), AtLeastOne(o.uim), order, LABEL_PREFIX + Dec(order),
         o.equipment, Some(now), false)
  }

  function AppendNew(slots: seq<Slot>, os: seq<Observation>, next: U32, now: string): seq<Slot>
    decreases |os|
  {
    if os == [] then slots
    else if Trim(os[0].slotId) == "" || Known(slots, ObservedKey(os[0])) then AppendNew(slots, os[1..], next, now)
    else AppendNew(slots + [NewSlot(os[0], next, now)], os[1..], SatInc(next), now)
  }

  // ---- Pass 5: repair orders and labels --------------------------------------------------------

  predicate SlotLe(a: Slot, b: Slot) {
    if a.order != b.order then a.order < b.order
    else if a.slotId != b.slotId then LexLe(a.slotId, b.slotId)
    else LexLe(a.hardwareKey, b.hardwareKey)
  }

  function Relabel(s: Slot): Slot {
    s.(title := if Trim(s.title) == "" then LABEL_PREFIX + Dec(s.order) else Trim(s.title))
  }

  predicate NeedsOrder(s: Slot, used: set<int>) {
    s.order == 0 || s.order in used
  }

  function Numbered(s: Slot, used: set<int>, next: U32): Slot {
    if NeedsOrder(s, used) then s.(order := next) else s
  }

  function NextAfter(s: Slot, used: set<int>, next: U32): U32 {
    if NeedsOrder(s, used) then SatInc(next) else next
  }

  function Repair(slots: seq<Slot>, used: set<int>, next: U32): Pass {
    if slots == [] then Pass([], false)
    else
      var s1 := Numbered(slots[0], used, next);
      var rest := Repair(slots[1..], used + {s1.order}, NextAfter(slots[0], used, next));
      Pass([Relabel(s1)] + rest.slots, NeedsOrder(slots[0], used) || Relabel(s1) != s1 || rest.dirty)
  }

  lemma RepairUnfolds(s: Slot, rest: seq<Slot>, used: set<int>, next: U32)
    ensures var s1 := Numbered(s, used, next);
            var more := Repair(rest, used + {s1.order}, NextAfter(s, used, next));
            Repair([s] + rest, used, next)
              == Pass([Relabel(s1)] + more.slots, NeedsOrder(s, used) || Relabel(s1) != s1 || more.dirty)
  {
    assert ([s] + rest)[1..] == rest;
  }

  // ---- The whole reconciliation ------------------------------------------------------------------

  function Appended(slots: seq<Slot>, observations: seq<Observation>, now: string): seq<Slot> {
    var os := Sort(ObservationLe, observations);
    var known := AdoptAll(KeepFirst(NormalizeAll(slots), {}), os, now).slots;
    AppendNew(known, os, NextOrder(known), now)
  }

  function Reconcile(slots: seq<Slot>, observations: seq<Observation>, now: string): Pass {
    var normal := NormalizeAll(slots);
    var unique := KeepFirst(normal, {});
    var os := Sort(ObservationLe, observations);
    var known := AdoptAll(unique, os, now);
    var appended := AppendNew(known.slots, os, NextOrder(known.slots), now);
    var repaired := Repair(Sort(SlotLe, appended), {}, NextOrder(appended));
    Pass(Sort(SlotLe, repaired.slots),
         normal != slots || |unique| != |normal| || known.dirty || appended != known.slots || repaired.dirty)
  }

  // The map handed to callers, keyed by `slot#uimN`.
  function MapKey(s: Slot): string {
    s.slotId + "#uim" + Dec(s.uim)
  }
}
