/** Giving every discovered line an explicit profile. */
module LineDiscovery {
  import opened Options
  import opened Sorting
  import opened LineProfiles
  import opened LineReferences

  // `reader` is the reader setting that old releases stored globally, while it is still there.
  datatype Discovery = Discovery(profiles: seq<LineProfile>, reader: Option<string>, changed: bool)

  function ValidOnly(ids: seq<string>): seq<string> {
    if ids == [] then []
    else if ValidLineId(ids[0]) then [ids[0]] + ValidOnly(ids[1..])
    else ValidOnly(ids[1..])
  }

  function Voiced(p: LineProfile): LineProfile {
    p.(voicePath := Normalized(p.voicePath))
  }

  function VoicedAll(profiles: seq<LineProfile>): seq<LineProfile> {
    seq(|profiles|, i requires 0 <= i < |profiles| => Voiced(profiles[i]))
  }

  function EnsuredAll(profiles: seq<LineProfile>, ids: seq<string>): seq<LineProfile>
    decreases |ids|
  {
    if ids == [] then profiles else EnsuredAll(Ensured(profiles, ids[0]), ids[1..])
  }

  // Only a single line can take over the global reader, and only if it has none of its own.
  predicate TakesReader(profiles: seq<LineProfile>, ids: seq<string>, reader: Option<string>) {
    |ids| == 1 && reader.Some? && Stored(profiles, ids[0]).settings.esimReader == DEFAULT_READER
  }

  function WithReader(p: LineProfile, reader: string): LineProfile {
    p.(settings := p.settings.(esimReader := reader))
  }

  function Discover(profiles: seq<LineProfile>, lineIds: seq<string>, reader: Option<string>): Discovery {
    var ids := Dedup(ValidOnly(lineIds), []);
    if ids == [] then Discovery(profiles, reader, false)
    else
      var voiced := VoicedAll(profiles);
      var all := EnsuredAll(voiced, ids);
      if TakesReader(all, ids, reader) && Find(all, ids[0]) < |all| then
        var i := Find(all, ids[0]);
        Discovery(Sort(IdLe, all[i := WithReader(all[i], reader.value)]), None, true)
      else
        Discovery(Sort(IdLe, all), reader, voiced != profiles || all != voiced)
  }

  // ---- The map after discovery -------------------------------------------------------------------------

  lemma VoicedRefines(profiles: seq<LineProfile>)
    requires UniqueIds(profiles)
    ensures UniqueIds(VoicedAll(profiles))
    ensures forall k :: Stored(VoicedAll(profiles), k) == Voiced(Stored(profiles, k))
  {
    var voiced := VoicedAll(profiles);
    assert UniqueIds(voiced) by {
      assert forall j :: 0 <= j < |profiles| ==> IdOf(voiced[j]) == IdOf(profiles[j]);
    }
    forall k ensures Stored(voiced, k) == Voiced(Stored(profiles, k)) {
      assert forall j :: 0 <= j < |profiles| ==> voiced[j].lineId == profiles[j].lineId;
      assert Find(voiced, k) == Find(profiles, k);
      NormalizedIsNormal(DEFAULT_VOICE_PATH);
    }
  }

  lemma {:induction false} EnsuredAllRefines(profiles: seq<LineProfile>, ids: seq<string>)
    requires UniqueIds(profiles)
    ensures UniqueIds(EnsuredAll(profiles, ids)) && |EnsuredAll(profiles, ids)| >= |profiles|
    ensures forall k :: Stored(EnsuredAll(profiles, ids), k) == Stored(profiles, k)
    ensures forall k :: Find(profiles, k) < |profiles| ==>
        Find(EnsuredAll(profiles, ids), k) < |EnsuredAll(profiles, ids)|
    ensures forall i :: 0 <= i < |ids| ==> Find(EnsuredAll(profiles, ids), ids[i]) < |EnsuredAll(profiles, ids)|
    decreases |ids|
  {
    if ids != [] {
      var next := Ensured(profiles, ids[0]);
      EnsuredRefines(profiles, ids[0]);
      forall k | Find(profiles, k) < |profiles| ensures Find(next, k) < |next| {
        EnsuredKeepsFound(profiles, ids[0], k);
      }
      EnsuredAllRefines(next, ids[1..]);
      forall i | 0 <= i < |ids| ensures Find(EnsuredAll(profiles, ids), ids[i]) < |EnsuredAll(profiles, ids)| {
        if i > 0 { assert ids[i] == ids[1..][i - 1]; }
      }
    }
  }

  lemma EnsuredKeepsFound(profiles: seq<LineProfile>, id: string, k: string)
    requires Find(profiles, k) < |profiles|
    ensures Find(Ensured(profiles, id), k) < |Ensured(profiles, id)|
  {
  }

  predicate Adopts(profiles: seq<LineProfile>, lineIds: seq<string>, reader: Option<string>, k: string) {
    var ids := Dedup(ValidOnly(lineIds), []);
    |ids| == 1 && k == ids[0] && reader.Some? && Stored(profiles, k).settings.esimReader == DEFAULT_READER
  }

  lemma UpdatedInPlace(profiles: seq<LineProfile>, i: nat, p: LineProfile)
    requires UniqueIds(profiles) && i < |profiles| && p.lineId == profiles[i].lineId
    ensures UniqueIds(profiles[i := p]) && forall k :: Find(profiles[i := p], k) == Find(profiles, k)
  {
    assert forall j :: 0 <= j < |profiles| ==> IdOf(profiles[i := p][j]) == IdOf(profiles[j]);
    forall k ensures Find(profiles[i := p], k) == Find(profiles, k) {
      FindUpdated(profiles, i, p, k);
    }
  }

  // What a discovery does to each line: its voice order is normalized, and the one line present
  // may take over the global reader. Nothing else moves.
  lemma DiscoveryRefinesMap(profiles: seq<LineProfile>, lineIds: seq<string>, reader: Option<string>)
    requires UniqueIds(profiles) && Dedup(ValidOnly(lineIds), []) != []
    ensures var d := Discover(profiles, lineIds, reader);
            && UniqueIds(d.profiles) && SortedBy(IdLe, d.profiles)
            && forall k :: Stored(d.profiles, k) ==
                 if Adopts(profiles, lineIds, reader, k) then WithReader(Voiced(Stored(profiles, k)), reader.value)
                 else Voiced(Stored(profiles, k))
  {
    var ids, voiced := Dedup(ValidOnly(lineIds), []), VoicedAll(profiles);
    var all := EnsuredAll(voiced, ids);
    VoicedRefines(profiles);
    EnsuredAllRefines(voiced, ids);
    if TakesReader(all, ids, reader) {
      var i := Find(all, ids[0]);
      var updated := all[i := WithReader(all[i], reader.value)];
      UpdatedInPlace(all, i, WithReader(all[i], reader.value));
      SortRefines(updated);
      SortKeepsProfiles(updated);
    } else {
      SortRefines(all);
      SortKeepsProfiles(all);
    }
  }

  // Every discovered line ends up with an entry of its own.
  lemma DiscoveredHaveEntries(profiles: seq<LineProfile>, lineIds: seq<string>, reader: Option<string>, id: string)
    requires UniqueIds(profiles) && id in lineIds && ValidLineId(id)
    ensures var d := Discover(profiles, lineIds, reader); Find(d.profiles, id) < |d.profiles|
  {
    var ids, voiced := Dedup(ValidOnly(lineIds), []), VoicedAll(profiles);
    var all := EnsuredAll(voiced, ids);
    ValidOnlyMembers(lineIds);
    DedupMembers(ValidOnly(lineIds), []);
    VoicedRefines(profiles);
    EnsuredAllRefines(voiced, ids);
    var n :| 0 <= n < |ids| && ids[n] == id;
    if TakesReader(all, ids, reader) {
      var i := Find(all, ids[0]);
      var updated := all[i := WithReader(all[i], reader.value)];
      FindUpdated(all, i, WithReader(all[i], reader.value), id);
      SortKeepsProfiles(updated);
      PresentPermuted(updated, Sort(IdLe, updated), id);
    } else {
      SortKeepsProfiles(all);
      PresentPermuted(all, Sort(IdLe, all), id);
    }
  }

  lemma {:induction false} ValidOnlyMembers(ids: seq<string>)
    ensures forall id :: id in ValidOnly(ids) <==> id in ids && ValidLineId(id)
  {
    if ids != [] {
      ValidOnlyMembers(ids[1..]);
      assert ids == [ids[0]] + ids[1..];
    }
  }

  lemma {:induction false} EnsuredAllIdle(profiles: seq<LineProfile>, ids: seq<string>)
    requires forall i :: 0 <= i < |ids| ==> Find(profiles, ids[i]) < |profiles|
    ensures EnsuredAll(profiles, ids) == profiles
    decreases |ids|
  {
    if ids != [] {
      assert forall i :: 0 <= i < |ids[1..]| ==> ids[1..][i] == ids[i + 1];
      EnsuredAllIdle(profiles, ids[1..]);
    }
  }

  lemma DiscoveredAreVoiced(profiles: seq<LineProfile>, lineIds: seq<string>, reader: Option<string>)
    requires UniqueIds(profiles) && Dedup(ValidOnly(lineIds), []) != []
    ensures VoicedAll(Discover(profiles, lineIds, reader).profiles) == Discover(profiles, lineIds, reader).profiles
  {
    var after := Discover(profiles, lineIds, reader).profiles;
    DiscoveryRefinesMap(profiles, lineIds, reader);
    forall i | 0 <= i < |after| ensures Voiced(after[i]) == after[i] {
      var k := after[i].lineId;
      OneEntry(after, i, Find(after, k));
      NormalizedIsNormal(Stored(profiles, k).voicePath);
      NormalizedIsNormal(Normalized(Stored(profiles, k).voicePath));
    }
  }

  // Discovering the same lines again changes nothing and asks for no save.
  lemma SecondDiscoveryIsIdle(profiles: seq<LineProfile>, lineIds: seq<string>, reader: Option<string>)
    requires UniqueIds(profiles)
    ensures var once := Discover(profiles, lineIds, reader);
            Discover(once.profiles, lineIds, once.reader) == Discovery(once.profiles, once.reader, false)
  {
    var ids, once := Dedup(ValidOnly(lineIds), []), Discover(profiles, lineIds, reader);
    if ids != [] {
      DiscoveryRefinesMap(profiles, lineIds, reader);
      forall i | 0 <= i < |ids| ensures Find(once.profiles, ids[i]) < |once.profiles| {
        assert ids[i] in ids;
        DedupMembers(ValidOnly(lineIds), []);
        ValidOnlyMembers(lineIds);
        DiscoveredHaveEntries(profiles, lineIds, reader, ids[i]);
      }
      DiscoveredAreVoiced(profiles, lineIds, reader);
      EnsuredAllIdle(once.profiles, ids);
      SortIdle(IdLe, once.profiles);
      OneTaker(profiles, lineIds, reader);
    }
  }

  // Whoever took the global reader leaves none to take.
  lemma OneTaker(profiles: seq<LineProfile>, lineIds: seq<string>, reader: Option<string>)
    requires UniqueIds(profiles) && Dedup(ValidOnly(lineIds), []) != []
    ensures var once, ids := Discover(profiles, lineIds, reader), Dedup(ValidOnly(lineIds), []);
            !TakesReader(once.profiles, ids, once.reader)
  {
    DiscoveryRefinesMap(profiles, lineIds, reader);
    VoicedRefines(profiles);
    EnsuredAllRefines(VoicedAll(profiles), Dedup(ValidOnly(lineIds), []));
  }

  // A discovery that asks for no save has at most sorted the entries.
  lemma CleanDiscoveryOnlySorts(profiles: seq<LineProfile>, lineIds: seq<string>, reader: Option<string>)
    requires !Discover(profiles, lineIds, reader).changed
    ensures multiset(Discover(profiles, lineIds, reader).profiles) == multiset(profiles)
    ensures Discover(profiles, lineIds, reader).reader == reader
  {
    SortKeepsProfiles(profiles);
    var ids, voiced := Dedup(ValidOnly(lineIds), []), VoicedAll(profiles);
    if ids != [] && TakesReader(EnsuredAll(voiced, ids), ids, reader) {
      var id := ids[0];
      assert ids == [id];
      EnsuredAllFinds(voiced, id);
    }
  }

  lemma EnsuredAllFinds(profiles: seq<LineProfile>, id: string)
    ensures Find(EnsuredAll(profiles, [id]), id) < |EnsuredAll(profiles, [id])|
  {
  }
}
