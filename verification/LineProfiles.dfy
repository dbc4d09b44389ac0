/** Per-line settings: the stored list, and the total map of lines it stands for. */
module LineProfiles {
  import opened Options
  import opened Sorting
  import opened Text

  type U16 = n: int | 0 <= n < 0x1_0000

  datatype AccessPath = VowifiPath | CellularImsPath | CsPath {
    predicate IsIms() { this != CsPath }
  }

  datatype Layer = Layer(kind: AccessPath, enabled: bool)

  datatype VoicePath = VoicePath(priority: seq<Layer>, gatewayMode: bool)

  // Media parameters are opaque beyond what their setter checks.
  datatype Media = Media(codec: string, payloadType: nat, fmtp: string)

  // The two flags mirror the access legs; they are never set on their own.
  datatype Video = Video(cellularIms: bool, vowifi: bool, media: Media)

  datatype Vowifi = Vowifi(enabled: bool, transport: string)

  datatype Trunk = Trunk(
    enabled: bool,
    outboundRegister: bool,
    host: string,
    localPort: U16,
    username: string,
    secret: string,
    incomingBinding: string,
    outgoingBinding: string,
    registerExpiry: nat,
    others: string)

  datatype Preference = Concurrent | Single(policy: string)

  // Fields that no rule of this model reads; each has its own setter.
  datatype Settings = Settings(
    selection: string,
    dataProxy: string,
    roamingAllowed: bool,
    smsPath: string,
    apn: string,
    esimControl: Option<bool>,
    esimReader: string)

  datatype LineProfile = LineProfile(
    lineId: string,
    enabled: bool,
    cellularIms: bool,
    video: Video,
    vowifi: Vowifi,
    trunk: Trunk,
    data: bool,
    airplane: bool,
    voicePath: VoicePath,
    preference: Preference,
    settings: Settings)

  predicate IsHexDigit(c: char) {
    IsDigit(c) || 'a' <= c <= 'f' || 'A' <= c <= 'F'
  }

  predicate ValidLineId(id: string) {
    |id| == 37 && id[..5] == "line-" && forall i :: 5 <= i < 37 ==> IsHexDigit(id[i])
  }

  lemma ValidIdIsTrimmed(id: string)
    requires ValidLineId(id)
    ensures Trim(id) == id
  {
  }

  // ---- Voice path order ----------------------------------------------------------------------------

  function FirstIms(layers: seq<Layer>, seen: seq<AccessPath>): seq<Layer> {
    if layers == [] then []
    else if layers[0].kind.IsIms() && layers[0].kind !in seen then
      [layers[0]] + FirstIms(layers[1..], seen + [layers[0].kind])
    else FirstIms(layers[1..], seen)
  }

  predicate HasKind(layers: seq<Layer>, kind: AccessPath) {
    exists i :: 0 <= i < |layers| && layers[i].kind == kind
  }

  function Completed(layers: seq<Layer>, kind: AccessPath): seq<Layer> {
    if HasKind(layers, kind) then layers else layers + [Layer(kind, true)]
  }

  function Normalized(p: VoicePath): VoicePath {
    p.(priority := Completed(Completed(FirstIms(p.priority, []), VowifiPath), CellularImsPath))
  }

  const DEFAULT_VOICE_PATH := VoicePath([Layer(VowifiPath, true), Layer(CellularImsPath, true)], true)

  // Exactly the two IMS kinds, once each.
  predicate IsNormal(p: VoicePath) {
    && |p.priority| == 2 && p.priority[0].kind != p.priority[1].kind
    && p.priority[0].kind.IsIms() && p.priority[1].kind.IsIms()
  }

  lemma {:induction false} FirstImsShape(layers: seq<Layer>, seen: seq<AccessPath>)
    ensures forall x :: x in FirstIms(layers, seen) ==> x in layers && x.kind.IsIms() && x.kind !in seen
    ensures forall k: AccessPath :: k.IsIms() && k !in seen && HasKind(layers, k) ==> HasKind(FirstIms(layers, seen), k)
    ensures forall i, j :: 0 <= i < j < |FirstIms(layers, seen)| ==>
        FirstIms(layers, seen)[i].kind != FirstIms(layers, seen)[j].kind
  {
    if layers != [] {
      var head, rest := layers[0], layers[1..];
      var keep := head.kind.IsIms() && head.kind !in seen;
      FirstImsShape(rest, if keep then seen + [head.kind] else seen);
      forall k: AccessPath | k.IsIms() && k !in seen && HasKind(layers, k) ensures HasKind(FirstIms(layers, seen), k) {
        if keep && head.kind == k {
          assert FirstIms(layers, seen)[0].kind == k;
        } else {
          var i :| 0 <= i < |layers| && layers[i].kind == k;
          assert rest[i - 1].kind == k;
          var tail := FirstIms(rest, if keep then seen + [head.kind] else seen);
          var j :| 0 <= j < |tail| && tail[j].kind == k;
          assert FirstIms(layers, seen)[if keep then j + 1 else j].kind == k;
        }
      }
    }
  }

  // Normalizing always gives both IMS kinds once, and leaves exactly such policies alone.
  lemma NormalizedIsNormal(p: VoicePath)
    ensures IsNormal(Normalized(p)) && Normalized(p).gatewayMode == p.gatewayMode
    ensures Normalized(p) == p <==> IsNormal(p)
  {
    var kept := FirstIms(p.priority, []);
    FirstImsShape(p.priority, []);
    AtMostTwoKinds(kept);
    if IsNormal(p) {
      var a, b := p.priority[0], p.priority[1];
      assert p.priority == [a, b] && [a, b][1..] == [b] && [b][1..] == [];
      assert FirstIms([b], [] + [a.kind]) == [b] + FirstIms([], [] + [a.kind] + [b.kind]);
      assert kept == p.priority;
      assert HasKind(kept, VowifiPath) && HasKind(kept, CellularImsPath) by {
        assert kept[0].kind == VowifiPath || kept[1].kind == VowifiPath;
        assert kept[0].kind == CellularImsPath || kept[1].kind == CellularImsPath;
      }
    }
  }

  lemma ThreeRepeat(layers: seq<Layer>)
    requires |layers| >= 3 && forall x :: x in layers ==> x.kind.IsIms()
    ensures exists i, j :: 0 <= i < j < |layers| && layers[i].kind == layers[j].kind
  {
    assert layers[0] in layers && layers[1] in layers && layers[2] in layers;
    assert layers[0].kind == layers[1].kind || layers[0].kind == layers[2].kind || layers[1].kind == layers[2].kind;
  }

  lemma AtMostTwoKinds(layers: seq<Layer>)
    requires forall x :: x in layers ==> x.kind.IsIms()
    requires forall i, j :: 0 <= i < j < |layers| ==> layers[i].kind != layers[j].kind
    ensures |layers| <= 2
    ensures IsNormal(VoicePath(Completed(Completed(layers, VowifiPath), CellularImsPath), true))
  {
    if |layers| >= 3 { ThreeRepeat(layers); }
    var one := Completed(layers, VowifiPath);
    if |layers| == 2 {
      assert layers[0] in layers && layers[1] in layers && layers[0].kind != layers[1].kind;
      assert HasKind(layers, layers[0].kind) && HasKind(layers, layers[1].kind);
    } else if |layers| == 1 {
      assert layers[0] in layers && HasKind(layers, layers[0].kind);
      if layers[0].kind == CellularImsPath {
        assert one == [layers[0], Layer(VowifiPath, true)] && one[0].kind == CellularImsPath;
        assert HasKind(one, CellularImsPath);
      } else {
        assert one == layers && !HasKind(one, CellularImsPath);
      }
    } else {
      assert one == [Layer(VowifiPath, true)] && !HasKind(one, CellularImsPath);
    }
  }

  // The user's own entries come first, in their order, each with the switch of its first mention.
  lemma {:induction false} FirstMentionWins(layers: seq<Layer>, seen: seq<AccessPath>, i: nat)
    requires i < |layers| && layers[i].kind.IsIms() && layers[i].kind !in seen
    requires forall j :: 0 <= j < i ==> layers[j].kind != layers[i].kind
    ensures layers[i] in FirstIms(layers, seen)
  {
    if i > 0 {
      var keep := layers[0].kind.IsIms() && layers[0].kind !in seen;
      assert layers[0].kind != layers[i].kind;
      FirstMentionWins(layers[1..], if keep then seen + [layers[0].kind] else seen, i - 1);
    }
  }

  // ---- Defaults and reads ----------------------------------------------------------------------------

  const DEFAULT_MEDIA := Media("h264", 99, "")

  const NO_TRUNK := Trunk(false, false, "", 0, "", "", "", "", 3600, "")

  const DEFAULT_READER := ""

  const DEFAULT_SETTINGS := Settings("", "", true, "", "", None, DEFAULT_READER)

  function ForLine(id: string): LineProfile {
    LineProfile(id, true, false, Video(false, false, DEFAULT_MEDIA), Vowifi(false, ""), NO_TRUNK, false, false,
                DEFAULT_VOICE_PATH, Concurrent, DEFAULT_SETTINGS)
  }

  // Mirror each access leg's presence onto the video flags.
  function Synced(p: LineProfile): LineProfile {
    p.(video := p.video.(cellularIms := p.cellularIms, vowifi := p.vowifi.enabled))
  }

  // ---- The list as a total map ------------------------------------------------------------------------

  function IdOf(p: LineProfile): string {
    p.lineId
  }

  ghost predicate UniqueIds(profiles: seq<LineProfile>) {
    DistinctBy(IdOf, profiles)
  }

  predicate IdLe(a: LineProfile, b: LineProfile) {
    LexLe(a.lineId, b.lineId)
  }

  function Find(profiles: seq<LineProfile>, id: string): (i: nat)
    ensures i <= |profiles| && (forall j :: 0 <= j < i ==> profiles[j].lineId != id)
    ensures i < |profiles| ==> profiles[i].lineId == id
  {
    if profiles == [] || profiles[0].lineId == id then 0 else 1 + Find(profiles[1..], id)
  }

  // The profile that governs a line: its entry, or the defaults.
  function Stored(profiles: seq<LineProfile>, id: string): (p: LineProfile)
    ensures p.lineId == id
  {
    if Find(profiles, id) < |profiles| then profiles[Find(profiles, id)] else ForLine(id)
  }

  function GetLineProfile(profiles: seq<LineProfile>, id: string): LineProfile {
    Synced(Stored(profiles, id)).(preference := Concurrent)
  }

  // The list once the line certainly has an entry: a missing one goes to the end.
  function Ensured(profiles: seq<LineProfile>, id: string): (r: seq<LineProfile>)
    ensures Find(r, id) < |r|
  {
    if Find(profiles, id) < |profiles| then profiles
    else
      assert (profiles + [ForLine(id)])[|profiles|].lineId == id;
      profiles + [ForLine(id)]
  }

  function Put(profiles: seq<LineProfile>, p: LineProfile): seq<LineProfile> {
    var all := Ensured(profiles, p.lineId);
    Sort(IdLe, all[Find(all, p.lineId) := p])
  }

  lemma IdLeIsPreorder()
    ensures TotalPreorder(IdLe)
  {
    forall a, b ensures IdLe(a, b) || IdLe(b, a) { LexTotal(a.lineId, b.lineId); }
    forall a, b, c | IdLe(a, b) && IdLe(b, c) ensures IdLe(a, c) { LexTransitive(a.lineId, b.lineId, c.lineId); }
  }

  lemma SortKeepsProfiles(profiles: seq<LineProfile>)
    ensures multiset(Sort(IdLe, profiles)) == multiset(profiles) && SortedBy(IdLe, Sort(IdLe, profiles))
  {
    IdLeIsPreorder();
    SortCorrect(IdLe, profiles);
  }

  // With unique ids the governing profile does not depend on the order of the list.
  lemma StoredPermuted(a: seq<LineProfile>, b: seq<LineProfile>, id: string)
    requires UniqueIds(a) && multiset(a) == multiset(b)
    ensures Stored(a, id) == Stored(b, id) && (Find(a, id) < |a| <==> Find(b, id) < |b|)
  {
    DistinctPermuted(IdOf, a, b);
    var i, j := Find(a, id), Find(b, id);
    if j < |b| { PresentPermuted(b, a, id); }
    if i < |a| {
      PresentPermuted(a, b, id);
      assert a[i] in multiset(b);
      var k :| 0 <= k < |b| && b[k] == a[i];
      OneEntry(b, j, k);
    }
  }

  lemma PresentPermuted(a: seq<LineProfile>, b: seq<LineProfile>, id: string)
    requires multiset(a) == multiset(b) && Find(a, id) < |a|
    ensures Find(b, id) < |b|
  {
    assert a[Find(a, id)] in multiset(b);
  }

  lemma OneEntry(profiles: seq<LineProfile>, i: nat, j: nat)
    requires UniqueIds(profiles) && i < |profiles| && j < |profiles| && IdOf(profiles[i]) == IdOf(profiles[j])
    ensures i == j
  {
  }

  lemma SortRefines(profiles: seq<LineProfile>)
    requires UniqueIds(profiles)
    ensures UniqueIds(Sort(IdLe, profiles))
    ensures forall id :: Stored(Sort(IdLe, profiles), id) == Stored(profiles, id)
  {
    SortKeepsProfiles(profiles);
    DistinctPermuted(IdOf, profiles, Sort(IdLe, profiles));
    forall id ensures Stored(Sort(IdLe, profiles), id) == Stored(profiles, id) {
      StoredPermuted(profiles, Sort(IdLe, profiles), id);
    }
  }

  lemma FindAppended(profiles: seq<LineProfile>, p: LineProfile, id: string)
    requires Find(profiles, p.lineId) == |profiles|
    ensures Find(profiles + [p], id) == if id == p.lineId then |profiles| else
              if Find(profiles, id) < |profiles| then Find(profiles, id) else |profiles| + 1
  {
    var all := profiles + [p];
    var i, f := Find(all, id), Find(profiles, id);
    assert all[|profiles|] == p && (f < |profiles| ==> all[f].lineId == id);
    assert forall j :: 0 <= j < |profiles| ==> all[j] == profiles[j];
  }

  // Giving a line an explicit default entry is invisible to every reader.
  lemma EnsuredRefines(profiles: seq<LineProfile>, id: string)
    requires UniqueIds(profiles)
    ensures UniqueIds(Ensured(profiles, id))
    ensures forall k :: Stored(Ensured(profiles, id), k) == Stored(profiles, k)
  {
    if Find(profiles, id) == |profiles| {
      forall k ensures Stored(Ensured(profiles, id), k) == Stored(profiles, k) {
        FindAppended(profiles, ForLine(id), k);
      }
    }
  }

  lemma FindUpdated(profiles: seq<LineProfile>, i: nat, p: LineProfile, id: string)
    requires i < |profiles| && profiles[i].lineId == p.lineId
    ensures Find(profiles[i := p], id) == Find(profiles, id)
  {
    var all := profiles[i := p];
    assert forall j :: 0 <= j < |all| ==> all[j].lineId == profiles[j].lineId;
  }

  // Storing one profile updates the map at its line and nowhere else.
  lemma PutRefines(profiles: seq<LineProfile>, p: LineProfile)
    requires UniqueIds(profiles)
    ensures UniqueIds(Put(profiles, p)) && SortedBy(IdLe, Put(profiles, p))
    ensures forall id :: Stored(Put(profiles, p), id) == if id == p.lineId then p else Stored(profiles, id)
  {
    var all := Ensured(profiles, p.lineId);
    var i := Find(all, p.lineId);
    EnsuredRefines(profiles, p.lineId);
    var updated := all[i := p];
    assert UniqueIds(updated) by {
      assert forall j :: 0 <= j < |all| ==> IdOf(updated[j]) == IdOf(all[j]);
    }
    SortRefines(updated);
    SortKeepsProfiles(updated);
    forall id ensures Stored(Put(profiles, p), id) == if id == p.lineId then p else Stored(profiles, id) {
      FindUpdated(all, i, p, id);
    }
  }
}
