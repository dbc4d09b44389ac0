/** What every run of per-line operations keeps. */
module LineRuns {
  import opened Options
  import opened Sorting
  import opened Text
  import opened LineProfiles
  import opened LineSetters
  import opened LineReferences
  import opened LineDiscovery

  datatype Step =
    | Change(id: string, update: Update)
    | ChangeTrunk(id: string, trunk: Trunk, active: Option<set<string>>)
    | Discovered(ids: seq<string>)
    | Moved(line: string, legacy: seq<string>)

  datatype Lines = Lines(profiles: seq<LineProfile>, reader: Option<string>)

  function Next(s: Lines, step: Step): Lines {
    match step
    case Change(id, u) => s.(profiles := Set(s.profiles, id, u).profiles)
    case ChangeTrunk(id, t, active) => s.(profiles := SetTrunk(s.profiles, id, t, active).profiles)
    case Discovered(ids) => var d := Discover(s.profiles, ids, s.reader); Lines(d.profiles, d.reader)
    case Moved(line, legacy) =>
      if ValidLineId(line) then s.(profiles := Inherited(s.profiles, Aliases(line, legacy), line)) else s
  }

  function Run(s: Lines, steps: seq<Step>): Lines
    decreases |steps|
  {
    if steps == [] then s else Run(Next(s, steps[0]), steps[1..])
  }

  // ---- Airplane mode and the video mirrors ---------------------------------------------------------

  // Airplane mode leaves no cellular intent on, and the video flags mirror the access legs.
  predicate Sound(p: LineProfile) {
    && (p.airplane ==> !p.data && !p.cellularIms)
    && p.video.cellularIms == p.cellularIms && p.video.vowifi == p.vowifi.enabled
  }

  ghost predicate AllSound(profiles: seq<LineProfile>) {
    UniqueIds(profiles) && forall k :: Sound(Stored(profiles, k))
  }

  lemma ApplyKeepsSound(p: LineProfile, u: Update)
    requires Sound(p) && Guard(p, u).None?
    ensures Sound(Apply(p, u))
  {
  }

  lemma SetKeepsSound(profiles: seq<LineProfile>, id: string, u: Update)
    requires AllSound(profiles)
    ensures AllSound(Set(profiles, id, u).profiles)
  {
    SetRefinesMap(profiles, id, u);
    var o := Set(profiles, id, u);
    if o.result.Valid? {
      AcceptedSet(profiles, id, u);
      ApplyKeepsSound(Stored(profiles, id), u);
    }
  }

  lemma AcceptedSet(profiles: seq<LineProfile>, id: string, u: Update)
    requires Set(profiles, id, u).result.Valid?
    ensures Guard(Stored(profiles, id), u).None? && Set(profiles, id, u).result.value == Apply(Stored(profiles, id), u)
  {
  }

  lemma SetTrunkKeepsSound(profiles: seq<LineProfile>, id: string, t: Trunk, active: Option<set<string>>)
    requires AllSound(profiles)
    ensures AllSound(SetTrunk(profiles, id, t, active).profiles)
  {
    SetTrunkRefinesMap(profiles, id, t, active);
    assert Sound(Stored(profiles, id));
  }

  lemma DiscoverKeepsSound(profiles: seq<LineProfile>, ids: seq<string>, reader: Option<string>)
    requires AllSound(profiles)
    ensures AllSound(Discover(profiles, ids, reader).profiles)
  {
    if Dedup(ValidOnly(ids), []) != [] {
      DiscoveryRefinesMap(profiles, ids, reader);
      forall k ensures Sound(Stored(Discover(profiles, ids, reader).profiles, k)) {
        assert Sound(Stored(profiles, k));
      }
    }
  }

  // Inheriting copies one line's profile to a line that had none.
  lemma InheritedRefinesMap(profiles: seq<LineProfile>, aliases: set<string>, line: string)
    requires UniqueIds(profiles) && Inherits(profiles, aliases, line)
    ensures var after, source := Inherited(profiles, aliases, line), profiles[FirstAliased(profiles, aliases)];
            && UniqueIds(after) && Stored(profiles, source.lineId) == source
            && forall k :: Stored(after, k) == if k == line then source.(lineId := line) else Stored(profiles, k)
  {
    var i := FirstAliased(profiles, aliases);
    var copy := profiles[i].(lineId := line);
    OneEntry(profiles, i, Find(profiles, profiles[i].lineId));
    var all := profiles + [copy];
    assert UniqueIds(all);
    SortRefines(all);
    forall k ensures Stored(all, k) == if k == line then copy else Stored(profiles, k) {
      FindAppended(profiles, copy, k);
    }
  }

  lemma InheritedKeepsSound(profiles: seq<LineProfile>, aliases: set<string>, line: string)
    requires AllSound(profiles)
    ensures AllSound(Inherited(profiles, aliases, line))
  {
    if Inherits(profiles, aliases, line) {
      InheritedRefinesMap(profiles, aliases, line);
      assert Sound(Stored(profiles, profiles[FirstAliased(profiles, aliases)].lineId));
    }
  }

  lemma StepKeepsSound(s: Lines, step: Step)
    requires AllSound(s.profiles)
    ensures AllSound(Next(s, step).profiles)
  {
    match step
    case Change(id, u) => SetKeepsSound(s.profiles, id, u);
    case ChangeTrunk(id, t, active) => SetTrunkKeepsSound(s.profiles, id, t, active);
    case Discovered(ids) => DiscoverKeepsSound(s.profiles, ids, s.reader);
    case Moved(line, legacy) => InheritedKeepsSound(s.profiles, Aliases(line, legacy), line);
  }

  // No run of setters, discoveries and migrations breaks airplane mode or the mirrors.
  lemma {:induction false} SoundOverRuns(s: Lines, steps: seq<Step>)
    requires AllSound(s.profiles)
    ensures AllSound(Run(s, steps).profiles)
    decreases |steps|
  {
    if steps != [] {
      StepKeepsSound(s, steps[0]);
      SoundOverRuns(Next(s, steps[0]), steps[1..]);
    }
  }

  // ---- Airplane mode over time ---------------------------------------------------------------------

  lemma SetKeepsAirplane(profiles: seq<LineProfile>, id: string, u: Update, line: string)
    requires UniqueIds(profiles) && Stored(profiles, line).airplane && !(id == line && u == SetAirplane(false))
    ensures Stored(Set(profiles, id, u).profiles, line).airplane
  {
    SetRefinesMap(profiles, id, u);
    if Set(profiles, id, u).result.Valid? { AcceptedSet(profiles, id, u); }
  }

  lemma StepKeepsAirplane(s: Lines, step: Step, line: string)
    requires UniqueIds(s.profiles) && Stored(s.profiles, line).airplane && step != Change(line, SetAirplane(false))
    ensures Stored(Next(s, step).profiles, line).airplane
  {
    match step
    case Change(id, u) => SetKeepsAirplane(s.profiles, id, u, line);
    case ChangeTrunk(id, t, active) => SetTrunkRefinesMap(s.profiles, id, t, active);
    case Discovered(ids) =>
      if Dedup(ValidOnly(ids), []) != [] { DiscoveryRefinesMap(s.profiles, ids, s.reader); }
    case Moved(to, legacy) =>
      if Inherits(s.profiles, Aliases(to, legacy), to) { InheritedRefinesMap(s.profiles, Aliases(to, legacy), to); }
  }

  // Airplane mode holds until it is switched off for that line: whatever else is set, discovered
  // or migrated, both cellular intents stay off, and switching either on is refused.
  lemma {:induction false} AirplaneHolds(s: Lines, steps: seq<Step>, line: string)
    requires AllSound(s.profiles) && Stored(s.profiles, line).airplane
    requires forall i :: 0 <= i < |steps| ==> steps[i] != Change(line, SetAirplane(false))
    ensures var after := Run(s, steps).profiles;
            && Stored(after, line).airplane && !Stored(after, line).data && !Stored(after, line).cellularIms
            && Set(after, line, SetData(true)).result.Invalid? && Set(after, line, SetCellularIms(true)).result.Invalid?
    decreases |steps|
  {
    if steps == [] {
      assert Sound(Stored(s.profiles, line));
      RadioAcceptedExactly(s.profiles, line, true);
    } else {
      StepKeepsSound(s, steps[0]);
      StepKeepsAirplane(s, steps[0], line);
      AirplaneHolds(Next(s, steps[0]), steps[1..], line);
    }
  }

  // ---- Trunk ports --------------------------------------------------------------------------------------

  predicate Clash(a: LineProfile, b: LineProfile) {
    a.lineId != b.lineId && a.trunk.enabled && b.trunk.enabled && a.trunk.localPort == b.trunk.localPort
  }

  // Any two lines whose trunks are on use different, non-zero local ports.
  ghost predicate PortsApart(profiles: seq<LineProfile>) {
    && UniqueIds(profiles)
    && (forall k :: Stored(profiles, k).trunk.enabled ==> Stored(profiles, k).trunk.localPort != 0)
    && (forall j, k :: !Clash(Stored(profiles, j), Stored(profiles, k)))
  }

  // No line's trunk changes, so the ports stay apart.
  lemma SameTrunksApart(before: seq<LineProfile>, after: seq<LineProfile>)
    requires PortsApart(before) && UniqueIds(after)
    requires forall k :: Stored(after, k).trunk == Stored(before, k).trunk
    ensures PortsApart(after)
  {
  }

  lemma SetKeepsPorts(profiles: seq<LineProfile>, id: string, u: Update)
    requires PortsApart(profiles)
    ensures PortsApart(Set(profiles, id, u).profiles)
  {
    SetRefinesMap(profiles, id, u);
    if Set(profiles, id, u).result.Valid? { AcceptedSet(profiles, id, u); }
    SameTrunksApart(profiles, Set(profiles, id, u).profiles);
  }

  lemma DiscoverKeepsPorts(profiles: seq<LineProfile>, ids: seq<string>, reader: Option<string>)
    requires PortsApart(profiles)
    ensures PortsApart(Discover(profiles, ids, reader).profiles)
  {
    if Dedup(ValidOnly(ids), []) != [] {
      DiscoveryRefinesMap(profiles, ids, reader);
      SameTrunksApart(profiles, Discover(profiles, ids, reader).profiles);
    }
  }

  lemma TrunkValue(profiles: seq<LineProfile>, id: string, t: Trunk, active: Option<set<string>>)
    requires SetTrunk(profiles, id, t, active).result.Valid?
    ensures SetTrunk(profiles, id, t, active).result.value.trunk.enabled == t.enabled
  {
  }

  // Checked against every line, a trunk cannot break the ports.
  lemma SetTrunkKeepsPorts(profiles: seq<LineProfile>, id: string, t: Trunk)
    requires PortsApart(profiles)
    ensures PortsApart(SetTrunk(profiles, id, t, None).profiles)
  {
    var o := SetTrunk(profiles, id, t, None);
    SetTrunkRefinesMap(profiles, id, t, None);
    if o.result.Valid? {
      TrunkValue(profiles, id, t, None);
      if t.enabled { AcceptedPortIsFree(profiles, id, t, None); }
      forall j, k ensures !Clash(Stored(o.profiles, j), Stored(o.profiles, k)) {
        assert !Clash(Stored(profiles, j), Stored(profiles, k));
      }
    } else {
      SameTrunksApart(profiles, o.profiles);
    }
  }

  // Only the unscoped trunk setter, and no migration.
  predicate PortSafe(step: Step) {
    !step.Moved? && (step.ChangeTrunk? ==> step.active.None?)
  }

  lemma {:induction false} PortsApartOverRuns(s: Lines, steps: seq<Step>)
    requires PortsApart(s.profiles) && forall i :: 0 <= i < |steps| ==> PortSafe(steps[i])
    ensures PortsApart(Run(s, steps).profiles)
    decreases |steps|
  {
    if steps != [] {
      assert PortSafe(steps[0]);
      match steps[0] {
        case Change(id, u) => SetKeepsPorts(s.profiles, id, u);
        case ChangeTrunk(id, t, _) => SetTrunkKeepsPorts(s.profiles, id, t);
        case Discovered(ids) => DiscoverKeepsPorts(s.profiles, ids, s.reader);
      }
      PortsApartOverRuns(Next(s, steps[0]), steps[1..]);
    }
  }

  // Migration keeps the ports apart exactly when it copies no trunk that is switched on:
  // the old profile stays behind with the same port.
  lemma MigrationPortsExact(profiles: seq<LineProfile>, aliases: set<string>, line: string)
    requires PortsApart(profiles) && line !in aliases
    ensures PortsApart(Inherited(profiles, aliases, line)) <==>
              !(Inherits(profiles, aliases, line) && profiles[FirstAliased(profiles, aliases)].trunk.enabled)
  {
    if Inherits(profiles, aliases, line) {
      var after, source := Inherited(profiles, aliases, line), profiles[FirstAliased(profiles, aliases)];
      InheritedRefinesMap(profiles, aliases, line);
      if source.trunk.enabled {
        assert Clash(Stored(after, line), Stored(after, source.lineId));
      } else {
        forall j, k ensures !Clash(Stored(after, j), Stored(after, k)) {
          assert !Clash(Stored(profiles, j), Stored(profiles, k));
        }
      }
    }
  }

  // A trunk checked only against the lines in scope keeps the ports apart exactly when no line
  // out of scope already uses the port.
  lemma ScopedPortsExact(profiles: seq<LineProfile>, id: string, t: Trunk, active: set<string>)
    requires PortsApart(profiles) && SetTrunk(profiles, id, t, Some(active)).result.Valid?
    ensures PortsApart(SetTrunk(profiles, id, t, Some(active)).profiles) <==>
              !(t.enabled && PortTaken(profiles, id, t.localPort, None))
  {
    var after := SetTrunk(profiles, id, t, Some(active)).profiles;
    SetTrunkRefinesMap(profiles, id, t, Some(active));
    TrunkValue(profiles, id, t, Some(active));
    PortTakenOnMap(profiles, id, t.localPort, None);
    if t.enabled { AcceptedPortIsFree(profiles, id, t, Some(active)); }
    ClashesAtOneLine(profiles, after, id);
    forall k
      ensures Clash(Stored(after, id), Stored(profiles, k)) <==>
                t.enabled && PortTakenBy(Stored(profiles, k), id, t.localPort, None)
    {
    }
  }

  // A change at one line breaks the ports exactly when that line clashes with another.
  lemma ClashesAtOneLine(before: seq<LineProfile>, after: seq<LineProfile>, id: string)
    requires PortsApart(before) && UniqueIds(after)
    requires forall k :: k != id ==> Stored(after, k) == Stored(before, k)
    requires Stored(after, id).trunk.enabled ==> Stored(after, id).trunk.localPort != 0
    ensures PortsApart(after) <==> forall k :: !Clash(Stored(after, id), Stored(before, k))
  {
    if PortsApart(after) {
      forall k ensures !Clash(Stored(after, id), Stored(before, k)) {
        assert !Clash(Stored(after, id), Stored(after, k));
      }
    }
    if forall k :: !Clash(Stored(after, id), Stored(before, k)) {
      forall j, k ensures !Clash(Stored(after, j), Stored(after, k)) {
        assert !Clash(Stored(before, j), Stored(before, k));
        assert !Clash(Stored(after, id), Stored(before, j)) && !Clash(Stored(after, id), Stored(before, k));
      }
    }
  }
}
