/** The line profiles and their references, changed in place. */
module LineStore {
  import opened Options
  import opened Sorting
  import opened Text
  import opened LineProfiles
  import opened LineSetters
  import opened LineReferences
  import opened LineDiscovery
  import LineRuns

  // Builds the normalized order with two local lists, as the policy type does.
  method NormalizeVoicePath(policy: VoicePath) returns (r: VoicePath)
    ensures r == Normalized(policy)
  {
    var seen, deduped, i := [], [], 0;
    assert policy.priority[0..] == policy.priority;
    while i < |policy.priority|
      invariant i <= |policy.priority|
      invariant deduped + FirstIms(policy.priority[i..], seen) == FirstIms(policy.priority, [])
      invariant forall k: AccessPath :: k in seen <==> HasKind(deduped, k)
    {
      var layer := policy.priority[i];
      FirstImsNext(policy.priority, i, seen, deduped);
      if layer.kind.IsIms() && layer.kind !in seen {
        HasKindAppend(deduped, layer);
        seen := seen + [layer.kind];
        deduped := deduped + [layer];
      }
      i := i + 1;
    }
    assert deduped == FirstIms(policy.priority, []) by { assert policy.priority[i..] == []; }
    if VowifiPath !in seen {
      HasKindAppend(deduped, Layer(VowifiPath, true));
      deduped := deduped + [Layer(VowifiPath, true)];
    }
    if CellularImsPath !in seen { deduped := deduped + [Layer(CellularImsPath, true)]; }
    r := policy.(priority := deduped);
  }

  lemma FirstImsNext(layers: seq<Layer>, i: nat, seen: seq<AccessPath>, done: seq<Layer>)
    requires i < |layers|
    ensures done + FirstIms(layers[i..], seen) ==
              if layers[i].kind.IsIms() && layers[i].kind !in seen then
                done + [layers[i]] + FirstIms(layers[i + 1..], seen + [layers[i].kind])
              else done + FirstIms(layers[i + 1..], seen)
  {
    assert layers[i..][1..] == layers[i + 1..];
  }

  lemma EnsureNext(profiles: seq<LineProfile>, ids: seq<string>, k: nat)
    requires k < |ids|
    ensures EnsuredAll(profiles, ids[k..]) == EnsuredAll(Ensured(profiles, ids[k]), ids[k + 1..])
  {
    assert ids[k..][1..] == ids[k + 1..];
  }

  lemma HasKindAppend(layers: seq<Layer>, layer: Layer)
    ensures forall k :: HasKind(layers + [layer], k) <==> HasKind(layers, k) || k == layer.kind
  {
    forall k ensures HasKind(layers + [layer], k) <==> HasKind(layers, k) || k == layer.kind {
      assert (layers + [layer])[|layers|] == layer;
      if HasKind(layers, k) {
        var i :| 0 <= i < |layers| && layers[i].kind == k;
        assert (layers + [layer])[i].kind == k;
      }
    }
  }

  // The order-preserving rewrite of one rule's targets.
  method RewriteTargets(targets: seq<string>, aliases: set<string>, line: string) returns (rewritten: seq<string>)
    ensures rewritten == Rewrite(targets, aliases, line)
  {
    rewritten := [];
    ghost var renamed := RenamedAll(targets, aliases, line);
    RenamedMembers(targets, aliases, line);
    assert renamed[0..] == renamed;
    for i := 0 to |targets|
      invariant rewritten + Dedup(renamed[i..], rewritten) == Dedup(renamed, [])
    {
      var target := if Trim(targets[i]) in aliases then line else targets[i];
      assert renamed[i..][0] == target && renamed[i..][1..] == renamed[i + 1..];
      if target !in rewritten { rewritten := rewritten + [target]; }
    }
  }

  class LineConfig {
    var profiles: seq<LineProfile>
    var reader: Option<string>
    var tasks: seq<Option<Target>>
    var rules: seq<seq<string>>

    constructor (profiles: seq<LineProfile>, reader: Option<string>, tasks: seq<Option<Target>>,
        rules: seq<seq<string>>)
      ensures this.profiles == profiles && this.reader == reader && this.tasks == tasks && this.rules == rules
    {
      this.profiles, this.reader, this.tasks, this.rules := profiles, reader, tasks, rules;
    }

    function Refs(): References
      reads this
    {
      References(profiles, tasks, rules)
    }

    method IndexOf(id: string) returns (i: nat)
      ensures i == Find(profiles, id)
    {
      i := 0;
      while i < |profiles|
        invariant i <= |profiles|
        invariant forall j :: 0 <= j < i ==> profiles[j].lineId != id
      {
        if profiles[i].lineId == id { return; }
        i := i + 1;
      }
    }

    method FindOrInsert(id: string) returns (i: nat)
      modifies this`profiles
      ensures profiles == Ensured(old(profiles), id)
      ensures i == Find(profiles, id) < |profiles| && profiles[i] == Stored(old(profiles), id)
    {
      i := IndexOf(id);
      if i == |profiles| {
        FindAppended(profiles, ForLine(id), id);
        profiles := profiles + [ForLine(id)];
      }
    }

    method Store(i: nat, p: LineProfile)
      requires i < |profiles| && i == Find(profiles, p.lineId)
      modifies this`profiles
      ensures profiles == Put(old(profiles), p)
    {
      profiles := profiles[i := p];
      profiles := Sort(IdLe, profiles);
    }

    method SetCellularIms(id: string, on: bool) returns (r: Checked<LineProfile>)
      modifies this`profiles
      ensures Outcome(profiles, r) == Set(old(profiles), id, Update.SetCellularIms(on))
    {
      if !ValidLineId(id) { return Invalid("invalid_line_id"); }
      var i := FindOrInsert(id);
      var p := profiles[i];
      if on && !p.enabled { return Invalid("line_disabled"); }
      if on && p.airplane { return Invalid("line_airplane_mode_enabled"); }
      p := Synced(p.(cellularIms := on));
      Store(i, p);
      r := Valid(p);
    }

    method SetVowifi(id: string, config: Checked<Vowifi>) returns (r: Checked<LineProfile>)
      modifies this`profiles
      ensures Outcome(profiles, r) == Set(old(profiles), id, Update.SetVowifi(config))
    {
      if !ValidLineId(id) { return Invalid("invalid_line_id"); }
      if config.Invalid? { return Invalid(config.error); }
      var i := FindOrInsert(id);
      var p := profiles[i];
      if config.value.enabled && !p.enabled { return Invalid("line_disabled"); }
      p := Synced(p.(vowifi := config.value));
      Store(i, p);
      r := Valid(p);
    }

    method SetData(id: string, on: bool) returns (r: Checked<LineProfile>)
      modifies this`profiles
      ensures Outcome(profiles, r) == Set(old(profiles), id, Update.SetData(on))
    {
      if !ValidLineId(id) { return Invalid("invalid_line_id"); }
      var i := FindOrInsert(id);
      var p := profiles[i];
      if on && !p.enabled { return Invalid("line_disabled"); }
      if on && p.airplane { return Invalid("line_airplane_mode_enabled"); }
      p := p.(data := on);
      Store(i, p);
      r := Valid(p);
    }

    method SetAirplane(id: string, on: bool) returns (r: Checked<LineProfile>)
      modifies this`profiles
      ensures Outcome(profiles, r) == Set(old(profiles), id, Update.SetAirplane(on))
    {
      if !ValidLineId(id) { return Invalid("invalid_line_id"); }
      var i := FindOrInsert(id);
      var p := profiles[i].(airplane := on);
      if on { p := p.(data := false, cellularIms := false); }
      p := Synced(p);
      Store(i, p);
      r := Valid(p);
    }

    // The setters that only replace a field share one body, given the field's change.
    method UpdateLineProfile(id: string, u: Update) returns (r: Checked<LineProfile>)
      requires u.SetVideo? || u.SetVoicePath? || u.SetPreference? || u.SetSetting?
      modifies this`profiles
      ensures Outcome(profiles, r) == Set(old(profiles), id, u)
    {
      if RefusedFirst(u).Some? { return Invalid(RefusedFirst(u).value); }
      if !ValidLineId(id) { return Invalid("invalid_line_id"); }
      if RefusedNext(u).Some? { return Invalid(RefusedNext(u).value); }
      var i := FindOrInsert(id);
      var p := Apply(profiles[i], u);
      Store(i, p);
      r := Valid(p);
    }

    method PortInUse(id: string, port: U16, active: Option<set<string>>) returns (taken: bool)
      ensures taken == PortTaken(profiles, id, port, active)
    {
      for i := 0 to |profiles|
        invariant forall j :: 0 <= j < i ==> !PortTakenBy(profiles[j], id, port, active)
      {
        if PortTakenBy(profiles[i], id, port, active) { return true; }
      }
      taken := false;
    }

    method CheckTrunk(p: LineProfile, incoming: Trunk, active: Option<set<string>>) returns (problem: Option<string>)
      ensures problem == TrunkProblem(profiles, p, incoming, active)
    {
      if !ValidBinding(incoming.incomingBinding) { return Some("trunk_incoming_binding_invalid"); }
      if !ValidBinding(incoming.outgoingBinding) { return Some("trunk_outgoing_binding_invalid"); }
      if incoming.enabled {
        if !p.enabled { return Some("line_disabled"); }
        if Trim(incoming.host) == "" { return Some("trunk_asterisk_host_required"); }
        if incoming.outboundRegister && Trim(incoming.username) == "" { return Some("trunk_username_required"); }
        if incoming.outboundRegister && !(60 <= incoming.registerExpiry <= 86_400) {
          return Some("trunk_register_expiry_invalid");
        }
        if incoming.localPort == 0 { return Some("trunk_local_port_required"); }
        var taken := PortInUse(p.lineId, incoming.localPort, active);
        if taken { return Some("trunk_local_port_in_use"); }
      }
      problem := None;
    }

    method SetTrunkProfile(id: string, trunk: Trunk, active: Option<set<string>>) returns (r: Checked<LineProfile>)
      modifies this`profiles
      ensures Outcome(profiles, r) == LineSetters.SetTrunk(old(profiles), id, trunk, active)
    {
      if !ValidLineId(id) { return Invalid("invalid_line_id"); }
      var i := FindOrInsert(id);
      var incoming := trunk;
      if incoming.secret == "" { incoming := incoming.(secret := profiles[i].trunk.secret); }
      incoming := incoming.(incomingBinding := Trim(incoming.incomingBinding),
          outgoingBinding := Trim(incoming.outgoingBinding));
      var problem := CheckTrunk(profiles[i], incoming, active);
      if problem.Some? { return Invalid(problem.value); }
      var p := profiles[i].(trunk := incoming);
      Store(i, p);
      r := Valid(p);
    }

    // ---- Discovery and migration ----------------------------------------------------------------------

    method EnsureProfiles(ids: seq<string>) returns (added: bool)
      modifies this`profiles
      ensures profiles == EnsuredAll(old(profiles), ids)
      ensures added <==> profiles != old(profiles)
    {
      var k := 0;
      added := false;
      while k < |ids|
        invariant k <= |ids|
        invariant EnsuredAll(profiles, ids[k..]) == EnsuredAll(old(profiles), ids)
        invariant |profiles| >= |old(profiles)| && (!added ==> profiles == old(profiles))
        invariant added ==> |profiles| > |old(profiles)|
      {
        EnsureNext(profiles, ids, k);
        var i := IndexOf(ids[k]);
        if i == |profiles| {
          profiles := profiles + [ForLine(ids[k])];
          added := true;
        }
        k := k + 1;
      }
    }

    // One line alone may take over the global reader setting.
    method TakeReader(ids: seq<string>) returns (taken: bool)
      modifies this`profiles, this`reader
      ensures taken == (TakesReader(old(profiles), ids, old(reader)) && Find(old(profiles), ids[0]) < |old(profiles)|)
      ensures taken ==> reader == None
      ensures taken ==> var i := Find(old(profiles), ids[0]);
                        profiles == old(profiles)[i := WithReader(old(profiles)[i], old(reader).value)]
      ensures !taken ==> profiles == old(profiles) && reader == old(reader)
    {
      taken := false;
      if |ids| == 1 && reader.Some? {
        var i := IndexOf(ids[0]);
        if i < |profiles| && profiles[i].settings.esimReader == DEFAULT_READER {
          profiles := profiles[i := WithReader(profiles[i], reader.value)];
          reader := None;
          taken := true;
        }
      }
    }

    method ReconcileLineProfiles(lineIds: seq<string>) returns (migrated: bool)
      modifies this`profiles, this`reader
      ensures Discovery(profiles, reader, migrated) == Discover(old(profiles), lineIds, old(reader))
    {
      var ids := Dedup(ValidOnly(lineIds), []);
      if ids == [] { return false; }
      var normalized := NormalizeVoicePaths();
      var added := EnsureProfiles(ids);
      var taken := TakeReader(ids);
      profiles := Sort(IdLe, profiles);
      migrated := normalized || added || taken;
    }

    method NormalizeVoicePaths() returns (changed: bool)
      modifies this`profiles
      ensures profiles == VoicedAll(old(profiles))
      ensures changed <==> profiles != old(profiles)
    {
      changed := false;
      var i := 0;
      while i < |profiles|
        invariant i <= |profiles| == |old(profiles)|
        invariant forall k :: 0 <= k < i ==> profiles[k] == Voiced(old(profiles)[k])
        invariant forall k :: i <= k < |profiles| ==> profiles[k] == old(profiles)[k]
        invariant changed <==> exists k :: 0 <= k < i && Voiced(old(profiles)[k]) != old(profiles)[k]
      {
        var normalized := NormalizeVoicePath(profiles[i].voicePath);
        if normalized != profiles[i].voicePath {
          profiles := profiles[i := profiles[i].(voicePath := normalized)];
          changed := true;
        }
        i := i + 1;
      }
    }

    method RewriteAllRules(aliases: set<string>, line: string) returns (changed: bool)
      modifies this`rules
      ensures rules == RewriteRules(old(rules), aliases, line)
      ensures changed <==> rules != old(rules)
    {
      changed := false;
      var i := 0;
      while i < |rules|
        invariant i <= |rules| == |old(rules)|
        invariant forall k :: 0 <= k < i ==> rules[k] == Rewrite(old(rules)[k], aliases, line)
        invariant forall k :: i <= k < |rules| ==> rules[k] == old(rules)[k]
        invariant changed <==> exists k :: 0 <= k < i && Rewrite(old(rules)[k], aliases, line) != old(rules)[k]
      {
        var rewritten := RewriteTargets(rules[i], aliases, line);
        if rewritten != rules[i] {
          rules := rules[i := rewritten];
          changed := true;
        }
        i := i + 1;
      }
    }

    method RetargetLineTasks(aliases: set<string>, line: string) returns (changed: bool)
      requires Trim(line) == line && line !in aliases
      modifies this`tasks
      ensures tasks == RetargetTasks(old(tasks), aliases, line)
      ensures changed <==> tasks != old(tasks)
    {
      changed := false;
      var i := 0;
      while i < |tasks|
        invariant i <= |tasks| == |old(tasks)|
        invariant forall k :: 0 <= k < i ==> tasks[k] == RetargetTask(old(tasks)[k], aliases, line)
        invariant forall k :: i <= k < |tasks| ==> tasks[k] == old(tasks)[k]
        invariant changed <==> exists k :: 0 <= k < i && RetargetTask(old(tasks)[k], aliases, line) != old(tasks)[k]
      {
        if Mentions(tasks[i], aliases) {
          tasks := tasks[i := Some(ModemLine(line))];
          changed := true;
        }
        i := i + 1;
      }
    }

    method MigrateLineProfileAliases(line: string, legacy: seq<string>) returns (r: Checked<bool>)
      modifies this`profiles, this`tasks, this`rules
      ensures if ValidLineId(line) then r.Valid?
          && Migration(Refs(), r.value) == MigrateAliases(old(Refs()), line, legacy)
              else r == Invalid("invalid_line_id") && Refs() == old(Refs())
    {
      if !ValidLineId(line) { return Invalid("invalid_line_id"); }
      AliasesExcludeLine(line, legacy);
      var aliases, changed := Aliases(line, legacy), false;
      var i := IndexOf(line);
      if i == |profiles| {
        var source := FirstAliased(profiles, aliases);
        if source < |profiles| {
          profiles := profiles + [profiles[source].(lineId := line)];
          profiles := Sort(IdLe, profiles);
          changed := true;
        }
      }
      var retargeted := RetargetLineTasks(aliases, line);
      var rewritten := RewriteAllRules(aliases, line);
      r := Valid(changed || retargeted || rewritten);
    }

    method MigrateStandaloneReader(slotId: string, line: string) returns (r: Checked<bool>)
      modifies this`tasks, this`rules
      ensures if Trim(slotId) != "" && ValidLineId(line) then
                r.Valid? && Migration(Refs(), r.value) == MigrateReader(old(Refs()), Trim(slotId), line)
              else r == Invalid("invalid_reader_line_migration") && Refs() == old(Refs())
    {
      var slot := Trim(slotId);
      if slot == "" || !ValidLineId(line) { return Invalid("invalid_reader_line_migration"); }
      var changed, i := false, 0;
      while i < |tasks|
        invariant i <= |tasks| == |old(tasks)| && unchanged(`rules) && unchanged(`profiles)
        invariant forall k :: 0 <= k < i ==> tasks[k] == RetargetReader(old(tasks)[k], slot, line)
        invariant forall k :: i <= k < |tasks| ==> tasks[k] == old(tasks)[k]
        invariant changed <==> exists k :: 0 <= k < i && RetargetReader(old(tasks)[k], slot, line) != old(tasks)[k]
      {
        if Reserves(tasks[i], slot) {
          tasks := tasks[i := Some(ModemLine(line))];
          changed := true;
        }
        i := i + 1;
      }
      assert changed <==> tasks != old(tasks);
      var rewritten := RewriteAllRules({ReaderTarget(slot)}, line);
      r := Valid(changed || rewritten);
    }

    // ---- Runs ---------------------------------------------------------------------------------------

    ghost function Lines(): LineRuns.Lines
      reads this`profiles, this`reader
    {
      LineRuns.Lines(profiles, reader)
    }

    // The calls that the runs are made of take exactly the steps that the results about runs speak of.
    method Perform(step: LineRuns.Step)
      modifies this
      ensures Lines() == LineRuns.Next(old(Lines()), step)
    {
      match step
      case Change(id, u) => Change(id, u);
      case ChangeTrunk(id, t, active) => var r := SetTrunkProfile(id, t, active);
      case Discovered(ids) => var migrated := ReconcileLineProfiles(ids);
      case Moved(line, legacy) => var r := MigrateLineProfileAliases(line, legacy);
    }

    method Change(id: string, u: Update)
      modifies this`profiles
      ensures profiles == Set(old(profiles), id, u).profiles
    {
      var r: Checked<LineProfile>;
      match u
      case SetCellularIms(on) => r := SetCellularIms(id, on);
      case SetVowifi(config) => r := SetVowifi(id, config);
      case SetData(on) => r := SetData(id, on);
      case SetAirplane(on) => r := SetAirplane(id, on);
      case _ => r := UpdateLineProfile(id, u);
    }
  }
}
