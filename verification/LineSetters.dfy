/** The per-line setters as transformers of the stored list. */
module LineSetters {
  import opened Options
  import opened Sorting
  import opened Text
  import opened LineProfiles

  // A value whose own validator has accepted it, or that validator's error.
  datatype Checked<+T> = Valid(value: T) | Invalid(error: string)

  datatype SettingChange =
    | Selection(selection: Checked<string>)
    | DataProxy(dataProxy: Checked<string>)
    | Roaming(allowed: bool)
    | SmsPath(smsPath: string)
    | Apn(apn: string)
    | EsimControl(control: Option<bool>)
    | EsimReader(reader: Checked<string>)

  datatype Update =
    | SetCellularIms(on: bool)
    | SetVowifi(config: Checked<Vowifi>)
    | SetData(on: bool)
    | SetAirplane(on: bool)
    | SetVideo(video: Video)
    | SetVoicePath(policy: VoicePath)
    | SetPreference(preference: Preference)
    | SetSetting(change: SettingChange)

  // The list afterwards, and what the caller gets; only accepted calls go on to save.
  datatype Outcome = Outcome(profiles: seq<LineProfile>, result: Checked<LineProfile>)

  function ErrorOf<T>(c: Checked<T>): Option<string> {
    match c case Valid(_) => None case Invalid(e) => Some(e)
  }

  predicate IsH264(codec: string) {
    var t := Trim(codec);
    |t| == 4 && (t[0] == 'h' || t[0] == 'H') && t[1..] == "264"
  }

  // Refusals that come before the line id is looked at.
  function RefusedFirst(u: Update): Option<string> {
    match u
    case SetVideo(v) =>
      if !IsH264(v.media.codec) then Some("vilte_codec_unsupported")
      else if !(96 <= v.media.payloadType <= 127) then Some("vilte_payload_type_invalid")
      else None
    case SetVoicePath(p) =>
      if HasKind(p.priority, CsPath) then Some("voice_cs_trunk_backend_unavailable")
      else if !p.gatewayMode then Some("voice_gateway_mode_required_on_this_device")
      else None
    case SetPreference(p) => if p != Concurrent then Some("ims_registration_mode_automatic_only") else None
    case SetSetting(Selection(c)) => ErrorOf(c)
    case SetSetting(EsimReader(c)) => ErrorOf(c)
    case _ => None
  }

  // Refusals after a valid line id and before the list is touched.
  function RefusedNext(u: Update): Option<string> {
    match u
    case SetVowifi(c) => ErrorOf(c)
    case SetSetting(DataProxy(c)) => ErrorOf(c)
    case _ => None
  }

  // Refusals that depend on the line, once it certainly has an entry.
  function Guard(p: LineProfile, u: Update): Option<string> {
    match u
    case SetCellularIms(on) => RadioGuard(p, on)
    case SetData(on) => RadioGuard(p, on)
    case SetVowifi(Valid(v)) => if v.enabled && !p.enabled then Some("line_disabled") else None
    case _ => None
  }

  function RadioGuard(p: LineProfile, on: bool): Option<string> {
    if on && !p.enabled then Some("line_disabled")
    else if on && p.airplane then Some("line_airplane_mode_enabled")
    else None
  }

  function Changed(s: Settings, c: SettingChange): Settings {
    match c
    case Selection(Valid(v)) => s.(selection := v)
    case DataProxy(Valid(v)) => s.(dataProxy := v)
    case Roaming(v) => s.(roamingAllowed := v)
    case SmsPath(v) => s.(smsPath := v)
    case Apn(v) => s.(apn := v)
    case EsimControl(v) => s.(esimControl := v)
    case EsimReader(Valid(v)) => s.(esimReader := v)
    case _ => s
  }

  function Apply(p: LineProfile, u: Update): LineProfile {
    match u
    case SetCellularIms(on) => Synced(p.(cellularIms := on))
    case SetVowifi(Valid(v)) => Synced(p.(vowifi := v))
    case SetVowifi(Invalid(_)) => p
    case SetData(on) => p.(data := on)
    case SetAirplane(on) =>
      Synced(if on then p.(airplane := true, data := false, cellularIms := false) else p.(airplane := false))
    case SetVideo(v) => Synced(p.(video := v))
    case SetVoicePath(policy) => p.(voicePath := Normalized(policy))
    case SetPreference(_) => p.(preference := Concurrent)
    case SetSetting(c) => p.(settings := Changed(p.settings, c))
  }

  function Set(profiles: seq<LineProfile>, id: string, u: Update): Outcome {
    if RefusedFirst(u).Some? then Outcome(profiles, Invalid(RefusedFirst(u).value))
    else if !ValidLineId(id) then Outcome(profiles, Invalid("invalid_line_id"))
    else if RefusedNext(u).Some? then Outcome(profiles, Invalid(RefusedNext(u).value))
    else if Guard(Stored(profiles, id), u).Some? then
      Outcome(Ensured(profiles, id), Invalid(Guard(Stored(profiles, id), u).value))
    else
      var next := Apply(Stored(profiles, id), u);
      Outcome(Put(profiles, next), Valid(next))
  }

  // ---- Trunks -----------------------------------------------------------------------------------------

  predicate IsBindingChar(c: char) {
    IsDigit(c) || 'a' <= c <= 'z' || 'A' <= c <= 'Z' || c in "+-_.*#"
  }

  predicate ValidBinding(b: string) {
    forall i :: 0 <= i < |b| ==> IsBindingChar(b[i])
  }

  // An empty secret keeps the stored one; bindings are trimmed.
  function Incoming(stored: Trunk, t: Trunk): Trunk {
    t.(secret := if t.secret == "" then stored.secret else t.secret,
       incomingBinding := Trim(t.incomingBinding), outgoingBinding := Trim(t.outgoingBinding))
  }

  predicate InScope(active: Option<set<string>>, id: string) {
    active.None? || id in active.value
  }

  predicate PortTakenBy(p: LineProfile, id: string, port: U16, active: Option<set<string>>) {
    p.lineId != id && InScope(active, p.lineId) && p.trunk.enabled && p.trunk.localPort == port
  }

  predicate PortTaken(profiles: seq<LineProfile>, id: string, port: U16, active: Option<set<string>>) {
    exists i :: 0 <= i < |profiles| && PortTakenBy(profiles[i], id, port, active)
  }

  function TrunkProblem(profiles: seq<LineProfile>, p: LineProfile, t: Trunk,
      active: Option<set<string>>): Option<string> {
    if !ValidBinding(t.incomingBinding) then Some("trunk_incoming_binding_invalid")
    else if !ValidBinding(t.outgoingBinding) then Some("trunk_outgoing_binding_invalid")
    else if !t.enabled then None
    else if !p.enabled then Some("line_disabled")
    else if Trim(t.host) == "" then Some("trunk_asterisk_host_required")
    else if t.outboundRegister && Trim(t.username) == "" then Some("trunk_username_required")
    else if t.outboundRegister && !(60 <= t.registerExpiry <= 86_400) then Some("trunk_register_expiry_invalid")
    else if t.localPort == 0 then Some("trunk_local_port_required")
    else if PortTaken(profiles, p.lineId, t.localPort, active) then Some("trunk_local_port_in_use")
    else None
  }

  function SetTrunk(profiles: seq<LineProfile>, id: string, t: Trunk, active: Option<set<string>>): Outcome {
    if !ValidLineId(id) then Outcome(profiles, Invalid("invalid_line_id"))
    else
      var stored, all := Stored(profiles, id), Ensured(profiles, id);
      var incoming := Incoming(stored.trunk, t);
      var problem := TrunkProblem(all, stored, incoming, active);
      if problem.Some? then Outcome(all, Invalid(problem.value))
      else
        var next := stored.(trunk := incoming);
        Outcome(Put(profiles, next), Valid(next))
  }

  // ---- The list refines a total map ----------------------------------------------------------------------

  // An accepted call updates the map at one line; a refused one leaves every line as it was.
  ghost predicate ActsAtOneLine(profiles: seq<LineProfile>, id: string, o: Outcome) {
    && UniqueIds(o.profiles)
    && (o.result.Valid? ==>
          && SortedBy(IdLe, o.profiles) && o.result.value.lineId == id
          && (forall k :: Stored(o.profiles, k) == if k == id then o.result.value else Stored(profiles, k)))
    && (o.result.Invalid? ==> forall k :: Stored(o.profiles, k) == Stored(profiles, k))
  }

  lemma SetShape(profiles: seq<LineProfile>, id: string, u: Update)
    ensures var o := Set(profiles, id, u);
            if o.result.Valid? then o.result.value.lineId == id && o.profiles == Put(profiles, o.result.value)
            else o.profiles == profiles || o.profiles == Ensured(profiles, id)
  {
  }

  lemma SetRefinesMap(profiles: seq<LineProfile>, id: string, u: Update)
    requires UniqueIds(profiles)
    ensures ActsAtOneLine(profiles, id, Set(profiles, id, u))
  {
    var o := Set(profiles, id, u);
    SetShape(profiles, id, u);
    EnsuredRefines(profiles, id);
    if o.result.Valid? { PutRefines(profiles, o.result.value); }
  }

  lemma SetTrunkRefinesMap(profiles: seq<LineProfile>, id: string, t: Trunk, active: Option<set<string>>)
    requires UniqueIds(profiles)
    ensures ActsAtOneLine(profiles, id, SetTrunk(profiles, id, t, active))
  {
    var o := SetTrunk(profiles, id, t, active);
    EnsuredRefines(profiles, id);
    if o.result.Valid? { PutRefines(profiles, o.result.value); }
  }

  // Reads see the map too: other lines' profiles are untouched by any call.
  lemma OtherLinesUntouched(profiles: seq<LineProfile>, id: string, u: Update, other: string)
    requires UniqueIds(profiles) && other != id
    ensures GetLineProfile(Set(profiles, id, u).profiles, other) == GetLineProfile(profiles, other)
  {
    SetRefinesMap(profiles, id, u);
  }

  // A refused trunk update leaves a new line's defaults behind, at the end and out of order,
  // in memory only, and yet no reader can tell.
  lemma RefusedTrunkLeavesDefault(profiles: seq<LineProfile>, id: string, t: Trunk, active: Option<set<string>>)
    requires UniqueIds(profiles) && SetTrunk(profiles, id, t, active).result.Invalid?
    ensures SetTrunk(profiles, id, t, active).profiles ==
              if ValidLineId(id) && Find(profiles, id) == |profiles| then profiles + [ForLine(id)] else profiles
    ensures forall k :: GetLineProfile(SetTrunk(profiles, id, t, active).profiles, k) == GetLineProfile(profiles, k)
  {
    SetTrunkRefinesMap(profiles, id, t, active);
  }

  // ---- Ports ------------------------------------------------------------------------------------------------

  // The scan over the list decides a question about the map.
  lemma PortTakenOnMap(profiles: seq<LineProfile>, id: string, port: U16, active: Option<set<string>>)
    requires UniqueIds(profiles)
    ensures PortTaken(profiles, id, port, active) <==> exists k :: PortTakenBy(Stored(profiles, k), id, port, active)
  {
    if PortTaken(profiles, id, port, active) {
      var i :| 0 <= i < |profiles| && PortTakenBy(profiles[i], id, port, active);
      OneEntry(profiles, i, Find(profiles, profiles[i].lineId));
      assert PortTakenBy(Stored(profiles, profiles[i].lineId), id, port, active);
    }
    if exists k :: PortTakenBy(Stored(profiles, k), id, port, active) {
      var k :| PortTakenBy(Stored(profiles, k), id, port, active);
      assert PortTakenBy(profiles[Find(profiles, k)], id, port, active);
    }
  }

  lemma AcceptedTrunkPassed(profiles: seq<LineProfile>, id: string, t: Trunk, active: Option<set<string>>)
    requires SetTrunk(profiles, id, t, active).result.Valid? && t.enabled
    ensures t.localPort != 0 && !PortTaken(Ensured(profiles, id), id, t.localPort, active)
    ensures var p := SetTrunk(profiles, id, t, active).result.value; p.trunk.enabled && p.trunk.localPort == t.localPort
  {
  }

  // An accepted trunk that is switched on has a port of its own among the lines in scope.
  lemma AcceptedPortIsFree(profiles: seq<LineProfile>, id: string, t: Trunk, active: Option<set<string>>)
    requires UniqueIds(profiles) && SetTrunk(profiles, id, t, active).result.Valid? && t.enabled
    ensures var after := SetTrunk(profiles, id, t, active).profiles;
            && Stored(after, id).trunk.enabled && Stored(after, id).trunk.localPort == t.localPort != 0
            && forall k :: k != id && InScope(active, k) && Stored(after, k).trunk.enabled ==>
                 Stored(after, k).trunk.localPort != t.localPort
  {
    AcceptedTrunkPassed(profiles, id, t, active);
    SetTrunkRefinesMap(profiles, id, t, active);
    EnsuredRefines(profiles, id);
    PortTakenOnMap(Ensured(profiles, id), id, t.localPort, active);
    var after := SetTrunk(profiles, id, t, active).profiles;
    forall k | k != id && InScope(active, k) && Stored(after, k).trunk.enabled
      ensures Stored(after, k).trunk.localPort != t.localPort
    {
      assert !PortTakenBy(Stored(Ensured(profiles, id), k), id, t.localPort, active);
    }
  }

  // What a trunk must be to be accepted: its texts well formed and, when it is switched on, an
  // enabled line, somewhere to connect, credentials to register with, and a port of its own.
  ghost predicate Usable(profiles: seq<LineProfile>, id: string, t: Trunk, active: Option<set<string>>) {
    && ValidBinding(Trim(t.incomingBinding)) && ValidBinding(Trim(t.outgoingBinding))
    && (t.enabled ==>
          && Stored(profiles, id).enabled && Trim(t.host) != "" && t.localPort != 0
          && (t.outboundRegister ==> Trim(t.username) != "" && 60 <= t.registerExpiry <= 86_400)
          && !exists k :: PortTakenBy(Stored(profiles, k), id, t.localPort, active))
  }

  // Accepted exactly when usable; an empty secret then means the stored one.
  lemma TrunkAcceptedExactly(profiles: seq<LineProfile>, id: string, t: Trunk, active: Option<set<string>>)
    requires UniqueIds(profiles)
    ensures var r := SetTrunk(profiles, id, t, active).result;
            && (r.Valid? <==> ValidLineId(id) && Usable(profiles, id, t, active))
            && (r.Valid? ==>
                  r.value.trunk.secret == if t.secret == "" then Stored(profiles, id).trunk.secret else t.secret)
  {
    PortScanIsOnMap(profiles, id, t.localPort, active);
    AcceptedIsUnproblematic(profiles, id, t, active);
  }

  // The scan runs after the line has been given its entry, which takes no port.
  lemma PortScanIsOnMap(profiles: seq<LineProfile>, id: string, port: U16, active: Option<set<string>>)
    requires UniqueIds(profiles)
    ensures PortTaken(Ensured(profiles, id), id, port, active) <==>
              exists k :: PortTakenBy(Stored(profiles, k), id, port, active)
  {
    var all := Ensured(profiles, id);
    EnsuredRefines(profiles, id);
    PortTakenOnMap(all, id, port, active);
    forall k
      ensures PortTakenBy(Stored(all, k), id, port, active) == PortTakenBy(Stored(profiles, k), id, port, active)
    {
    }
  }

  lemma AcceptedIsUnproblematic(profiles: seq<LineProfile>, id: string, t: Trunk, active: Option<set<string>>)
    ensures var p, r := Stored(profiles, id), SetTrunk(profiles, id, t, active).result;
            && (r.Valid? <==>
                  ValidLineId(id) && TrunkProblem(Ensured(profiles, id), p, Incoming(p.trunk, t), active).None?)
            && (r.Valid? ==> r.value.trunk.secret == if t.secret == "" then p.trunk.secret else t.secret)
  {
  }

  // A radio intent is accepted exactly when it is off, or the line is enabled and not in airplane mode.
  lemma RadioAcceptedExactly(profiles: seq<LineProfile>, id: string, on: bool)
    ensures var p := Stored(profiles, id);
            var accepted := ValidLineId(id) && (on ==> p.enabled && !p.airplane);
            && (Set(profiles, id, SetCellularIms(on)).result.Valid? <==> accepted)
            && (Set(profiles, id, SetData(on)).result.Valid? <==> accepted)
            && (accepted ==> Set(profiles, id, SetData(on)).result == Valid(p.(data := on)))
            && (accepted ==> Set(profiles, id, SetCellularIms(on)).result.value.cellularIms == on)
  {
  }
}
