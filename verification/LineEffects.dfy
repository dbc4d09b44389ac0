/** What each change to a line does, to the line and to what refers to it. */
module LineEffects {
  import opened Options
  import opened Sorting
  import opened Text
  import opened LineProfiles
  import opened LineSetters
  import opened LineReferences
  import opened LineDiscovery

  // ---- Names ----------------------------------------------------------------------------------------

  const HEX_DIGITS := "0123456789abcdefABCDEF"
  const DIGITS := "0123456789"
  const SMALL := "abcdefghijklmnopqrstuvwxyz"
  const CAPITAL := "ABCDEFGHIJKLMNOPQRSTUVWXYZ"

  // A line id is `line-` and 32 hexadecimal digits; a binding is made of letters, digits and six marks.
  lemma NamesExactly(s: string)
    ensures ValidLineId(s) <==> |s| == 37 && s == "line-" + s[5..] && forall i :: 5 <= i < |s| ==> s[i] in HEX_DIGITS
    ensures ValidBinding(s) <==> forall i :: 0 <= i < |s| ==> IsOneOf(s[i])
  {
    if |s| == 37 { assert s == s[..5] + s[5..]; }
    forall c: char ensures c in HEX_DIGITS <==> IsHexDigit(c) {
      HexDigitsAre(c);
    }
    forall c: char ensures IsOneOf(c) <==> IsBindingChar(c) {
      BindingCharsAre(c);
    }
  }

  lemma HexDigitsAre(c: char)
    ensures c in HEX_DIGITS <==> IsHexDigit(c)
  {
  }

  predicate IsOneOf(c: char) {
    c in DIGITS || c in SMALL || c in CAPITAL || c in "+-_.*#"
  }

  lemma BindingCharsAre(c: char)
    ensures IsOneOf(c) <==> IsBindingChar(c)
  {
    DigitsAre(c);
    SmallAre(c);
    CapitalsAre(c);
  }

  lemma DigitsAre(c: char)
    ensures c in DIGITS <==> '0' <= c <= '9'
  {
  }

  lemma SmallAre(c: char)
    ensures c in SMALL <==> 'a' <= c <= 'z'
  {
    if 'a' <= c <= 'z' { assert SMALL[c as int - 'a' as int] == c; }
  }

  lemma CapitalsAre(c: char)
    ensures c in CAPITAL <==> 'A' <= c <= 'Z'
  {
    if 'A' <= c <= 'Z' { assert CAPITAL[c as int - 'A' as int] == c; }
  }

  // ---- Voice path order ---------------------------------------------------------------------------

  // Where a kind is first mentioned, or the length.
  function Mention(layers: seq<Layer>, kind: AccessPath): (i: nat)
    ensures i <= |layers| && (i < |layers| ==> layers[i].kind == kind)
    ensures forall j :: 0 <= j < i ==> layers[j].kind != kind
  {
    if layers == [] || layers[0].kind == kind then 0 else 1 + Mention(layers[1..], kind)
  }

  function SwitchOf(layers: seq<Layer>, kind: AccessPath): Layer {
    if Mention(layers, kind) < |layers| then layers[Mention(layers, kind)] else Layer(kind, true)
  }

  lemma {:induction false} FirstImsHead(layers: seq<Layer>, i: nat)
    requires i < |layers| && layers[i].kind.IsIms() && forall j :: 0 <= j < i ==> !layers[j].kind.IsIms()
    ensures FirstIms(layers, []) != [] && FirstIms(layers, [])[0] == layers[i]
  {
    if i > 0 {
      assert forall j :: 0 <= j < i - 1 ==> layers[1..][j] == layers[j + 1];
      FirstImsHead(layers[1..], i - 1);
    }
  }

  // The two kinds in the order of their first mentions, each with the switch it has there; a kind
  // that is not mentioned comes last, switched on, VoWiFi before cellular.
  lemma NormalizedExactly(p: VoicePath)
    ensures var v, c := Mention(p.priority, VowifiPath), Mention(p.priority, CellularImsPath);
            Normalized(p) ==
            p.(priority := if c < v then [SwitchOf(p.priority, CellularImsPath), SwitchOf(p.priority, VowifiPath)]
                           else [SwitchOf(p.priority, VowifiPath), SwitchOf(p.priority, CellularImsPath)])
  {
    var layers, r := p.priority, Normalized(p).priority;
    var v, c := Mention(layers, VowifiPath), Mention(layers, CellularImsPath);
    var kept := FirstIms(layers, []);
    NormalizedIsNormal(p);
    FirstImsShape(layers, []);
    if v < |layers| { FirstMentionWins(layers, [], v); }
    if c < |layers| { FirstMentionWins(layers, [], c); }
    if v < |layers| || c < |layers| {
      FirstImsHead(layers, if c < v then c else v);
    }
    assert kept <= r;
    assert SwitchOf(layers, VowifiPath) in r && SwitchOf(layers, CellularImsPath) in r;
    assert r == [r[0], r[1]];
  }

  // ---- What an accepted setter does ---------------------------------------------------------------

  // The video flags mirror the access legs, and the media parameters are as before.
  predicate Mirrored(p: LineProfile, q: LineProfile) {
    q.video == Video(q.cellularIms, q.vowifi.enabled, p.video.media)
  }

  // `q` is the line after the change, `p` before: the field has its new value, and everything else
  // but the mirrors the old one.
  predicate Does(u: Update, p: LineProfile, q: LineProfile) {
    match u
    case SetCellularIms(on) =>
      q.cellularIms == on && Mirrored(p, q) && q.(cellularIms := p.cellularIms, video := p.video) == p
    case SetVowifi(Valid(v)) =>
      q.vowifi == v && Mirrored(p, q) && q.(vowifi := p.vowifi, video := p.video) == p
    case SetVowifi(Invalid(_)) => false
    case SetData(on) => q.data == on && q.(data := p.data) == p
    case SetAirplane(on) =>
      && q.airplane == on && Mirrored(p, q)
      && (if on then !q.data && !q.cellularIms else q.data == p.data && q.cellularIms == p.cellularIms)
      && q.(airplane := p.airplane, data := p.data, cellularIms := p.cellularIms, video := p.video) == p
    case SetVideo(v) =>
      q.video == Video(q.cellularIms, q.vowifi.enabled, v.media) && q.(video := p.video) == p
    case SetVoicePath(policy) =>
      && q.voicePath.gatewayMode == policy.gatewayMode && IsNormal(q.voicePath)
      && (IsNormal(policy) ==> q.voicePath == policy) && q.voicePath == Normalized(policy)
      && q.(voicePath := p.voicePath) == p
    case SetPreference(_) => q.preference == Concurrent && q.(preference := p.preference) == p
    case SetSetting(c) => SettingDoes(c, p.settings, q.settings) && q.(settings := p.settings) == p
  }

  predicate SettingDoes(c: SettingChange, s: Settings, r: Settings) {
    match c
    case Selection(Valid(v)) => r.selection == v && r.(selection := s.selection) == s
    case DataProxy(Valid(v)) => r.dataProxy == v && r.(dataProxy := s.dataProxy) == s
    case Roaming(v) => r.roamingAllowed == v && r.(roamingAllowed := s.roamingAllowed) == s
    case SmsPath(v) => r.smsPath == v && r.(smsPath := s.smsPath) == s
    case Apn(v) => r.apn == v && r.(apn := s.apn) == s
    case EsimControl(v) => r.esimControl == v && r.(esimControl := s.esimControl) == s
    case EsimReader(Valid(v)) => r.esimReader == v && r.(esimReader := s.esimReader) == s
    case _ => false
  }

  lemma AppliedDoes(p: LineProfile, u: Update)
    requires u.SetVowifi? ==> u.config.Valid?
    requires u.SetSetting? ==> RefusedFirst(u).None? && RefusedNext(u).None?
    ensures Does(u, p, Apply(p, u))
  {
    if u.SetVoicePath? { NormalizedIsNormal(u.policy); }
  }

  // Whatever a setter that is accepted was asked for, the stored line now has, and nothing else about
  // it has changed.
  lemma SettersDo(profiles: seq<LineProfile>, id: string, u: Update)
    requires UniqueIds(profiles) && Set(profiles, id, u).result.Valid?
    ensures Does(u, Stored(profiles, id), Stored(Set(profiles, id, u).profiles, id))
    ensures Stored(Set(profiles, id, u).profiles, id) == Set(profiles, id, u).result.value
  {
    SetRefinesMap(profiles, id, u);
    AppliedDoes(Stored(profiles, id), u);
  }

  // Airplane mode is accepted for every valid line, and ends as asked for.
  lemma AirplaneIsSet(profiles: seq<LineProfile>, id: string, on: bool)
    requires UniqueIds(profiles) && ValidLineId(id)
    ensures var o := Set(profiles, id, SetAirplane(on));
            o.result.Valid? && Does(SetAirplane(on), Stored(profiles, id), Stored(o.profiles, id))
  {
    SettersDo(profiles, id, SetAirplane(on));
  }

  // Reading a line shows the mirrors and the one preference there is, and is the stored line otherwise.
  lemma ReadsMirrored(profiles: seq<LineProfile>, id: string)
    ensures var p, q := Stored(profiles, id), GetLineProfile(profiles, id);
            Mirrored(p, q) && q.preference == Concurrent && q.(video := p.video, preference := p.preference) == p
  {
  }

  // A line nobody has set yet is enabled, with every connection off.
  lemma NewLineIsOff(profiles: seq<LineProfile>, id: string)
    requires Find(profiles, id) == |profiles|
    ensures var p := Stored(profiles, id);
            && p.enabled && !p.airplane && !p.data && !p.cellularIms && !p.vowifi.enabled && !p.trunk.enabled
            && Mirrored(p, p) && IsNormal(p.voicePath) && p.preference == Concurrent
  {
  }

  // ---- Why a setter is refused ----------------------------------------------------------------------

  // A reason against the call, and whether it applies.
  datatype Reason = Reason(applies: bool, error: string)

  const NO_REASON := Reason(false, "")

  function FirstOf(a: Reason, b: Reason, c: Reason): Option<string> {
    if a.applies then Some(a.error) else if b.applies then Some(b.error) else if c.applies then Some(c.error) else None
  }

  function BadId(id: string): Reason {
    Reason(!ValidLineId(id), "invalid_line_id")
  }

  function BadValue<T>(c: Checked<T>): Reason {
    Reason(c.Invalid?, if c.Invalid? then c.error else "")
  }

  function RadioReason(p: LineProfile, id: string, on: bool): Option<string> {
    FirstOf(BadId(id), Reason(on && !p.enabled, "line_disabled"),
            Reason(on && p.airplane, "line_airplane_mode_enabled"))
  }

  // The first reason against a call on the line `p`, in the order in which they are looked at.
  function ReasonAgainst(p: LineProfile, id: string, u: Update): Option<string> {
    match u
    case SetCellularIms(on) => RadioReason(p, id, on)
    case SetData(on) => RadioReason(p, id, on)
    case SetVowifi(c) =>
      FirstOf(BadId(id), BadValue(c), Reason(c.Valid? && c.value.enabled && !p.enabled, "line_disabled"))
    case SetAirplane(_) => FirstOf(BadId(id), NO_REASON, NO_REASON)
    case SetVideo(v) =>
      FirstOf(Reason(Trim(v.media.codec) != "h264" && Trim(v.media.codec) != "H264", "vilte_codec_unsupported"),
              Reason(v.media.payloadType < 96 || v.media.payloadType > 127, "vilte_payload_type_invalid"), BadId(id))
    case SetVoicePath(policy) =>
      FirstOf(Reason(exists i :: 0 <= i < |policy.priority| && policy.priority[i].kind == CsPath,
                     "voice_cs_trunk_backend_unavailable"),
              Reason(!policy.gatewayMode, "voice_gateway_mode_required_on_this_device"), BadId(id))
    case SetPreference(preference) =>
      FirstOf(Reason(preference.Single?, "ims_registration_mode_automatic_only"), BadId(id), NO_REASON)
    case SetSetting(Selection(c)) => FirstOf(BadValue(c), BadId(id), NO_REASON)
    case SetSetting(EsimReader(c)) => FirstOf(BadValue(c), BadId(id), NO_REASON)
    case SetSetting(DataProxy(c)) => FirstOf(BadId(id), BadValue(c), NO_REASON)
    case SetSetting(_) => FirstOf(BadId(id), NO_REASON, NO_REASON)
  }

  lemma H264Exactly(codec: string)
    ensures IsH264(codec) <==> Trim(codec) == "h264" || Trim(codec) == "H264"
  {
    var t := Trim(codec);
    if IsH264(codec) { assert t == [t[0]] + "264"; }
    assert "h264"[1..] == "264" && "H264"[1..] == "264";
  }

  // The checks of `Set` on the line `p`, in their order.
  function Refusal(p: LineProfile, id: string, u: Update): Option<string> {
    if RefusedFirst(u).Some? then RefusedFirst(u)
    else if !ValidLineId(id) then Some("invalid_line_id")
    else if RefusedNext(u).Some? then RefusedNext(u)
    else Guard(p, u)
  }

  lemma RefusalHasReason(p: LineProfile, id: string, u: Update)
    ensures Refusal(p, id, u) == ReasonAgainst(p, id, u)
  {
    match u
    case SetVideo(v) => H264Exactly(v.media.codec);
    case _ =>
  }

  lemma SetRefuses(profiles: seq<LineProfile>, id: string, u: Update)
    ensures var r := Set(profiles, id, u).result;
            Refusal(Stored(profiles, id), id, u) == if r.Invalid? then Some(r.error) else None
  {
  }

  // A call is refused exactly when some reason applies, with the first that does.
  lemma RefusedExactly(profiles: seq<LineProfile>, id: string, u: Update)
    ensures var r := Set(profiles, id, u).result;
            ReasonAgainst(Stored(profiles, id), id, u) == if r.Invalid? then Some(r.error) else None
  {
    RefusalHasReason(Stored(profiles, id), id, u);
    SetRefuses(profiles, id, u);
  }

  // ---- Trunks -------------------------------------------------------------------------------------

  // An accepted trunk is stored as it was given, with each binding trimmed and an empty secret
  // replaced by the stored one.
  lemma TrunkIsStored(profiles: seq<LineProfile>, id: string, t: Trunk, active: Option<set<string>>)
    requires UniqueIds(profiles) && SetTrunk(profiles, id, t, active).result.Valid?
    ensures var p, q := Stored(profiles, id), Stored(SetTrunk(profiles, id, t, active).profiles, id);
            && q.trunk.incomingBinding == Trim(t.incomingBinding) && q.trunk.outgoingBinding == Trim(t.outgoingBinding)
            && q.trunk.secret == (if t.secret == "" then p.trunk.secret else t.secret)
            && q.trunk.(secret := t.secret, incomingBinding := t.incomingBinding,
                        outgoingBinding := t.outgoingBinding) == t
            && q.(trunk := p.trunk) == p
  {
    SetTrunkRefinesMap(profiles, id, t, active);
  }

  // The first reason against a trunk, in the order in which they are looked at, on the map.
  ghost function ReasonAgainstTrunk(profiles: seq<LineProfile>, id: string, t: Trunk,
                                    active: Option<set<string>>): Option<string> {
    if !ValidLineId(id) then Some("invalid_line_id")
    else if !ValidBinding(Trim(t.incomingBinding)) then Some("trunk_incoming_binding_invalid")
    else if !ValidBinding(Trim(t.outgoingBinding)) then Some("trunk_outgoing_binding_invalid")
    else if !t.enabled then None
    else if !Stored(profiles, id).enabled then Some("line_disabled")
    else if Trim(t.host) == "" then Some("trunk_asterisk_host_required")
    else if t.outboundRegister && Trim(t.username) == "" then Some("trunk_username_required")
    else if t.outboundRegister && (t.registerExpiry < 60 || t.registerExpiry > 86_400) then
      Some("trunk_register_expiry_invalid")
    else if t.localPort == 0 then Some("trunk_local_port_required")
    else if exists k :: PortTakenBy(Stored(profiles, k), id, t.localPort, active) then Some("trunk_local_port_in_use")
    else None
  }

  lemma TrunkRefusedExactly(profiles: seq<LineProfile>, id: string, t: Trunk, active: Option<set<string>>)
    requires UniqueIds(profiles)
    ensures var r := SetTrunk(profiles, id, t, active).result;
            ReasonAgainstTrunk(profiles, id, t, active) == if r.Invalid? then Some(r.error) else None
  {
    TrunkAnswer(profiles, id, t, active);
    PortScanIsOnMap(profiles, id, t.localPort, active);
  }

  lemma TrunkAnswer(profiles: seq<LineProfile>, id: string, t: Trunk, active: Option<set<string>>)
    ensures var p, r := Stored(profiles, id), SetTrunk(profiles, id, t, active).result;
            (if !ValidLineId(id) then Some("invalid_line_id")
             else TrunkProblem(Ensured(profiles, id), p, Incoming(p.trunk, t), active)) ==
            if r.Invalid? then Some(r.error) else None
  {
  }

  // ---- References ---------------------------------------------------------------------------------

  // `x` stands at `k`, and `y` nowhere up to it.
  predicate ComesFirst(xs: seq<string>, k: nat, x: string, y: string) {
    k < |xs| && xs[k] == x && forall l :: 0 <= l <= k ==> xs[l] != y
  }

  lemma ComesFirstLater(head: string, rest: seq<string>, k: nat, x: string, y: string)
    requires ComesFirst(rest, k, x, y) && head != y
    ensures ComesFirst([head] + rest, k + 1, x, y)
  {
    forall l | 0 <= l <= k + 1 ensures ([head] + rest)[l] != y {
      if l > 0 { assert ([head] + rest)[l] == rest[l - 1]; }
    }
  }

  lemma {:induction false} DedupOrder(xs: seq<string>, seen: seq<string>, i: nat, j: nat) returns (k: nat)
    requires i < j < |Dedup(xs, seen)|
    ensures ComesFirst(xs, k, Dedup(xs, seen)[i], Dedup(xs, seen)[j])
  {
    var head, rest, r := xs[0], xs[1..], Dedup(xs, seen);
    assert xs == [head] + rest;
    if head in seen {
      k := DedupOrder(rest, seen, i, j);
      DedupMembers(rest, seen);
      assert r[j] in Dedup(rest, seen);
      ComesFirstLater(head, rest, k, r[i], r[j]);
      k := k + 1;
    } else {
      var more := Dedup(rest, seen + [head]);
      DedupMembers(rest, seen + [head]);
      assert r[j] == more[j - 1] && more[j - 1] in more;
      if i == 0 {
        k := 0;
      } else {
        k := DedupOrder(rest, seen + [head], i - 1, j - 1);
        ComesFirstLater(head, rest, k, r[i], r[j]);
        k := k + 1;
      }
    }
  }

  // One rule's targets after a rename: each target that is left, and the new one in place of those
  // that went, without repeats, in the order in which they are first mentioned.
  ghost predicate RuleMoved(before: seq<string>, after: seq<string>, gone: set<string>, line: string) {
    && (forall x :: x in after <==>
          (x in before && Trim(x) !in gone) || (x == line && exists t :: t in before && Trim(t) in gone))
    && (forall i, j :: 0 <= i < j < |after| ==>
          after[i] != after[j] && MentionedFirst(before, after[i], after[j], gone, line))
  }

  ghost predicate MentionedFirst(before: seq<string>, x: string, y: string, gone: set<string>, line: string) {
    exists k :: 0 <= k < |before| && x == (if Trim(before[k]) in gone then line else before[k])
      && forall l :: 0 <= l <= k ==> y != if Trim(before[l]) in gone then line else before[l]
  }

  lemma RewriteMoves(targets: seq<string>, gone: set<string>, line: string)
    ensures RuleMoved(targets, Rewrite(targets, gone, line), gone, line)
  {
    var renamed, after := RenamedAll(targets, gone, line), Rewrite(targets, gone, line);
    DedupMembers(renamed, []);
    RenamedMembers(targets, gone, line);
    forall i, j | 0 <= i < j < |after|
      ensures after[i] != after[j] && MentionedFirst(targets, after[i], after[j], gone, line)
    {
      var k := DedupOrder(renamed, [], i, j);
      assert renamed[k] == Renamed(targets[k], gone, line);
      assert forall l :: 0 <= l <= k ==> renamed[l] == Renamed(targets[l], gone, line);
    }
  }

  // An older id of the line: named in the report, well formed, and not the line's own.
  predicate IsAlias(x: string, line: string, legacy: seq<string>) {
    ValidLineId(x) && x != line && exists i :: 0 <= i < |legacy| && Trim(legacy[i]) == x
  }

  lemma AliasesExactly(line: string, legacy: seq<string>)
    ensures forall x :: x in Aliases(line, legacy) <==> IsAlias(x, line, legacy)
  {
  }

  // Every task and rule that names an older id of the line names the line afterwards, and no other
  // target changes.
  lemma MigrationMoves(refs: References, line: string, legacy: seq<string>) returns (gone: set<string>)
    requires ValidLineId(line)
    ensures forall x :: x in gone <==> IsAlias(x, line, legacy)
    ensures var after := MigrateAliases(refs, line, legacy).refs;
            && |after.tasks| == |refs.tasks| && |after.rules| == |refs.rules|
            && (forall i :: 0 <= i < |refs.tasks| ==>
                  after.tasks[i] ==
                  if refs.tasks[i].Some? && refs.tasks[i].value.ModemLine? && Trim(refs.tasks[i].value.lineId) in gone
                  then Some(ModemLine(line)) else refs.tasks[i])
            && (forall i :: 0 <= i < |refs.rules| ==> RuleMoved(refs.rules[i], after.rules[i], gone, line))
  {
    gone := Aliases(line, legacy);
    AliasesExactly(line, legacy);
    forall i | 0 <= i < |refs.rules|
      ensures RuleMoved(refs.rules[i], MigrateAliases(refs, line, legacy).refs.rules[i], gone, line)
    {
      RewriteMoves(refs.rules[i], gone, line);
    }
  }

  // A line without settings of its own takes over those of the first stored line with an older id of
  // it; nothing else about the stored lines changes.
  lemma MigrationInherits(refs: References, line: string, legacy: seq<string>) returns (gone: set<string>)
    requires UniqueIds(refs.profiles)
    ensures forall x :: x in gone <==> IsAlias(x, line, legacy)
    ensures TakesOver(refs.profiles, MigrateAliases(refs, line, legacy).refs.profiles, gone, line)
  {
    gone := Aliases(line, legacy);
    AliasesExactly(line, legacy);
    InheritsExactly(refs.profiles, gone, line);
    if Inherits(refs.profiles, gone, line) { InheritedMoves(refs.profiles, gone, line); }
  }

  // The line takes over the settings of the first of the `gone`, unless it has its own or there is none.
  ghost predicate TakesOver(before: seq<LineProfile>, after: seq<LineProfile>, gone: set<string>, line: string) {
    && (forall k :: k != line ==> Stored(after, k) == Stored(before, k))
    && ((exists j :: 0 <= j < |before| && before[j].lineId == line) ==> after == before)
    && ((forall j :: 0 <= j < |before| ==> before[j].lineId !in gone) ==> after == before)
    && (forall i :: 0 <= i < |before| && before[i].lineId in gone
                    && (forall j :: 0 <= j < i ==> before[j].lineId !in gone)
                    && (forall j :: 0 <= j < |before| ==> before[j].lineId != line) ==>
          Stored(after, line) == before[i].(lineId := line))
  }

  lemma InheritsExactly(profiles: seq<LineProfile>, aliases: set<string>, line: string)
    ensures Inherits(profiles, aliases, line) <==>
              && (forall j :: 0 <= j < |profiles| ==> profiles[j].lineId != line)
              && (exists j :: 0 <= j < |profiles| && profiles[j].lineId in aliases)
  {
  }

  lemma InheritedMoves(profiles: seq<LineProfile>, aliases: set<string>, line: string)
    requires UniqueIds(profiles) && Inherits(profiles, aliases, line)
    ensures var after, source := Inherited(profiles, aliases, line), profiles[FirstAliased(profiles, aliases)];
            forall k :: Stored(after, k) == if k == line then source.(lineId := line) else Stored(profiles, k)
  {
    var copy := profiles[FirstAliased(profiles, aliases)].(lineId := line);
    SortRefines(profiles + [copy]);
    forall k ensures Stored(profiles + [copy], k) == if k == line then copy else Stored(profiles, k) {
      FindAppended(profiles, copy, k);
    }
  }

  // Every task and rule that names the reader names the line afterwards, and no other target changes.
  lemma ReaderMigrationMoves(refs: References, slot: string, line: string)
    ensures var after := MigrateReader(refs, slot, line).refs;
            && |after.tasks| == |refs.tasks| && |after.rules| == |refs.rules| && after.profiles == refs.profiles
            && (forall i :: 0 <= i < |refs.tasks| ==>
                  after.tasks[i] ==
                  if refs.tasks[i].Some? && refs.tasks[i].value.StandaloneSimSlot?
                     && Trim(refs.tasks[i].value.slotId) == slot
                  then Some(ModemLine(line)) else refs.tasks[i])
            && (forall i :: 0 <= i < |refs.rules| ==>
                  RuleMoved(refs.rules[i], after.rules[i], {"reader:" + slot}, line))
  {
    forall i | 0 <= i < |refs.rules|
      ensures RuleMoved(refs.rules[i], MigrateReader(refs, slot, line).refs.rules[i], {"reader:" + slot}, line)
    {
      RewriteMoves(refs.rules[i], {ReaderTarget(slot)}, line);
    }
  }

  // ---- Discovery -----------------------------------------------------------------------------------

  // The one valid line that was discovered.
  predicate Sole(lineIds: seq<string>, k: string) {
    k in lineIds && ValidLineId(k) && forall id :: id in lineIds && ValidLineId(id) ==> id == k
  }

  lemma AtMostOnce(xs: seq<string>, k: string)
    requires k in Dedup(xs, []) && forall i :: 0 <= i < |Dedup(xs, [])| ==> Dedup(xs, [])[i] == k
    ensures Dedup(xs, []) == [k]
  {
    var ids := Dedup(xs, []);
    if |ids| > 1 {
      var at := DedupOrder(xs, [], 0, 1);
      assert false;
    }
  }

  lemma SoleIsOnly(lineIds: seq<string>, k: string)
    ensures Sole(lineIds, k) <==> Dedup(ValidOnly(lineIds), []) == [k]
  {
    var ids := Dedup(ValidOnly(lineIds), []);
    ValidOnlyMembers(lineIds);
    DedupMembers(ValidOnly(lineIds), []);
    if Sole(lineIds, k) {
      assert k in ids;
      forall i | 0 <= i < |ids| ensures ids[i] == k { assert ids[i] in ids; }
      AtMostOnce(ValidOnly(lineIds), k);
    }
    if ids == [k] { assert k in ids; }
  }

  predicate OnlyVoiceAndReader(p: LineProfile, q: LineProfile) {
    q.(voicePath := p.voicePath, settings := q.settings.(esimReader := p.settings.esimReader)) == p
  }

  // A discovery that names a valid line normalizes every voice order. If it names just one, and that
  // line has no reader setting of its own, the line takes the global one over, which is then gone.
  lemma DiscoveryDoes(profiles: seq<LineProfile>, lineIds: seq<string>, reader: Option<string>, k: string)
    requires UniqueIds(profiles) && exists id :: id in lineIds && ValidLineId(id)
    ensures var d, p := Discover(profiles, lineIds, reader), Stored(profiles, k);
            var takes := Sole(lineIds, k) && reader.Some? && p.settings.esimReader == "";
            && Stored(d.profiles, k).voicePath == Normalized(p.voicePath)
            && Stored(d.profiles, k).settings.esimReader == (if takes then reader.value else p.settings.esimReader)
            && OnlyVoiceAndReader(p, Stored(d.profiles, k))
            && (takes ==> d.reader == None)
    ensures (forall id :: Sole(lineIds, id) ==> Stored(profiles, id).settings.esimReader != "") ==>
              Discover(profiles, lineIds, reader).reader == reader
  {
    var ids := Dedup(ValidOnly(lineIds), []);
    ValidOnlyMembers(lineIds);
    DedupMembers(ValidOnly(lineIds), []);
    var id :| id in lineIds && ValidLineId(id);
    assert id in ids;
    SoleIsOnly(lineIds, k);
    if |ids| == 1 { SoleIsOnly(lineIds, ids[0]); assert ids == [ids[0]]; }
    DiscoveryRefinesMap(profiles, lineIds, reader);
    VoicedRefines(profiles);
    EnsuredAllRefines(VoicedAll(profiles), ids);
  }
}
