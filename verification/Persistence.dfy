/**
 Concurrent setters and saves over two stores: the database and the configuration file.
 A setter changes memory under the write lock; `save` then runs under its own lock.
 */
module Persistence {
  import opened Options

  type Section = string

  // The value the program works with, split between the two stores.
  datatype AppConfig = AppConfig(
    cellularBackend: Section,
    lineConfigVersion: nat,
    notifications: Section,
    deviceNetwork: Section,
    updateEnabled: bool,
    updateProxy: Section,
    lastNotified: Section,
    downloadProxy: Section,
    diagnosticLog: Section,
    security: Section,
    esim: Section,
    automation: Section,
    lineProfiles: Section,
    modemSlots: Section,
    standaloneSlots: Section)

  datatype MainConfig = MainConfig(
    cellularBackend: Section,
    configVersion: nat,
    security: Section,
    deviceNetwork: Section,
    diagnosticLog: Section,
    downloadProxy: Section,
    updateEnabled: bool,
    updateProxy: Section)

  datatype StoredConfig = StoredConfig(
    lineProfiles: Section,
    modemSlots: Section,
    standaloneSlots: Section,
    notifications: Section,
    automation: Section,
    esim: Section,
    lastNotified: Section)

  function MainOf(c: AppConfig): MainConfig {
    MainConfig(c.cellularBackend, c.lineConfigVersion, c.security, c.deviceNetwork, c.diagnosticLog, c.downloadProxy,
               c.updateEnabled, c.updateProxy)
  }

  function StoredOf(c: AppConfig): StoredConfig {
    StoredConfig(c.lineProfiles, c.modemSlots, c.standaloneSlots, c.notifications, c.automation, c.esim, c.lastNotified)
  }

  function Merge(m: MainConfig, s: StoredConfig): AppConfig {
    AppConfig(m.cellularBackend, m.configVersion, s.notifications, m.deviceNetwork, m.updateEnabled, m.updateProxy,
              s.lastNotified, m.downloadProxy, m.diagnosticLog, m.security, s.esim, s.automation, s.lineProfiles,
              s.modemSlots, s.standaloneSlots)
  }

  // ---- One setter call per thread ----------------------------------------------------------------------

  // `mutation` is the version of memory that the call's own change produced.
  datatype Phase =
    | Idle
    | Waiting(mutation: nat)
    | Locked(mutation: nat)
    | Snapped(mutation: nat, snapshot: nat)
    | Stored(mutation: nat, snapshot: nat)
    | Returned(mutation: nat, ok: bool)

  // `history[v]` is memory after v changes; the two versions say what each store was last given.
  datatype State = State(
    history: seq<AppConfig>,
    database: StoredConfig,
    databaseVersion: nat,
    file: MainConfig,
    fileVersion: nat,
    edited: bool,
    lock: Option<nat>,
    threads: seq<Phase>)

  datatype Step =
    | Mutate(t: nat, next: AppConfig)
    | Stray(next: AppConfig)
    | Lock(t: nat)
    | Snapshot(t: nat)
    | WriteDatabase(t: nat, fails: bool)
    | WriteFile(t: nat, fails: bool)
    | HandEdit(main: MainConfig)

  function Move(s: State, t: nat, p: Phase): State
    requires t < |s.threads|
  {
    s.(threads := s.threads[t := p])
  }

  function Leave(s: State, t: nat, ok: bool): State
    requires t < |s.threads| && !s.threads[t].Idle?
  {
    Move(s, t, Returned(s.threads[t].mutation, ok)).(lock := None)
  }

  predicate CanMutate(s: State, t: nat) {
    t < |s.threads| && (s.threads[t].Idle? || s.threads[t].Returned?)
  }

  // A step that is not possible in a state leaves the state alone.
  function Next(s: State, step: Step): State {
    match step
    case Mutate(t, c) =>
      if CanMutate(s, t) then Move(s, t, Waiting(|s.history|)).(history := s.history + [c]) else s
    // A refused trunk update, or a reconciliation that only sorted: memory changes and nobody saves.
    case Stray(c) => s.(history := s.history + [c])
    case Lock(t) =>
      if t < |s.threads| && s.threads[t].Waiting? && s.lock.None? then
        Move(s, t, Locked(s.threads[t].mutation)).(lock := Some(t))
      else s
    case Snapshot(t) =>
      if t < |s.threads| && s.threads[t].Locked? && |s.history| > 0 then
        Move(s, t, Snapped(s.threads[t].mutation, |s.history| - 1))
      else s
    case WriteDatabase(t, fails) =>
      if t < |s.threads| && s.threads[t].Snapped? && s.threads[t].snapshot < |s.history| then
        var p := s.threads[t];
        if fails then Leave(s, t, false)
        else Move(s, t, Stored(p.mutation, p.snapshot))
             .(database := StoredOf(s.history[p.snapshot]), databaseVersion := p.snapshot)
      else s
    case WriteFile(t, fails) =>
      if t < |s.threads| && s.threads[t].Stored? && s.threads[t].snapshot < |s.history| then
        var p := s.threads[t];
        if fails then Leave(s, t, false)
        else Leave(s, t, true).(file := MainOf(s.history[p.snapshot]), fileVersion := p.snapshot, edited := false)
      else s
    case HandEdit(m) => s.(file := m, edited := true)
  }

  function Run(s: State, steps: seq<Step>): State
    decreases |steps|
  {
    if steps == [] then s else Run(Next(s, steps[0]), steps[1..])
  }

  predicate Initial(s: State) {
    && |s.history| == 1 && s.databaseVersion == s.fileVersion == 0 && !s.edited && s.lock.None?
    && s.database == StoredOf(s.history[0]) && s.file == MainOf(s.history[0])
    && forall t :: 0 <= t < |s.threads| ==> s.threads[t] == Idle
  }

  // ---- The invariant ----------------------------------------------------------------------------------------

  predicate HoldsLock(p: Phase) {
    p.Locked? || p.Snapped? || p.Stored?
  }

  predicate PhaseInv(s: State, p: Phase) {
    match p
    case Idle => true
    case Waiting(v) => v < |s.history|
    case Locked(v) => v < |s.history|
    case Snapped(v, snap) => v <= snap < |s.history| && s.databaseVersion <= snap
    case Stored(v, snap) => v <= snap < |s.history| && s.databaseVersion == snap
    case Returned(v, ok) => ok ==> v <= s.fileVersion
  }

  predicate StoresInv(s: State) {
    && s.fileVersion <= s.databaseVersion < |s.history|
    && s.database == StoredOf(s.history[s.databaseVersion])
    && (!s.edited ==> s.file == MainOf(s.history[s.fileVersion]))
  }

  ghost predicate LockInv(s: State) {
    forall t :: 0 <= t < |s.threads| ==> (HoldsLock(s.threads[t]) <==> s.lock == Some(t))
  }

  ghost predicate Inv(s: State) {
    StoresInv(s) && LockInv(s) && forall t :: 0 <= t < |s.threads| ==> PhaseInv(s, s.threads[t])
  }

  // Nothing goes backwards: memory only grows, and neither store returns to an older version.
  predicate Advances(a: State, b: State) {
    a.history <= b.history && a.databaseVersion <= b.databaseVersion && a.fileVersion <= b.fileVersion
  }

  lemma StepKeepsStores(s: State, step: Step)
    requires Inv(s)
    ensures StoresInv(Next(s, step)) && Advances(s, Next(s, step))
  {
    var t := if step.Stray? || step.HandEdit? then 0 else step.t;
    if t < |s.threads| { assert PhaseInv(s, s.threads[t]); }
  }

  lemma SameThreads(s: State, step: Step)
    ensures |Next(s, step).threads| == |s.threads|
  {
  }

  lemma StepKeepsLock(s: State, step: Step, t: nat)
    requires Inv(s) && t < |s.threads|
    ensures HoldsLock(Next(s, step).threads[t]) <==> Next(s, step).lock == Some(t)
  {
    assert HoldsLock(s.threads[t]) <==> s.lock == Some(t);
    if Acts(step, t) { ActorKeepsLock(s, step, t); } else { OthersKeepLock(s, step, t); }
  }

  lemma ActorKeepsLock(s: State, step: Step, t: nat)
    requires t < |s.threads| && Acts(step, t) && (HoldsLock(s.threads[t]) <==> s.lock == Some(t))
    ensures HoldsLock(Next(s, step).threads[t]) <==> Next(s, step).lock == Some(t)
  {
  }

  // Another thread takes the lock only while it is free, and only its holder gives it up.
  lemma OthersKeepLock(s: State, step: Step, t: nat)
    requires Inv(s) && t < |s.threads| && !Acts(step, t)
    ensures HoldsLock(Next(s, step).threads[t]) <==> Next(s, step).lock == Some(t)
  {
    assert HoldsLock(s.threads[t]) <==> s.lock == Some(t);
    if !step.Stray? && !step.HandEdit? && step.t < |s.threads| {
      assert HoldsLock(s.threads[step.t]) <==> s.lock == Some(step.t);
    }
  }

  predicate Acts(step: Step, t: nat) {
    !step.Stray? && !step.HandEdit? && step.t == t
  }

  lemma StepKeepsOwnPhase(s: State, step: Step, t: nat)
    requires Inv(s) && t < |s.threads| && Acts(step, t)
    ensures PhaseInv(Next(s, step), Next(s, step).threads[t])
  {
    assert PhaseInv(s, s.threads[t]);
  }

  // Another thread's phase: only the lock holder writes a store, and it is not that thread.
  lemma StepKeepsOtherPhase(s: State, step: Step, t: nat)
    requires Inv(s) && t < |s.threads| && !Acts(step, t)
    ensures PhaseInv(Next(s, step), Next(s, step).threads[t])
  {
    assert PhaseInv(s, s.threads[t]);
    StepKeepsStores(s, step);
    OthersKeepDatabase(s, step, t);
    PhaseStands(s, Next(s, step), s.threads[t]);
  }

  lemma OthersKeepDatabase(s: State, step: Step, t: nat)
    requires Inv(s) && t < |s.threads| && !Acts(step, t)
    ensures Next(s, step).threads[t] == s.threads[t]
    ensures HoldsLock(s.threads[t]) ==> Next(s, step).databaseVersion == s.databaseVersion
  {
    assert HoldsLock(s.threads[t]) <==> s.lock == Some(t);
    if step.WriteDatabase? && step.t < |s.threads| {
      assert HoldsLock(s.threads[step.t]) <==> s.lock == Some(step.t);
    }
  }

  lemma PhaseStands(a: State, b: State, p: Phase)
    requires PhaseInv(a, p) && Advances(a, b) && (HoldsLock(p) ==> b.databaseVersion == a.databaseVersion)
    ensures PhaseInv(b, p)
  {
  }

  lemma StepKeepsInv(s: State, step: Step)
    requires Inv(s)
    ensures Inv(Next(s, step)) && Advances(s, Next(s, step))
  {
    StepKeepsStores(s, step);
    SameThreads(s, step);
    forall t | 0 <= t < |s.threads|
      ensures HoldsLock(Next(s, step).threads[t]) <==> Next(s, step).lock == Some(t)
      ensures PhaseInv(Next(s, step), Next(s, step).threads[t])
    {
      StepKeepsLock(s, step, t);
      if Acts(step, t) { StepKeepsOwnPhase(s, step, t); } else { StepKeepsOtherPhase(s, step, t); }
    }
  }

  lemma {:induction false} RunKeepsInv(s: State, steps: seq<Step>)
    requires Inv(s)
    ensures Inv(Run(s, steps)) && Advances(s, Run(s, steps))
    decreases |steps|
  {
    if steps != [] {
      StepKeepsInv(s, steps[0]);
      RunKeepsInv(Next(s, steps[0]), steps[1..]);
    }
  }

  // ---- Main results -------------------------------------------------------------------------------------------

  // Persisted versions never go backwards, and whenever the process dies the database is level
  // with the file or ahead of it.
  lemma StoresNeverGoBack(s: State, before: seq<Step>, after: seq<Step>)
    requires Initial(s)
    ensures var a, b := Run(s, before), Run(Run(s, before), after);
            && Advances(a, b)
            && b.fileVersion <= b.databaseVersion < |b.history|
            && b.database == StoredOf(b.history[b.databaseVersion])
            && (!b.edited ==> b.file == MainOf(b.history[b.fileVersion]))
  {
    RunKeepsInv(s, before);
    RunKeepsInv(Run(s, before), after);
  }

  // Once a setter has returned Ok, both stores hold a snapshot that includes its change, for ever.
  lemma OkIsDurable(s: State, before: seq<Step>, t: nat, after: seq<Step>)
    requires Initial(s) && t < |s.threads|
    requires var a := Run(s, before); t < |a.threads| && a.threads[t].Returned? && a.threads[t].ok
    ensures var a, b := Run(s, before), Run(Run(s, before), after);
            a.threads[t].mutation <= b.fileVersion <= b.databaseVersion
  {
    RunKeepsInv(s, before);
    assert PhaseInv(Run(s, before), Run(s, before).threads[t]);
    RunKeepsInv(Run(s, before), after);
  }

  // When the call that made the latest change has returned Ok and nobody edited the file,
  // a restart gives back exactly what was in memory.
  lemma RestartAfterLastOk(s: State, steps: seq<Step>, t: nat)
    requires Initial(s)
    requires var a := Run(s, steps);
             && t < |a.threads| && a.threads[t].Returned? && a.threads[t].ok && !a.edited
             && a.threads[t].mutation == |a.history| - 1
    ensures var a := Run(s, steps); Merge(a.file, a.database) == a.history[|a.history| - 1]
  {
    RunKeepsInv(s, steps);
    assert PhaseInv(Run(s, steps), Run(s, steps).threads[t]);
  }

  // Whatever the crash point, a restart joins the file's half of one version with the database's
  // half of the same or a later one, both at least as new as every change reported Ok.
  lemma RestartAfterCrash(s: State, steps: seq<Step>)
    requires Initial(s) && !Run(s, steps).edited
    ensures var a := Run(s, steps);
            && a.fileVersion <= a.databaseVersion < |a.history|
            && Merge(a.file, a.database) == Merge(MainOf(a.history[a.fileVersion]),
              StoredOf(a.history[a.databaseVersion]))
            && forall t :: 0 <= t < |a.threads| && a.threads[t].Returned? && a.threads[t].ok ==>
                 a.threads[t].mutation <= a.fileVersion
  {
    RunKeepsInv(s, steps);
    var a := Run(s, steps);
    forall t | 0 <= t < |a.threads| && a.threads[t].Returned? && a.threads[t].ok
        ensures a.threads[t].mutation <= a.fileVersion {
      assert PhaseInv(a, a.threads[t]);
    }
  }

  // The two runs agree, but for what the edit left in the file.
  predicate SameButEdit(edited: State, other: State) {
    edited == other || (edited.edited && edited.(file := other.file, edited := other.edited) == other)
  }

  lemma StepForgetsEdit(a: State, b: State, step: Step)
    requires SameButEdit(a, b)
    ensures SameButEdit(Next(a, step), Next(b, step))
  {
  }

  lemma {:induction false} RunForgetsEdit(a: State, b: State, steps: seq<Step>)
    requires SameButEdit(a, b)
    ensures SameButEdit(Run(a, steps), Run(b, steps))
    decreases |steps|
  {
    if steps != [] {
      StepForgetsEdit(a, b, steps[0]);
      RunForgetsEdit(Next(a, steps[0]), Next(b, steps[0]), steps[1..]);
    }
  }

  // This step is a save that writes the file.
  predicate Saves(s: State, step: Step) {
    && step.WriteFile? && !step.fails
    && step.t < |s.threads| && s.threads[step.t].Stored? && s.threads[step.t].snapshot < |s.history|
  }

  predicate SavesIn(s: State, steps: seq<Step>)
    decreases |steps|
  {
    steps != [] && (Saves(s, steps[0]) || SavesIn(Next(s, steps[0]), steps[1..]))
  }

  predicate NoHandEdit(steps: seq<Step>) {
    forall i :: 0 <= i < |steps| ==> !steps[i].HandEdit?
  }

  lemma StepKeepsEdit(s: State, step: Step)
    requires !step.HandEdit?
    ensures Next(s, step).edited <==> s.edited && !Saves(s, step)
    ensures Next(s, step).edited ==> Next(s, step).file == s.file
  {
  }

  lemma {:induction false} RunKeepsEdit(s: State, steps: seq<Step>)
    requires NoHandEdit(steps)
    ensures Run(s, steps).edited <==> s.edited && !SavesIn(s, steps)
    ensures Run(s, steps).edited ==> Run(s, steps).file == s.file
    decreases |steps|
  {
    if steps != [] {
      StepKeepsEdit(s, steps[0]);
      RunKeepsEdit(Next(s, steps[0]), steps[1..]);
    }
  }

  // A save writes memory's half of the file. Once one has succeeded after a hand edit, both
  // stores and everything else are as if the edit had never been made; until then, and only
  // until then, the edit is what the file says.
  lemma SaveOverwritesHandEdit(s: State, edit: MainConfig, after: seq<Step>)
    ensures var b := Run(Next(s, HandEdit(edit)), after);
            && (!b.edited ==> b == Run(s, after))
            && (NoHandEdit(after) ==>
                  && (b.edited <==> !SavesIn(Next(s, HandEdit(edit)), after))
                  && (b.edited ==> b.file == edit))
  {
    RunForgetsEdit(Next(s, HandEdit(edit)), s, after);
    if NoHandEdit(after) { RunKeepsEdit(Next(s, HandEdit(edit)), after); }
  }

  // A change whose save failed is still in memory, so the next save that succeeds carries it.
  lemma FailedChangeIsCarriedOn(s: State, before: seq<Step>, t: nat, after: seq<Step>, u: nat)
    requires Initial(s)
    requires var a := Run(s, before); t < |a.threads| && a.threads[t].Returned? && !a.threads[t].ok
    requires var a, b := Run(s, before), Run(Run(s, before), after);
             && u < |b.threads| && b.threads[u].Returned? && b.threads[u].ok
             && b.threads[u].mutation >= a.threads[t].mutation
    ensures var a, b := Run(s, before), Run(Run(s, before), after);
            a.threads[t].mutation <= b.fileVersion <= b.databaseVersion
  {
    RunKeepsInv(s, before);
    RunKeepsInv(Run(s, before), after);
    var b := Run(Run(s, before), after);
    assert PhaseInv(b, b.threads[u]);
  }

  // ---- What a call reports --------------------------------------------------------------------------------

  // The steps of a run that took thread `t` further.
  function Moves(s: State, steps: seq<Step>, t: nat): seq<Step>
    requires t < |s.threads|
    decreases |steps|
  {
    if steps == [] then []
    else
      SameThreads(s, steps[0]);
      (if Acts(steps[0], t) && Next(s, steps[0]).threads[t] != s.threads[t] then [steps[0]] else [])
      + Moves(Next(s, steps[0]), steps[1..], t)
  }

  // What the moves of a thread so far say about its call.
  predicate Tells(moves: seq<Step>, t: nat, p: Phase) {
    match p
    case Stored(_, _) => Latest(moves) == Some(WriteDatabase(t, false))
    case Returned(_, ok) => if ok then BothWritten(moves, t) else OneFailed(moves, t)
    case _ => true
  }

  function Latest(moves: seq<Step>): Option<Step> {
    if moves == [] then None else Some(moves[|moves| - 1])
  }

  predicate LatestTwo(moves: seq<Step>, a: Step, b: Step) {
    |moves| >= 2 && moves[|moves| - 2] == a && moves[|moves| - 1] == b
  }

  predicate BothWritten(moves: seq<Step>, t: nat) {
    LatestTwo(moves, WriteDatabase(t, false), WriteFile(t, false))
  }

  predicate OneFailed(moves: seq<Step>, t: nat) {
    Latest(moves) == Some(WriteDatabase(t, true)) || LatestTwo(moves, WriteDatabase(t, false), WriteFile(t, true))
  }

  lemma MoveTells(s: State, step: Step, t: nat, moves: seq<Step>)
    requires t < |s.threads| && Tells(moves, t, s.threads[t])
    ensures t < |Next(s, step).threads|
    ensures var p := Next(s, step).threads[t];
            Tells(if Acts(step, t) && p != s.threads[t] then moves + [step] else moves, t, p)
  {
    SameThreads(s, step);
    var more := moves + [step];
    assert Latest(more) == Some(step) && (moves != [] ==> LatestTwo(more, moves[|moves| - 1], step));
  }

  lemma {:induction false} RunTells(s: State, steps: seq<Step>, t: nat, moves: seq<Step>)
    requires t < |s.threads| && Tells(moves, t, s.threads[t])
    ensures t < |Run(s, steps).threads| && Tells(moves + Moves(s, steps, t), t, Run(s, steps).threads[t])
    decreases |steps|
  {
    if steps == [] {
      assert moves + [] == moves;
    } else {
      var next, rest := Next(s, steps[0]), Moves(Next(s, steps[0]), steps[1..], t);
      MoveTells(s, steps[0], t, moves);
      if Acts(steps[0], t) && next.threads[t] != s.threads[t] {
        RunTells(next, steps[1..], t, moves + [steps[0]]);
        assert moves + ([steps[0]] + rest) == moves + [steps[0]] + rest;
      } else {
        RunTells(next, steps[1..], t, moves);
        assert [] + rest == rest;
      }
    }
  }

  // Over every run: a call has reported Ok exactly when its latest moves are its two writes, both
  // of them successful, and a failure exactly when one of the two failed.
  lemma ReportIsExact(s: State, steps: seq<Step>, t: nat)
    requires Initial(s) && t < |s.threads| && t < |Run(s, steps).threads| && Run(s, steps).threads[t].Returned?
    ensures Run(s, steps).threads[t].ok <==> BothWritten(Moves(s, steps, t), t)
    ensures !Run(s, steps).threads[t].ok <==> OneFailed(Moves(s, steps, t), t)
  {
    RunTells(s, steps, t, []);
    assert [] + Moves(s, steps, t) == Moves(s, steps, t);
  }

  // ---- One whole call among others --------------------------------------------------------------------------

  predicate Without(steps: seq<Step>, t: nat) {
    forall i :: 0 <= i < |steps| ==> !Acts(steps[i], t)
  }

  // What others do leaves a call where it is, and its stores alone while it holds the lock; only
  // the operator can still change the file.
  predicate LeavesCall(a: State, b: State, t: nat) {
    && t < |a.threads| == |b.threads| && b.threads[t] == a.threads[t] && Advances(a, b)
    && (HoldsLock(a.threads[t]) ==>
          b.database == a.database && b.databaseVersion == a.databaseVersion && b.fileVersion == a.fileVersion)
  }

  lemma StepLeavesCall(s: State, step: Step, t: nat)
    requires Inv(s) && t < |s.threads| && !Acts(step, t)
    ensures LeavesCall(s, Next(s, step), t)
  {
    SameThreads(s, step);
    StepKeepsStores(s, step);
    OthersKeepDatabase(s, step, t);
    if !step.Stray? && !step.HandEdit? && step.t < |s.threads| {
      assert HoldsLock(s.threads[t]) <==> s.lock == Some(t);
      assert HoldsLock(s.threads[step.t]) <==> s.lock == Some(step.t);
    }
  }

  lemma {:induction false} OthersLeaveCall(s: State, steps: seq<Step>, t: nat)
    requires Inv(s) && t < |s.threads| && Without(steps, t)
    ensures Inv(Run(s, steps)) && LeavesCall(s, Run(s, steps), t)
    decreases |steps|
  {
    if steps != [] {
      StepLeavesCall(s, steps[0], t);
      StepKeepsInv(s, steps[0]);
      assert Without(steps[1..], t) by { assert forall i :: 0 <= i < |steps[1..]| ==> steps[1..][i] == steps[i + 1]; }
      OthersLeaveCall(Next(s, steps[0]), steps[1..], t);
    }
  }

  // A call changes memory and takes the lock, and then its snapshot, with others at work in between.
  function Reading(s: State, t: nat, change: AppConfig, m0: seq<Step>, m1: seq<Step>): State {
    Run(Next(Run(Next(s, Mutate(t, change)), m0), Lock(t)), m1)
  }

  function Begun(s: State, t: nat, change: AppConfig, m0: seq<Step>, m1: seq<Step>, m2: seq<Step>): State {
    Run(Next(Reading(s, t, change, m0, m1), Snapshot(t)), m2)
  }

  lemma StepOfCall(s: State, step: Step, t: nat, others: seq<Step>)
    requires Inv(s) && t < |s.threads| && Acts(step, t) && Without(others, t)
    ensures var a, b := Next(s, step), Run(Next(s, step), others);
            Inv(a) && Inv(b) && Advances(s, a) && LeavesCall(a, b, t)
    ensures NoChange(others) ==> Run(Next(s, step), others).history == Next(s, step).history
  {
    StepKeepsInv(s, step);
    SameThreads(s, step);
    OthersLeaveCall(Next(s, step), others, t);
    if NoChange(others) { NoChangeKeepsMemory(Next(s, step), others); }
  }

  lemma MutateOfCall(s: State, t: nat, change: AppConfig, others: seq<Step>)
    requires Inv(s) && CanMutate(s, t) && Without(others, t)
    ensures var b, v := Run(Next(s, Mutate(t, change)), others), |s.history|;
            && Inv(b) && t < |b.threads| && b.threads[t] == Waiting(v) && v < |b.history| && b.history[v] == change
            && (NoChange(others) ==> |b.history| == v + 1)
  {
    StepOfCall(s, Mutate(t, change), t, others);
  }

  lemma LockOfCall(s: State, t: nat, others: seq<Step>)
    requires Inv(s) && t < |s.threads| && s.threads[t].Waiting? && s.lock.None? && Without(others, t)
    ensures var b := Run(Next(s, Lock(t)), others);
            && Inv(b) && t < |b.threads| && b.threads[t] == Locked(s.threads[t].mutation)
            && s.history <= b.history && (NoChange(others) ==> b.history == s.history)
  {
    StepOfCall(s, Lock(t), t, others);
  }

  lemma SnapshotOfCall(s: State, t: nat, others: seq<Step>)
    requires Inv(s) && t < |s.threads| && s.threads[t].Locked? && Without(others, t)
    ensures var b := Run(Next(s, Snapshot(t)), others);
            && Inv(b) && t < |b.threads| && b.threads[t] == Snapped(s.threads[t].mutation, |s.history| - 1)
            && s.history <= b.history
  {
    StepOfCall(s, Snapshot(t), t, others);
  }

  lemma BegunHolds(s: State, t: nat, change: AppConfig, m0: seq<Step>, m1: seq<Step>, m2: seq<Step>)
    requires Inv(s) && CanMutate(s, t) && Without(m0, t) && Without(m1, t) && Without(m2, t)
    requires Run(Next(s, Mutate(t, change)), m0).lock.None?
    ensures var b, v := Begun(s, t, change, m0, m1, m2), |s.history|;
            && Inv(b) && t < |b.threads| && b.threads[t].Snapped? && b.threads[t].mutation == v < |b.history|
            && b.history[v] == change && v <= b.threads[t].snapshot < |b.history|
            && b.threads[t].snapshot == |Reading(s, t, change, m0, m1).history| - 1
            && (NoChange(m0) && NoChange(m1) ==> b.threads[t].snapshot == v)
  {
    MutateOfCall(s, t, change, m0);
    LockOfCall(Run(Next(s, Mutate(t, change)), m0), t, m1);
    SnapshotOfCall(Reading(s, t, change, m0, m1), t, m2);
  }

  // Nobody changes memory in these steps.
  predicate NoChange(steps: seq<Step>) {
    forall i :: 0 <= i < |steps| ==> !steps[i].Mutate? && !steps[i].Stray?
  }

  lemma {:induction false} NoChangeKeepsMemory(s: State, steps: seq<Step>)
    requires NoChange(steps)
    ensures Run(s, steps).history == s.history
    decreases |steps|
  {
    if steps != [] { NoChangeKeepsMemory(Next(s, steps[0]), steps[1..]); }
  }

  // A whole call with others at work between any two of its steps: it returns, Ok exactly when
  // neither write fails, and then both stores hold memory as it was when the call read it, with its
  // own change. If nobody else changed memory before that, a restart gives back that change.
  lemma CallReturns(s: State, t: nat, change: AppConfig, m0: seq<Step>, m1: seq<Step>, m2: seq<Step>,
                    m3: seq<Step>, databaseFails: bool, fileFails: bool)
    requires Inv(s) && CanMutate(s, t) && Without(m0, t) && Without(m1, t) && Without(m2, t) && Without(m3, t)
    requires Run(Next(s, Mutate(t, change)), m0).lock.None?
    ensures var half := Next(Begun(s, t, change, m0, m1, m2), WriteDatabase(t, databaseFails));
            var end := Next(Run(half, m3), WriteFile(t, fileFails));
            var ok := !databaseFails && !fileFails;
            && t < |end.threads| && end.threads[t] == Returned(|s.history|, ok)
            && |s.history| < |end.history| && end.history[|s.history|] == change
            && (ok ==>
                  && |s.history| <= end.fileVersion == end.databaseVersion < |end.history| && !end.edited
                  && end.fileVersion == |Reading(s, t, change, m0, m1).history| - 1
                  && Merge(end.file, end.database) == end.history[end.fileVersion])
            && (ok && NoChange(m0) && NoChange(m1) ==> Merge(end.file, end.database) == change)
  {
    var begun := Begun(s, t, change, m0, m1, m2);
    BegunHolds(s, t, change, m0, m1, m2);
    WritesOfCall(begun, t, m3, databaseFails, fileFails);
  }

  lemma WritesOfCall(s: State, t: nat, others: seq<Step>, databaseFails: bool, fileFails: bool)
    requires Inv(s) && t < |s.threads| && s.threads[t].Snapped? && Without(others, t)
    ensures var end := Next(Run(Next(s, WriteDatabase(t, databaseFails)), others), WriteFile(t, fileFails));
            var p, ok := s.threads[t], !databaseFails && !fileFails;
            && t < |end.threads| && end.threads[t] == Returned(p.mutation, ok) && s.history <= end.history
            && (ok ==>
                  && p.snapshot == end.fileVersion == end.databaseVersion < |end.history| && !end.edited
                  && Merge(end.file, end.database) == end.history[p.snapshot])
  {
    assert PhaseInv(s, s.threads[t]);
    StepOfCall(s, WriteDatabase(t, databaseFails), t, others);
    var half := Run(Next(s, WriteDatabase(t, databaseFails)), others);
    StepKeepsInv(half, WriteFile(t, fileFails));
    SplitRejoins(half.history, s.threads[t].snapshot);
  }

  lemma SplitRejoins(history: seq<AppConfig>, v: nat)
    requires v < |history|
    ensures Merge(MainOf(history[v]), StoredOf(history[v])) == history[v]
  {
  }

  // A change of memory that nobody saved, such as the default entry of a refused call, goes to both
  // stores with the next call that returns Ok.
  lemma StrayChangeIsSaved(s: State, stray: AppConfig, t: nat, change: AppConfig, m0: seq<Step>, m1: seq<Step>,
                           m2: seq<Step>, m3: seq<Step>)
    requires Inv(s) && CanMutate(s, t) && Without(m0, t) && Without(m1, t) && Without(m2, t) && Without(m3, t)
    requires Run(Next(Next(s, Stray(stray)), Mutate(t, change)), m0).lock.None?
    ensures var half := Next(Begun(Next(s, Stray(stray)), t, change, m0, m1, m2), WriteDatabase(t, false));
            var end := Next(Run(half, m3), WriteFile(t, false));
            && |s.history| < end.fileVersion == end.databaseVersion < |end.history|
            && end.history[|s.history|] == stray
  {
    var s1 := Next(s, Stray(stray));
    StepKeepsInv(s, Stray(stray));
    CallReturns(s1, t, change, m0, m1, m2, m3, false, false);
    CallKeepsHistory(s1, t, change, m0, m1, m2, m3);
  }

  lemma {:induction false} RunGrows(s: State, steps: seq<Step>)
    ensures s.history <= Run(s, steps).history
    decreases |steps|
  {
    if steps != [] {
      assert s.history <= Next(s, steps[0]).history;
      RunGrows(Next(s, steps[0]), steps[1..]);
    }
  }

  lemma CallKeepsHistory(s: State, t: nat, change: AppConfig, m0: seq<Step>, m1: seq<Step>,
                         m2: seq<Step>, m3: seq<Step>)
    ensures var half := Next(Begun(s, t, change, m0, m1, m2), WriteDatabase(t, false));
            s.history <= Next(Run(half, m3), WriteFile(t, false)).history
  {
    var half := Next(Begun(s, t, change, m0, m1, m2), WriteDatabase(t, false));
    RunGrows(s, [Mutate(t, change)]);
    RunGrows(Next(s, Mutate(t, change)), m0);
    RunGrows(Next(Run(Next(s, Mutate(t, change)), m0), Lock(t)), m1);
    RunGrows(Next(Reading(s, t, change, m0, m1), Snapshot(t)), m2);
    RunGrows(half, m3);
  }
}
