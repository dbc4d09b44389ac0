/**
 The installer's transaction: five replacements by rename, the service commands
 around them, a rollback that may itself fail, and the cleanup that deletes backups.
 Every operation consults an arbitrary schedule of faults.
 */
module Installer {
  import opened Options

  // Items 0..3 are the payload under the install prefix, item 4 is the service unit.
  const PAYLOAD: nat := 4
  const ITEMS: nat := 5

  datatype Content = File(data: string) | Tree(entries: map<string, string>)

  datatype Path =
    | Target(item: nat)
    | Staged(item: nat)
    | Backup(item: nat)
    | Elsewhere(name: string)

  type Files = map<Path, Content>

  datatype Activity = Active | Inactive | Dead | Transitional
  datatype Enablement = Enabled | Disabled | Unset | NotFound | Masked

  datatype Command = Stop | Start | Enable | Disable | Reload

  // Before: the operation raises without effect.  After: it takes effect and is then
  // interrupted.  Torn: a recursive copy or delete leaves `left`, or of a work directory no
  // more than `kept`, behind and raises; a stop or start leaves the service in `activity` and
  // raises.
  datatype Fault =
    | Clean
    | Before
    | After
    | Torn(left: Option<Content>, kept: Files, activity: Activity)

  datatype Change = Change(item: nat, hadOld: bool)

  // The world after one operation; `sweeping` once the deletion of the work directories has begun.
  datatype Moment = Moment(files: Files, sweeping: bool, reloaded: bool)

  // The flags as the program leaves them, and whether it ends in an exception.
  datatype Result = Rejected | Finished(committed: bool, rollbackOk: bool, raised: bool)

  // How the transaction really ended.  Unannounced: the notice of failure was itself stopped,
  // so no rollback was attempted.  RollbackFailed: one was, and did not complete.
  datatype Ending = Unstarted | Done | StagingFailed | RolledBack | RollbackFailed | Unannounced

  // ---- What the transaction is about -------------------------------------------------

  ghost predicate Agree(f: Files, g: Files, p: Path) {
    (p in f <==> p in g) && (p in f ==> f[p] == g[p])
  }

  // The original item, or its absence, is in place.
  ghost predicate Original(orig: Files, f: Files, i: nat) {
    Agree(orig, f, Target(i))
  }

  // The original item, when there is one, is in place or in its backup.
  ghost predicate Kept(orig: Files, f: Files, i: nat) {
    Target(i) in orig ==>
      || (Target(i) in f && f[Target(i)] == orig[Target(i)])
      || (Backup(i) in f && f[Backup(i)] == orig[Target(i)])
  }

  ghost predicate NoneLost(orig: Files, f: Files) {
    forall i: nat :: i < ITEMS ==> Kept(orig, f, i)
  }

  ghost predicate AllOld(orig: Files, f: Files) {
    forall i: nat :: i < ITEMS ==> Original(orig, f, i)
  }

  // The original item, when there is one, is in place.
  ghost predicate ItemInPlace(orig: Files, f: Files, i: nat) {
    Target(i) in orig ==> Target(i) in f && f[Target(i)] == orig[Target(i)]
  }

  ghost predicate InPlace(orig: Files, f: Files) {
    forall i: nat :: i < ITEMS ==> ItemInPlace(orig, f, i)
  }

  ghost predicate Installed(pkg: seq<Content>, f: Files, i: nat)
    requires |pkg| == ITEMS && i < ITEMS
  {
    Target(i) in f && f[Target(i)] == pkg[i]
  }

  ghost predicate AllNew(pkg: seq<Content>, f: Files)
    requires |pkg| == ITEMS
  {
    forall i: nat :: i < ITEMS ==> Installed(pkg, f, i)
  }

  ghost predicate OthersUntouched(orig: Files, f: Files) {
    forall p: Path :: p.Elsewhere? ==> (p in orig <==> p in f) && (p in f ==> f[p] == orig[p])
  }

  // ---- The stages an item goes through --------------------------------------------------

  ghost predicate Untouched(orig: Files, f: Files, i: nat) {
    Original(orig, f, i) && Backup(i) !in f
  }

  ghost predicate Moved(orig: Files, f: Files, i: nat) {
    Target(i) in orig && Target(i) !in f && Backup(i) in f && f[Backup(i)] == orig[Target(i)]
  }

  ghost predicate Replaced(orig: Files, pkg: seq<Content>, f: Files, i: nat)
    requires |pkg| == ITEMS && i < ITEMS
  {
    && Installed(pkg, f, i)
    && (Target(i) in orig <==> Backup(i) in f)
    && (Target(i) in orig ==> f[Backup(i)] == orig[Target(i)])
  }

  ghost predicate Ready(pkg: seq<Content>, f: Files, i: nat)
    requires |pkg| == ITEMS && i < ITEMS
  {
    Staged(i) in f && f[Staged(i)] == pkg[i]
  }

  // `changes` lists exactly the items begun so far.
  ghost predicate Logged(orig: Files, changes: seq<Change>) {
    |changes| <= ITEMS && forall j :: 0 <= j < |changes| ==> changes[j] == Change(j, Target(j) in orig)
  }

  // What the rollback has to deal with when it reaches the items below `k`.
  ghost predicate Undoing(orig: Files, pkg: seq<Content>, f: Files, k: nat)
    requires |pkg| == ITEMS
  {
    && (forall i: nat :: i < k && i < ITEMS ==> Untouched(orig, f, i) || Moved(orig, f, i) || Replaced(orig, pkg, f, i))
    && (forall i: nat :: k <= i < ITEMS ==> Untouched(orig, f, i))
  }

  lemma UndoingUpTo(orig: Files, pkg: seq<Content>, f: Files, k: nat)
    requires |pkg| == ITEMS && k < ITEMS && forall i: nat :: i < k ==> Replaced(orig, pkg, f, i)
    requires Untouched(orig, f, k) || Moved(orig, f, k) || Replaced(orig, pkg, f, k)
    requires forall i: nat :: k < i < ITEMS ==> Untouched(orig, f, i)
    ensures Undoing(orig, pkg, f, k + 1)
  {
  }

  lemma UndoingAll(orig: Files, pkg: seq<Content>, f: Files)
    requires |pkg| == ITEMS && forall i: nat :: i < ITEMS ==> Replaced(orig, pkg, f, i)
    ensures Undoing(orig, pkg, f, ITEMS)
  {
  }

  // An operation on one item's paths leaves every other item at its stage.
  ghost predicate OnlyItem(f: Files, g: Files, k: nat) {
    forall q: Path :: q.Elsewhere? || q.item != k ==> (q in g <==> q in f) && (q in g ==> g[q] == f[q])
  }

  lemma OtherItems(orig: Files, pkg: seq<Content>, f: Files, g: Files, k: nat)
    requires |pkg| == ITEMS && OnlyItem(f, g, k)
    ensures forall i: nat :: i < ITEMS && i != k ==>
              && Untouched(orig, f, i) == Untouched(orig, g, i)
              && Moved(orig, f, i) == Moved(orig, g, i)
    ensures forall i: nat :: i < ITEMS && i != k ==>
              && Replaced(orig, pkg, f, i) == Replaced(orig, pkg, g, i)
              && Ready(pkg, f, i) == Ready(pkg, g, i)
  {
  }

  // Nothing is lost while one item is in hand and the rest are at a known stage.
  lemma StagesLoseNothing(orig: Files, pkg: seq<Content>, f: Files, k: nat)
    requires |pkg| == ITEMS
    requires forall i: nat :: i < ITEMS && i != k ==>
               Untouched(orig, f, i) || Moved(orig, f, i) || Replaced(orig, pkg, f, i)
    requires k < ITEMS ==> Kept(orig, f, k)
    ensures NoneLost(orig, f)
  {
    forall i: nat | i < ITEMS ensures Kept(orig, f, i) {
      assert i != k ==> Untouched(orig, f, i) || Moved(orig, f, i) || Replaced(orig, pkg, f, i);
    }
  }

  lemma AllUntouchedIsAllOld(orig: Files, f: Files)
    requires forall i: nat :: i < ITEMS ==> Untouched(orig, f, i)
    ensures AllOld(orig, f) && NoneLost(orig, f)
  {
    forall i: nat | i < ITEMS ensures Original(orig, f, i) && Kept(orig, f, i) {
      assert Untouched(orig, f, i);
    }
  }

  lemma AllOldIsInPlace(orig: Files, f: Files)
    requires AllOld(orig, f)
    ensures InPlace(orig, f)
  {
    forall i: nat | i < ITEMS ensures ItemInPlace(orig, f, i) {
      assert Original(orig, f, i);
    }
  }

  lemma AllReplacedIsAllNew(orig: Files, pkg: seq<Content>, f: Files)
    requires |pkg| == ITEMS && forall i: nat :: i < ITEMS ==> Replaced(orig, pkg, f, i)
    ensures AllNew(pkg, f)
  {
    forall i: nat | i < ITEMS ensures Installed(pkg, f, i) {
      assert Replaced(orig, pkg, f, i);
    }
  }

  // Whether the items are all old, or all new, is a matter of the targets alone.
  lemma SameTargets(orig: Files, pkg: seq<Content>, f: Files, g: Files)
    requires |pkg| == ITEMS
    requires forall q: Path :: q.Target? ==> (q in g <==> q in f) && (q in g ==> g[q] == f[q])
    ensures AllOld(orig, f) ==> AllOld(orig, g)
    ensures AllNew(pkg, f) ==> AllNew(pkg, g)
  {
    forall i: nat | i < ITEMS
      ensures Original(orig, f, i) ==> Original(orig, g, i)
      ensures Installed(pkg, f, i) ==> Installed(pkg, g, i)
    {
    }
  }

  lemma SameInPlace(orig: Files, f: Files, g: Files)
    requires OnlyWork(f, g)
    ensures forall i: nat :: i < ITEMS ==> (ItemInPlace(orig, f, i) <==> ItemInPlace(orig, g, i))
    ensures InPlace(orig, f) ==> NoneLost(orig, g)
  {
    forall i: nat | i < ITEMS ensures ItemInPlace(orig, f, i) <==> ItemInPlace(orig, g, i) {
      assert Target(i) in f <==> Target(i) in g;
    }
    if InPlace(orig, f) {
      forall i: nat | i < ITEMS ensures Kept(orig, g, i) {
        assert ItemInPlace(orig, f, i);
      }
    }
  }

  // ---- How far the replacements came ----------------------------------------------------

  // The renames of the items before the `i`-th: two for an item with an original, else one.
  function RenamesBefore(orig: Files, i: nat): nat {
    if i == 0 then 0 else RenamesBefore(orig, i - 1) + if Target(i - 1) in orig then 2 else 1
  }

  lemma {:induction false} RenamesGrow(orig: Files, i: nat, j: nat)
    requires i <= j
    ensures RenamesBefore(orig, i) + (j - i) <= RenamesBefore(orig, j) <= RenamesBefore(orig, i) + 2 * (j - i)
    decreases j
  {
    if i < j { RenamesGrow(orig, i, j - 1); }
  }

  // The stage of an item once the first `n` renames have taken effect.
  ghost predicate StageAfter(orig: Files, pkg: seq<Content>, f: Files, n: int, i: nat)
    requires |pkg| == ITEMS && i < ITEMS
  {
    if n <= RenamesBefore(orig, i) then Untouched(orig, f, i)
    else if n < RenamesBefore(orig, i + 1) then Moved(orig, f, i)
    else Replaced(orig, pkg, f, i)
  }

  ghost predicate StagesAfter(orig: Files, pkg: seq<Content>, f: Files, n: int)
    requires |pkg| == ITEMS
  {
    forall i: nat :: i < ITEMS ==> StageAfter(orig, pkg, f, n, i)
  }

  lemma StagesAround(orig: Files, pkg: seq<Content>, f: Files, n: int, k: nat)
    requires |pkg| == ITEMS && k < ITEMS && StageAfter(orig, pkg, f, n, k)
    requires RenamesBefore(orig, k) <= n <= RenamesBefore(orig, k + 1)
    requires forall i: nat :: i < k ==> Replaced(orig, pkg, f, i)
    requires forall i: nat :: k < i < ITEMS ==> Untouched(orig, f, i)
    ensures StagesAfter(orig, pkg, f, n)
  {
    forall i: nat | i < ITEMS ensures StageAfter(orig, pkg, f, n, i) {
      if i < k { RenamesGrow(orig, i, i + 1); RenamesGrow(orig, i + 1, k); }
      if i > k { RenamesGrow(orig, k + 1, i); }
    }
  }

  lemma StagesAtStart(orig: Files, pkg: seq<Content>, f: Files, n: int)
    requires |pkg| == ITEMS && n <= 0
    requires forall i: nat :: i < ITEMS ==> Untouched(orig, f, i)
    ensures StagesAfter(orig, pkg, f, n)
  {
  }

  lemma StagesAtEnd(orig: Files, pkg: seq<Content>, f: Files, n: int)
    requires |pkg| == ITEMS && RenamesBefore(orig, |pkg|) <= n
    requires forall i: nat :: i < ITEMS ==> Replaced(orig, pkg, f, i)
    ensures StagesAfter(orig, pkg, f, n)
  {
    forall i: nat | i < ITEMS ensures StageAfter(orig, pkg, f, n, i) {
      RenamesGrow(orig, i, i + 1);
      RenamesGrow(orig, i + 1, |pkg|);
    }
  }

  // An original that these renames have moved, and not replaced by the same content.
  predicate Displaced(orig: Files, pkg: seq<Content>, n: int, i: nat)
    requires |pkg| == ITEMS && i < ITEMS
  {
    && Target(i) in orig && n > RenamesBefore(orig, i)
    && !(n >= RenamesBefore(orig, i + 1) && pkg[i] == orig[Target(i)])
  }

  lemma DisplacedExactly(orig: Files, pkg: seq<Content>, f: Files, n: int, i: nat)
    requires |pkg| == ITEMS && i < ITEMS && StagesAfter(orig, pkg, f, n)
    ensures ItemInPlace(orig, f, i) <==> !Displaced(orig, pkg, n, i)
  {
    assert StageAfter(orig, pkg, f, n, i);
  }

  // Nothing but staged files and backups changed.
  ghost predicate OnlyWork(f: Files, g: Files) {
    forall q: Path :: q.Target? || q.Elsewhere? ==> (q in g <==> q in f) && (q in g ==> g[q] == f[q])
  }

  // What the deletion of its work directory makes of one path.
  ghost predicate AfterRemoval(fault: Fault, p: Path, f: Files, g: Files) {
    if fault == Before then Agree(f, g, p)
    else (p in g <==> p in f && fault.Torn? && p in fault.kept) && (p in g ==> g[p] == fault.kept[p])
  }

  predicate Spares(fault: Fault, p: Path, content: Content) {
    fault == Before || (fault.Torn? && p in fault.kept && fault.kept[p] == content)
  }

  predicate InWork(p: Path, unitWork: bool) {
    (p.Staged? || p.Backup?) && (unitWork <==> p.item == PAYLOAD)
  }

  function ActivityAfter(command: Command, fault: Fault, activity: Activity): Activity {
    if command != Start && command != Stop then activity
    else if fault == Clean || fault == After then if command == Start then Active else Inactive
    else if fault.Torn? then fault.activity
    else activity
  }

  function EnablementAfter(command: Command, fault: Fault, enablement: Enablement): Enablement {
    if fault != Clean && fault != After then enablement
    else if command == Enable then Enabled
    else if command == Disable then Disabled
    else enablement
  }

  lemma Joins(a: seq<Command>, b: seq<Command>, c: seq<Command>)
    ensures (a + b) + c == a + (b + c)
  {
  }

  class Host {
    const faults: nat -> Fault
    const pkg: seq<Content>

    var files: Files
    var activity: Activity
    var enablement: Enablement
    var reloaded: bool            // daemon-reload has run since a target last changed
    var clock: nat
    var committed: bool

    ghost const orig: Files       // the files this run found
    ghost var trail: seq<Moment>  // after every operation of this run
    ghost var issued: seq<Command> // the service commands, in order
    ghost var starts: seq<Moment> // when `systemctl start` was issued
    ghost var disturbed: bool     // a target has changed under a running service
    ghost var strayLink: bool     // the unit was enabled or disabled while it was not the new one
    ghost var checks: seq<Activity> // what the health checks found
    ghost var ending: Ending
    ghost var failedAt: nat       // the operation at which the transaction failed
    ghost var stopped: Files      // the files at that moment
    ghost var sweeping: bool      // the work directories are being deleted
    ghost var sweptFrom: Files    // the files when that began
    ghost var sweptAt: nat
    ghost var swept: bool         // and it completed

    ghost predicate Valid()
      reads this`files, this`trail, this`clock, this`sweeping, this`starts, this`disturbed, this`strayLink
    {
      && |pkg| == ITEMS && OthersUntouched(orig, files) && |trail| == clock && TrailSafe() && StartsWhole()
      && !disturbed && !strayLink
    }

    ghost predicate TrailSafe()
      reads this`trail, this`sweeping
    {
      forall m :: m in trail ==> (m.sweeping ==> sweeping) && (m.sweeping || NoneLost(orig, m.files))
    }

    ghost predicate StartsWhole()
      reads this`starts
      requires |pkg| == ITEMS
    {
      forall m :: m in starts ==> m.reloaded && (AllNew(pkg, m.files) || AllOld(orig, m.files))
    }

    // A start needs a whole version that systemd has read; enabling and disabling, the new unit.
    ghost predicate MayIssue(command: Command)
      reads this`files, this`reloaded
      requires |pkg| == ITEMS
    {
      && (command == Start ==> reloaded && (AllNew(pkg, files) || AllOld(orig, files)))
      && (command == Enable || command == Disable ==> reloaded && AllNew(pkg, files))
    }

    predicate Faulty(k: nat) {
      faults(k) != Clean
    }

    // No operation from the `from`-th up to the `to`-th is faulty.
    ghost predicate Quiet(from: nat, to: nat) {
      forall k :: from <= k < to ==> !Faulty(k)
    }

    // Some operation since the `from`-th one was faulty.
    ghost predicate Tripped(from: nat)
      reads this`clock
    {
      exists k :: from <= k < clock && Faulty(k)
    }

    constructor (faults: nat -> Fault, pkg: seq<Content>, files: Files, activity: Activity, enablement: Enablement)
      ensures this.faults == faults && this.pkg == pkg
      ensures this.files == files && this.activity == activity && this.enablement == enablement
      ensures !committed && !reloaded && clock == 0
      ensures orig == files && trail == [] && issued == [] && starts == [] && checks == []
      ensures ending == Unstarted && !disturbed && !strayLink && !sweeping && !swept
    {
      this.faults, this.pkg := faults, pkg;
      this.files, this.activity, this.enablement := files, activity, enablement;
      reloaded, clock, committed := false, 0, false;
      orig, trail, issued, starts, checks := files, [], [], [], [];
      disturbed, strayLink := false, false;
      ending, failedAt, stopped := Unstarted, 0, files;
      sweeping, sweptFrom, sweptAt, swept := false, files, 0, false;
    }

    // ---- Operations ----------------------------------------------------------------------

    // os.replace: atomic, and refused when it would overwrite a non-empty directory.
    method Rename(src: Path, dst: Path) returns (ok: bool)
      requires src != dst && (src.Target? || dst.Target? ==> activity != Active)
      modifies this`files, this`clock, this`trail, this`reloaded, this`disturbed
      ensures disturbed == old(disturbed)
      ensures files == old(files) || (src in old(files) && files == (old(files) - {src})[dst := old(files)[src]])
      ensures src in old(files) && dst !in old(files) ==>
                (files == old(files) <==> faults(old(clock)) != Clean && faults(old(clock)) != After)
      ensures ok ==> src in old(files) && files == (old(files) - {src})[dst := old(files)[src]]
      ensures trail == old(trail) + [Moment(files, sweeping, reloaded)]
      ensures clock == old(clock) + 1 && (ok ==> !Faulty(old(clock)))
      ensures src in old(files) && dst !in old(files) && !Faulty(old(clock)) ==> ok
    {
      var fault := faults(clock);
      clock := clock + 1;
      disturbed := disturbed || ((src.Target? || dst.Target?) && activity == Active);
      var allowed := src in files
        && (dst !in files || (files[src].File? && files[dst].File?) || (files[src].Tree? && files[dst] == Tree(map[])));
      if allowed && (fault == Clean || fault == After) {
        files := (files - {src})[dst := files[src]];
        reloaded := reloaded && !src.Target? && !dst.Target?;
      }
      ok := allowed && fault == Clean;
      trail := trail + [Moment(files, sweeping, reloaded)];
    }

    // shutil.rmtree on a directory, Path.unlink on a file.
    method Remove(p: Path) returns (ok: bool)
      requires p in files && (p.Target? ==> activity != Active)
      modifies this`files, this`clock, this`trail, this`reloaded, this`disturbed
      ensures disturbed == old(disturbed)
      ensures forall q :: q != p ==> (q in files <==> q in old(files))
      ensures forall q :: q != p && q in files ==> files[q] == old(files)[q]
      ensures ok ==> p !in files
      ensures trail == old(trail) + [Moment(files, sweeping, reloaded)]
      ensures clock == old(clock) + 1 && (ok <==> !Faulty(old(clock)))
    {
      var fault := faults(clock);
      clock := clock + 1;
      disturbed := disturbed || (p.Target? && activity == Active);
      if fault == Clean || fault == After {
        files := files - {p};
      } else if fault.Torn? && files[p].Tree? {
        files := if fault.left.Some? then files[p := fault.left.value] else files - {p};
      }
      reloaded := reloaded && !p.Target?;
      ok := fault == Clean;
      trail := trail + [Moment(files, sweeping, reloaded)];
    }

    // shutil.copytree or copy2 into a work directory, with the chmods that follow.
    method Copy(content: Content, p: Path) returns (ok: bool)
      requires p.Staged?
      modifies this`files, this`clock, this`trail
      ensures forall q :: q != p ==> (q in files <==> q in old(files))
      ensures forall q :: q != p && q in files ==> files[q] == old(files)[q]
      ensures ok ==> p in files && files[p] == content
      ensures trail == old(trail) + [Moment(files, sweeping, reloaded)]
      ensures clock == old(clock) + 1 && (ok <==> !Faulty(old(clock)))
    {
      var fault := faults(clock);
      clock := clock + 1;
      if fault == Clean || fault == After {
        files := files[p := content];
      } else if fault.Torn? && fault.left.Some? {
        files := files[p := fault.left.value];
      }
      ok := fault == Clean;
      trail := trail + [Moment(files, sweeping, reloaded)];
    }

    // shutil.rmtree on one work directory.
    method RemoveWork(unitWork: bool) returns (ok: bool)
      modifies this`files, this`clock, this`trail
      ensures OnlyWork(old(files), files)
      ensures forall q: Path :: InWork(q, unitWork) ==>
                AfterRemoval(faults(old(clock)), q, old(files), files)
      ensures forall q: Path :: (q.Staged? || q.Backup?) && !InWork(q, unitWork) ==>
                Agree(old(files), files, q)
      ensures trail == old(trail) + [Moment(files, sweeping, reloaded)]
      ensures clock == old(clock) + 1 && (ok <==> !Faulty(old(clock)))
    {
      var fault := faults(clock);
      clock := clock + 1;
      if fault != Before {
        var kept := if fault.Torn? then fault.kept else map[];
        files := map p | p in files && (!InWork(p, unitWork) || p in kept)
          :: if InWork(p, unitWork) then kept[p] else files[p];
      }
      ok := fault == Clean;
      trail := trail + [Moment(files, sweeping, reloaded)];
    }

    // Note the world after an operation.
    ghost method Record()
      requires |pkg| == ITEMS && OthersUntouched(orig, files) && |trail| + 1 == clock && TrailSafe() && StartsWhole()
      requires !disturbed && !strayLink && (sweeping || NoneLost(orig, files))
      modifies this`trail
      ensures Valid() && trail == old(trail) + [Moment(files, sweeping, reloaded)]
    {
      trail := trail + [Moment(files, sweeping, reloaded)];
    }

    // Note a service command, and at a start the world.
    ghost method Note(command: Command)
      requires |pkg| == ITEMS && StartsWhole() && !strayLink && MayIssue(command)
      modifies this`issued, this`starts, this`strayLink
      ensures StartsWhole() && !strayLink && issued == old(issued) + [command]
      ensures starts == if command == Start then old(starts) + [Moment(files, sweeping, reloaded)] else old(starts)
    {
      issued := issued + [command];
      if command == Start {
        starts := starts + [Moment(files, sweeping, reloaded)];
      } else if command == Enable || command == Disable {
        strayLink := strayLink || !(reloaded && AllNew(pkg, files));
      }
    }

    method Systemctl(command: Command) returns (ok: bool)
      requires Valid() && NoneLost(orig, files) && MayIssue(command)
      modifies this`activity, this`enablement, this`reloaded, this`clock, this`trail, this`issued
      modifies this`starts, this`strayLink
      ensures Valid() && issued == old(issued) + [command]
      ensures command == Reload ==> activity == old(activity) && enablement == old(enablement) && (ok ==> reloaded)
      ensures command != Reload ==> reloaded == old(reloaded)
      ensures command == Stop || command == Start ==>
                enablement == old(enablement) && (ok ==> activity == if command == Start then Active else Inactive)
      ensures command == Enable || command == Disable ==>
                && activity == old(activity)
                && enablement in {old(enablement), if command == Enable then Enabled else Disabled}
                && (ok ==> enablement == if command == Enable then Enabled else Disabled)
      ensures clock == old(clock) + 1 && (ok <==> !Faulty(old(clock)))
    {
      var fault := faults(clock);
      Note(command);
      clock := clock + 1;
      activity := ActivityAfter(command, fault, activity);
      enablement := EnablementAfter(command, fault, enablement);
      reloaded := reloaded || (command == Reload && (fault == Clean || fault == After));
      ok := fault == Clean;
      Record();
    }

    // One health check: wait, then ask for the state, which may have changed meanwhile.
    method StillActive() returns (ok: bool)
      requires Valid() && NoneLost(orig, files)
      modifies this`activity, this`clock, this`trail, this`checks
      ensures Valid() && clock == old(clock) + 1
      ensures ok ==> activity == Active && checks == old(checks) + [Active]
      ensures old(activity) == Active ==> (ok <==> FindsActive(old(clock)))
    {
      var fault := faults(clock);
      clock := clock + 1;
      if fault.Torn? {
        activity := fault.activity;
      }
      ok := false;
      if fault == Clean || fault.Torn? {
        checks := checks + [activity];
        ok := activity == Active;
      }
      Record();
    }

    // A step with no effect of its own, such as a message, that an interrupt or a closed pipe
    // can stop.
    method Checkpoint() returns (ok: bool)
      requires Valid() && NoneLost(orig, files)
      modifies this`clock, this`trail
      ensures Valid() && clock == old(clock) + 1 && (ok <==> !Faulty(old(clock)))
    {
      ok := faults(clock) == Clean;
      clock := clock + 1;
      Record();
    }

    // A service that was active until this operation is found active by it.
    predicate FindsActive(t: nat) {
      faults(t) == Clean || (faults(t).Torn? && faults(t).activity == Active)
    }

    // ---- The transaction --------------------------------------------------------------------

    // Copy the verified package beside the destinations.
    method Stage() returns (ok: bool)
      requires Valid() && forall i: nat :: i < ITEMS ==> Untouched(orig, files, i)
      modifies this`files, this`clock, this`trail
      ensures Valid() && forall i: nat :: i < ITEMS ==> Untouched(orig, files, i)
      ensures ok ==> forall i: nat :: i < ITEMS ==> Ready(pkg, files, i)
      ensures if ok then clock == old(clock) + ITEMS else old(clock) < clock <= old(clock) + ITEMS && Faulty(clock - 1)
      ensures ok ==> Quiet(old(clock), clock)
    {
      for k := 0 to ITEMS
        invariant Valid() && forall i: nat :: i < ITEMS ==> Untouched(orig, files, i)
        invariant forall i: nat :: i < k ==> Ready(pkg, files, i)
        invariant clock == old(clock) + k && Quiet(old(clock), clock)
      {
        ghost var before := files;
        ok := Copy(pkg[k], Staged(k));
        OtherItems(orig, pkg, before, files, k);
        assert Untouched(orig, before, k);
        StagesLoseNothing(orig, pkg, files, ITEMS);
        if !ok {
          return;
        }
      }
      ok := true;
    }

    // How many of the renames begun at `from` have taken effect when operation `t` fails.
    function Took(from: nat, t: int): int
      requires t >= 0
    {
      t - from + if faults(t) == After then 1 else 0
    }

    predicate Effective(t: nat) {
      faults(t) == Clean || faults(t) == After
    }

    // The other items are at stages that lose nothing.
    ghost predicate OthersKnown(k: nat)
      reads this`files
      requires |pkg| == ITEMS
    {
      forall i: nat :: i < ITEMS && i != k ==>
        Untouched(orig, files, i) || Moved(orig, files, i) || Replaced(orig, pkg, files, i)
    }

    method MoveAside(k: nat) returns (ok: bool)
      requires Valid() && activity != Active && k < ITEMS
      requires OthersKnown(k) && Untouched(orig, files, k) && Target(k) in files
      modifies this`files, this`clock, this`trail, this`reloaded, this`disturbed
      ensures Valid() && OnlyItem(old(files), files, k) && Agree(old(files), files, Staged(k))
      ensures if Effective(old(clock)) then Moved(orig, files, k) else files == old(files)
      ensures clock == old(clock) + 1 && (ok <==> !Faulty(old(clock)))
    {
      ok := Rename(Target(k), Backup(k));
      OtherItems(orig, pkg, old(files), files, k);
      StagesLoseNothing(orig, pkg, files, k);
    }

    method PutInPlace(k: nat) returns (ok: bool)
      requires Valid() && activity != Active && k < ITEMS
      requires OthersKnown(k) && Ready(pkg, files, k) && Target(k) !in files
      requires Untouched(orig, files, k) || Moved(orig, files, k)
      modifies this`files, this`clock, this`trail, this`reloaded, this`disturbed
      ensures Valid() && OnlyItem(old(files), files, k)
      ensures if Effective(old(clock)) then Replaced(orig, pkg, files, k) else files == old(files)
      ensures clock == old(clock) + 1 && (ok <==> !Faulty(old(clock)))
    {
      ok := Rename(Staged(k), Target(k));
      OtherItems(orig, pkg, old(files), files, k);
      StagesLoseNothing(orig, pkg, files, k);
    }

    // Move one original aside, when there is one, and put its replacement in place.
    method ReplaceOne(k: nat) returns (ok: bool)
      requires Valid() && activity != Active && k < ITEMS
      requires forall i: nat :: i < k ==> Replaced(orig, pkg, files, i)
      requires forall i: nat :: k <= i < ITEMS ==> Untouched(orig, files, i) && Ready(pkg, files, i)
      modifies this`files, this`clock, this`trail, this`reloaded, this`disturbed
      ensures Valid()
      ensures forall i: nat :: i < k ==> Replaced(orig, pkg, files, i)
      ensures forall i: nat :: k < i < ITEMS ==> Untouched(orig, files, i) && Ready(pkg, files, i)
      ensures if ok then Replaced(orig, pkg, files, k)
              else Untouched(orig, files, k) || Moved(orig, files, k) || Replaced(orig, pkg, files, k)
      ensures old(clock) < clock <= old(clock) + RenamesBefore(orig, k + 1) - RenamesBefore(orig, k)
      ensures ok ==> clock == old(clock) + RenamesBefore(orig, k + 1) - RenamesBefore(orig, k)
      ensures !ok ==> StageAfter(orig, pkg, files, RenamesBefore(orig, k) + Took(old(clock), clock - 1), k)
      ensures if ok then Quiet(old(clock), clock) else Faulty(clock - 1) && Quiet(old(clock), clock - 1)
    {
      ghost var before := files;
      assert Untouched(orig, before, k) && Ready(pkg, before, k);
      ok := true;
      if Target(k) in files {
        ok := MoveAside(k);
        OtherItems(orig, pkg, before, files, k);
      }
      if ok {
        ghost var moved := files;
        ok := PutInPlace(k);
        OtherItems(orig, pkg, moved, files, k);
      }
    }

    // Replace every item, noting each before it is touched, up to the first that fails.
    method ReplaceItems() returns (ok: bool, changes: seq<Change>)
      requires Valid() && activity != Active
      requires forall i: nat :: i < ITEMS ==> Untouched(orig, files, i) && Ready(pkg, files, i)
      modifies this`files, this`clock, this`trail, this`reloaded, this`disturbed
      ensures Valid() && Logged(orig, changes)
      ensures ok ==> |changes| == ITEMS && forall i: nat :: i < ITEMS ==> Replaced(orig, pkg, files, i)
      ensures ok ==> clock == old(clock) + RenamesBefore(orig, |pkg|) && Quiet(old(clock), clock)
      ensures !ok ==> clock > old(clock) && Faulty(clock - 1) && Quiet(old(clock), clock - 1)
      ensures !ok ==> |changes| > 0 && StoppedAt(files, |changes| - 1, Took(old(clock), clock - 1))
      ensures clock <= old(clock) + RenamesBefore(orig, |changes|)
    {
      changes := [];
      for k := 0 to ITEMS
        invariant Valid() && Logged(orig, changes) && |changes| == k
        invariant clock == old(clock) + RenamesBefore(orig, k) && Quiet(old(clock), clock)
        invariant forall i: nat :: i < k ==> Replaced(orig, pkg, files, i)
        invariant forall i: nat :: k <= i < ITEMS ==> Untouched(orig, files, i) && Ready(pkg, files, i)
      {
        assert Untouched(orig, files, k);
        changes := changes + [Change(k, Target(k) in files)];
        ok := ReplaceOne(k);
        if !ok {
          return;
        }
      }
      ok := true;
    }

    // The items below `k` are replaced, those above are untouched, and the `k`-th is where `n`
    // renames leave it.
    ghost predicate StoppedAt(f: Files, k: nat, n: int)
      requires |pkg| == ITEMS
    {
      && k < ITEMS && RenamesBefore(orig, k) <= n <= RenamesBefore(orig, k + 1) && StageAfter(orig, pkg, f, n, k)
      && (forall i: nat :: i < k ==> Replaced(orig, pkg, f, i))
      && (forall i: nat :: k < i < ITEMS ==> Untouched(orig, f, i))
    }

    method ReplaceAll() returns (ok: bool, changes: seq<Change>)
      requires Valid() && activity != Active
      requires forall i: nat :: i < ITEMS ==> Untouched(orig, files, i) && Ready(pkg, files, i)
      modifies this`files, this`clock, this`trail, this`reloaded, this`disturbed
      ensures Valid() && Logged(orig, changes) && Undoing(orig, pkg, files, |changes|)
      ensures ok ==> |changes| == ITEMS && forall i: nat :: i < ITEMS ==> Replaced(orig, pkg, files, i)
      ensures !ok ==> |changes| > 0 && forall i: nat :: i < |changes| - 1 ==> Replaced(orig, pkg, files, i)
      ensures old(clock) < clock <= old(clock) + RenamesBefore(orig, |pkg|)
      ensures ok ==> clock == old(clock) + RenamesBefore(orig, |pkg|)
      ensures !ok ==> StagesAfter(orig, pkg, files, Took(old(clock), clock - 1))
      ensures if ok then Quiet(old(clock), clock) else Faulty(clock - 1) && Quiet(old(clock), clock - 1)
    {
      ok, changes := ReplaceItems();
      if ok {
        RenamesGrow(orig, 0, |pkg|);
        UndoingAll(orig, pkg, files);
      } else {
        RenamesGrow(orig, |changes|, |pkg|);
        UndoingUpTo(orig, pkg, files, |changes| - 1);
        StagesAround(orig, pkg, files, Took(old(clock), clock - 1), |changes| - 1);
      }
    }

    method RemoveNew(k: nat) returns (ok: bool)
      requires Valid() && activity != Active && k < ITEMS && OthersKnown(k) && Replaced(orig, pkg, files, k)
      modifies this`files, this`clock, this`trail, this`reloaded, this`disturbed
      ensures Valid() && NoneLost(orig, files) && OnlyItem(old(files), files, k)
      ensures ok ==> if Target(k) in orig then Moved(orig, files, k) else Untouched(orig, files, k)
      ensures clock == old(clock) + 1 && (!ok ==> Faulty(old(clock)))
    {
      ok := Remove(Target(k));
      OtherItems(orig, pkg, old(files), files, k);
      StagesLoseNothing(orig, pkg, files, k);
    }

    method PutBack(k: nat) returns (ok: bool)
      requires Valid() && activity != Active && k < ITEMS && OthersKnown(k) && Moved(orig, files, k)
      modifies this`files, this`clock, this`trail, this`reloaded, this`disturbed
      ensures Valid() && NoneLost(orig, files) && OnlyItem(old(files), files, k)
      ensures ok ==> Untouched(orig, files, k)
      ensures clock == old(clock) + 1 && (!ok ==> Faulty(old(clock)))
    {
      ok := Rename(Backup(k), Target(k));
      OtherItems(orig, pkg, old(files), files, k);
      StagesLoseNothing(orig, pkg, files, k);
    }

    // Put one item back. The new version goes first, then the backup returns.
    method Undo(change: Change) returns (ok: bool)
      requires Valid() && activity != Active && change.item < ITEMS && Undoing(orig, pkg, files, change.item + 1)
      requires change.hadOld == (Target(change.item) in orig)
      modifies this`files, this`clock, this`trail, this`reloaded, this`disturbed
      ensures Valid() && NoneLost(orig, files)
      ensures ok ==> Undoing(orig, pkg, files, change.item)
      ensures clock >= old(clock) && (!ok ==> Tripped(old(clock)))
    {
      var k := change.item;
      ghost var before := files;
      assert Untouched(orig, before, k) || Moved(orig, before, k) || Replaced(orig, pkg, before, k);
      StagesLoseNothing(orig, pkg, files, ITEMS);
      if change.hadOld && Backup(k) !in files {
        return true; // the original was never moved
      }
      ok := true;
      if Target(k) in files {
        ok := RemoveNew(k);
        OtherItems(orig, pkg, before, files, k);
      }
      ghost var removed := files;
      if ok && change.hadOld {
        ok := PutBack(k);
        OtherItems(orig, pkg, removed, files, k);
      }
    }

    method UndoAll(changes: seq<Change>) returns (ok: bool)
      requires Valid() && Logged(orig, changes) && Undoing(orig, pkg, files, |changes|)
      requires changes != [] ==> activity != Active
      modifies this`files, this`clock, this`trail, this`reloaded, this`disturbed
      ensures Valid() && NoneLost(orig, files)
      ensures ok ==> forall i: nat :: i < ITEMS ==> Untouched(orig, files, i)
      ensures clock >= old(clock) && (!ok ==> Tripped(old(clock)))
    {
      var k := |changes|;
      while k > 0
        invariant 0 <= k <= |changes| && Valid() && Undoing(orig, pkg, files, k) && clock >= old(clock)
      {
        k := k - 1;
        ok := Undo(changes[k]);
        if !ok { return; }
      }
      StagesLoseNothing(orig, pkg, files, ITEMS);
      ok := true;
    }

    // The service commands of a rollback that completes.
    function Reverting(wasActive: bool, wasEnabled: bool, enableAttempted: bool, startAttempted: bool): seq<Command> {
      Withdrawing(wasEnabled, enableAttempted, startAttempted) + Resuming(wasActive)
    }

    function Withdrawing(wasEnabled: bool, enableAttempted: bool, startAttempted: bool): seq<Command> {
      (if startAttempted then [Stop] else []) + (if enableAttempted && !wasEnabled then [Disable] else [])
    }

    function Resuming(wasActive: bool): seq<Command> {
      [Reload] + if wasActive then [Start] else []
    }

    // Stop what was started. Disabling comes before the files go back, so that a failed fresh
    // install can drop its links.
    method Withdraw(wasEnabled: bool, enableAttempted: bool, startAttempted: bool) returns (ok: bool)
      requires Valid() && NoneLost(orig, files) && (enableAttempted ==> reloaded && AllNew(pkg, files))
      modifies this`activity, this`enablement, this`reloaded, this`clock, this`trail, this`issued
      modifies this`starts, this`strayLink
      ensures Valid()
      ensures ok ==> issued == old(issued) + Withdrawing(wasEnabled, enableAttempted, startAttempted)
      ensures ok ==> activity == if startAttempted then Inactive else old(activity)
      ensures ok ==> enablement == if enableAttempted && !wasEnabled then Disabled else old(enablement)
      ensures clock >= old(clock) && (!ok ==> Tripped(old(clock)))
    {
      ok := true;
      if startAttempted {
        ok := Systemctl(Stop);
        if !ok { return; }
      }
      if enableAttempted && !wasEnabled {
        ok := Systemctl(Disable);
      }
    }

    method Resume(wasActive: bool) returns (ok: bool)
      requires Valid() && forall i: nat :: i < ITEMS ==> Untouched(orig, files, i)
      modifies this`activity, this`enablement, this`reloaded, this`clock, this`trail, this`issued
      modifies this`starts, this`strayLink
      ensures Valid() && enablement == old(enablement)
      ensures ok ==> reloaded && issued == old(issued) + Resuming(wasActive)
      ensures ok ==> activity == if wasActive then Active else old(activity)
      ensures clock >= old(clock) && (!ok ==> Tripped(old(clock)))
    {
      AllUntouchedIsAllOld(orig, files);
      ok := Systemctl(Reload);
      if ok && wasActive {
        ok := Systemctl(Start);
      }
    }

    method Rollback(changes: seq<Change>, wasActive: bool, wasEnabled: bool,
                    enableAttempted: bool, startAttempted: bool) returns (ok: bool)
      requires Valid() && Logged(orig, changes) && Undoing(orig, pkg, files, |changes|)
      requires changes != [] && activity == Active ==> startAttempted
      requires enableAttempted ==> reloaded && AllNew(pkg, files)
      modifies this`files, this`activity, this`enablement, this`reloaded, this`clock, this`trail
      modifies this`issued, this`starts, this`disturbed, this`strayLink
      ensures Valid() && NoneLost(orig, files)
      ensures ok ==> forall i: nat :: i < ITEMS ==> Untouched(orig, files, i)
      ensures ok ==> reloaded
      ensures ok ==> issued == old(issued) + Reverting(wasActive, wasEnabled, enableAttempted, startAttempted)
      ensures ok && wasActive ==> activity == Active
      ensures ok && !wasActive ==> activity == if startAttempted then Inactive else old(activity)
      ensures ok ==> enablement == if enableAttempted && !wasEnabled then Disabled else old(enablement)
      ensures clock >= old(clock) && (!ok ==> Tripped(old(clock)))
    {
      StagesLoseNothing(orig, pkg, files, ITEMS);
      ok := Withdraw(wasEnabled, enableAttempted, startAttempted);
      if !ok { return; }
      ok := UndoAll(changes);
      if !ok { return; }
      AllUntouchedIsAllOld(orig, files);
      ok := Resume(wasActive);
      Joins(old(issued), Withdrawing(wasEnabled, enableAttempted, startAttempted), Resuming(wasActive));
    }

    // Whether operation `t` fails, when the activation begins at `from`: a health check fails when
    // it does not find the service active, anything else when it is faulty.
    predicate Fails(from: nat, activate: bool, t: nat) {
      if activate && from + 4 <= t < from + 9 then !FindsActive(t) else Faulty(t)
    }

    ghost predicate NoneFails(from: nat, activate: bool, first: nat, end: nat) {
      forall t :: first <= t < end ==> !Fails(from, activate, t)
    }

    // The service commands among the first `n` operations of an activation.
    function Activating(activate: bool, n: int): seq<Command> {
      if n <= 0 then []
      else if !activate || n < 3 then [Reload]
      else if n == 3 then [Reload, Enable]
      else [Reload, Enable, Start]
    }

    function ActivationSteps(activate: bool): nat {
      if activate then 9 else 1
    }

    function Found(activate: bool): seq<Activity> {
      if activate then [Active, Active, Active, Active, Active] else []
    }

    // daemon-reload, and with `activate` also enable, start and five health checks.
    method Activate(activate: bool) returns (ok: bool, enableAttempted: bool, startAttempted: bool)
      requires Valid() && forall i: nat :: i < ITEMS ==> Replaced(orig, pkg, files, i)
      modifies this`activity, this`enablement, this`reloaded, this`clock, this`trail, this`issued
      modifies this`starts, this`strayLink, this`checks
      ensures Valid() && old(clock) < clock <= old(clock) + ActivationSteps(activate)
      ensures ok ==> clock == old(clock) + ActivationSteps(activate)
      ensures ok ==> NoneFails(old(clock), activate, old(clock), clock)
      ensures !ok ==> Fails(old(clock), activate, clock - 1) && NoneFails(old(clock), activate, old(clock), clock - 1)
      ensures ok ==> reloaded && checks == old(checks) + Found(activate)
      ensures issued == old(issued) + Activating(activate, clock - old(clock))
      ensures ok && activate ==> activity == Active && enablement == Enabled
      ensures !startAttempted ==> activity == old(activity)
      ensures if enableAttempted then reloaded && enablement in {old(enablement), Enabled}
              else enablement == old(enablement)
      ensures enableAttempted <==> activate && clock - old(clock) >= 3
      ensures startAttempted <==> activate && clock - old(clock) >= 4
    {
      enableAttempted, startAttempted := false, false;
      StagesLoseNothing(orig, pkg, files, ITEMS);
      AllReplacedIsAllNew(orig, pkg, files);
      ok := Systemctl(Reload);
      if !ok || !activate { return; }
      ok := Checkpoint();
      if !ok { return; }
      enableAttempted := true;
      ok, startAttempted := Launch();
      Joins(old(issued), [Reload], Launching(clock - old(clock) - 2));
      assert [Reload] + [Enable] == [Reload, Enable] && [Reload] + [Enable, Start] == [Reload, Enable, Start];
      assert forall t: nat :: t >= old(clock) + 2 ==>
               (Fails(old(clock), activate, t) <==> LaunchFails(old(clock) + 2, t));
    }

    function Launching(n: int): seq<Command> {
      if n < 2 then [Enable] else [Enable, Start]
    }

    // Enable, start, and watch it stay up.
    method Launch() returns (ok: bool, startAttempted: bool)
      requires Valid() && NoneLost(orig, files) && reloaded && AllNew(pkg, files)
      modifies this`activity, this`enablement, this`reloaded, this`clock, this`trail, this`issued
      modifies this`starts, this`strayLink, this`checks
      ensures Valid() && reloaded && old(clock) < clock <= old(clock) + 7
      ensures ok ==> clock == old(clock) + 7 && Launched(old(clock), clock)
      ensures !ok ==> LaunchFails(old(clock), clock - 1) && Launched(old(clock), clock - 1)
      ensures issued == old(issued) + Launching(clock - old(clock))
      ensures ok ==> activity == Active && enablement == Enabled && checks == old(checks) + Found(true)
      ensures !startAttempted ==> activity == old(activity)
      ensures enablement in {old(enablement), Enabled} && (startAttempted <==> clock - old(clock) >= 2)
    {
      startAttempted := false;
      ok := Systemctl(Enable);
      if !ok { return; }
      startAttempted := true;
      ok := Systemctl(Start);
      Joins(old(issued), [Enable], [Start]);
      assert [Enable] + [Start] == [Enable, Start];
      if !ok { return; }
      ok := StaysActive();
    }

    // The same of a launch that begins at `from`.
    predicate LaunchFails(from: nat, t: nat) {
      if from + 2 <= t < from + 7 then !FindsActive(t) else Faulty(t)
    }

    ghost predicate Launched(from: nat, end: nat) {
      forall t :: from <= t < end ==> !LaunchFails(from, t)
    }

    // Five health checks, up to the first that does not find the service active.
    method StaysActive() returns (ok: bool)
      requires Valid() && NoneLost(orig, files) && activity == Active
      modifies this`activity, this`clock, this`trail, this`checks
      ensures Valid() && old(clock) < clock <= old(clock) + 5
      ensures forall t :: old(clock) <= t < clock - 1 ==> FindsActive(t)
      ensures if ok then clock == old(clock) + 5 && FindsActive(clock - 1) else !FindsActive(clock - 1)
      ensures ok ==> activity == Active && checks == old(checks) + Found(true)
    {
      ok := true;
      for check := 0 to 5
        invariant Valid() && activity == Active && clock == old(clock) + check && ok
        invariant forall t :: old(clock) <= t < clock ==> FindsActive(t)
        invariant checks == old(checks) + Found(true)[..check]
      {
        ok := StillActive();
        if !ok { return; }
      }
    }

    // The commit flag is set, and the block left; an interrupt may come before, or in between.
    method Commit() returns (ok: bool)
      requires Valid() && NoneLost(orig, files)
      modifies this`clock, this`trail, this`committed
      ensures Valid() && clock == old(clock) + 1 && (ok <==> !Faulty(old(clock)))
      ensures committed <==> old(committed) || faults(old(clock)) != Before
    {
      committed := committed || faults(clock) != Before;
      ok := Checkpoint();
    }

    // After a failure: say so, roll back, and note when that did not complete. `flag` is what the
    // program then believes, and it starts out true.
    method Recover(changes: seq<Change>, wasActive: bool, wasEnabled: bool,
                   enableAttempted: bool, startAttempted: bool) returns (flag: bool)
      requires Valid() && Logged(orig, changes) && Undoing(orig, pkg, files, |changes|)
      requires activity == Active ==> startAttempted || (wasActive && changes == [])
      requires enableAttempted ==> reloaded && AllNew(pkg, files)
      requires (wasEnabled ==> enablement == Enabled) && (enablement == Enabled ==> wasEnabled || enableAttempted)
      requires clock > 0
      modifies this`files, this`activity, this`enablement, this`reloaded, this`clock, this`trail
      modifies this`issued, this`starts, this`disturbed, this`strayLink
      modifies this`ending, this`failedAt, this`stopped
      ensures Valid() && NoneLost(orig, files) && clock > old(clock)
      ensures failedAt == old(clock) - 1 && stopped == old(files)
      ensures ending == Unannounced || ending == RolledBack || ending == RollbackFailed
      ensures ending == Unannounced <==> Faulty(old(clock))
      ensures ending == Unannounced ==> flag && files == old(files) && clock == old(clock) + 1
      ensures ending == RolledBack ==>
                && flag && AllOld(orig, files) && reloaded
                && (activity == Active <==> wasActive) && (enablement == Enabled <==> wasEnabled)
      ensures ending == Unannounced ==> issued == old(issued)
      ensures ending == RolledBack ==>
                issued == old(issued) + Reverting(wasActive, wasEnabled, enableAttempted, startAttempted)
      ensures ending == RollbackFailed ==> (flag <==> Faulty(clock - 1))
      ensures ending == RollbackFailed ==> exists k :: old(clock) < k < clock && Faulty(k)
    {
      StagesLoseNothing(orig, pkg, files, ITEMS);
      failedAt, stopped := clock - 1, files;
      flag := true;
      var told := Checkpoint();
      if !told {
        ending := Unannounced;
        return;
      }
      flag := Restore(changes, wasActive, wasEnabled, enableAttempted, startAttempted);
    }

    // Roll back, and note when that did not complete.
    method Restore(changes: seq<Change>, wasActive: bool, wasEnabled: bool,
                   enableAttempted: bool, startAttempted: bool) returns (flag: bool)
      requires Valid() && Logged(orig, changes) && Undoing(orig, pkg, files, |changes|)
      requires activity == Active ==> startAttempted || (wasActive && changes == [])
      requires enableAttempted ==> reloaded && AllNew(pkg, files)
      modifies this`files, this`activity, this`enablement, this`reloaded, this`clock, this`trail
      modifies this`issued, this`starts, this`disturbed, this`strayLink, this`ending
      ensures Valid() && NoneLost(orig, files) && clock >= old(clock)
      ensures ending == RolledBack || ending == RollbackFailed
      ensures ending == RolledBack ==> flag && AllOld(orig, files) && reloaded
      ensures ending == RolledBack ==>
                && activity == (if wasActive then Active else if startAttempted then Inactive else old(activity))
                && enablement == if enableAttempted && !wasEnabled then Disabled else old(enablement)
      ensures ending == RolledBack ==>
                issued == old(issued) + Reverting(wasActive, wasEnabled, enableAttempted, startAttempted)
      ensures ending == RollbackFailed ==> clock > old(clock) && (flag <==> Faulty(clock - 1))
      ensures ending == RollbackFailed ==> exists k :: old(clock) <= k < clock && Faulty(k)
    {
      flag := true;
      var restored := Rollback(changes, wasActive, wasEnabled, enableAttempted, startAttempted);
      if restored {
        ending := RolledBack;
        AllUntouchedIsAllOld(orig, files);
      } else {
        ending := RollbackFailed;
        var noted := Checkpoint();
        flag := !noted;
      }
    }

    method ActivateAndCommit(activate: bool) returns (ok: bool, enableAttempted: bool, startAttempted: bool)
      requires Valid() && !committed && forall i: nat :: i < ITEMS ==> Replaced(orig, pkg, files, i)
      modifies this`activity, this`enablement, this`reloaded, this`clock, this`trail, this`issued
      modifies this`starts, this`strayLink, this`checks, this`committed
      ensures Valid() && old(clock) < clock <= old(clock) + ActivationSteps(activate) + 1
      ensures ok ==> clock == old(clock) + ActivationSteps(activate) + 1
      ensures ok ==> NoneFails(old(clock), activate, old(clock), clock)
      ensures !ok ==> Fails(old(clock), activate, clock - 1) && NoneFails(old(clock), activate, old(clock), clock - 1)
      ensures ok ==> committed && reloaded && checks == old(checks) + Found(activate)
      ensures committed <==> clock == old(clock) + ActivationSteps(activate) + 1 && faults(clock - 1) != Before
      ensures Attempted(old(clock), activate, old(issued), enableAttempted, startAttempted)
      ensures ok && activate ==> activity == Active && enablement == Enabled
      ensures !startAttempted ==> activity == old(activity)
      ensures if enableAttempted then reloaded && enablement in {old(enablement), Enabled}
              else enablement == old(enablement)
    {
      StagesLoseNothing(orig, pkg, files, ITEMS);
      ok, enableAttempted, startAttempted := Activate(activate);
      if ok {
        ok := Commit();
      }
    }

    // Activate and commit, after replacements begun at `first`.
    method Complete(activate: bool, ghost first: nat) returns (ok: bool, enableAttempted: bool, startAttempted: bool)
      requires Valid() && !committed && forall i: nat :: i < ITEMS ==> Replaced(orig, pkg, files, i)
      requires clock == first + RenamesBefore(orig, |pkg|) && Quiet(first, clock)
      modifies this`activity, this`enablement, this`reloaded, this`clock, this`trail, this`issued
      modifies this`starts, this`strayLink, this`checks, this`committed
      ensures Valid() && NoneLost(orig, files) && AllNew(pkg, files)
      ensures Carried(first, old(clock), activate, ok)
      ensures !ok ==> Faulty(clock - 1) && StagesAfter(orig, pkg, files, Took(first, clock - 1))
      ensures ok ==> committed && reloaded && checks == old(checks) + Found(activate)
      ensures committed <==> clock == old(clock) + ActivationSteps(activate) + 1 && faults(clock - 1) != Before
      ensures Attempted(old(clock), activate, old(issued), enableAttempted, startAttempted)
      ensures ok && activate ==> activity == Active && enablement == Enabled
      ensures !startAttempted ==> activity == old(activity)
      ensures if enableAttempted then reloaded && enablement in {old(enablement), Enabled}
              else enablement == old(enablement)
    {
      StagesLoseNothing(orig, pkg, files, ITEMS);
      AllReplacedIsAllNew(orig, pkg, files);
      ok, enableAttempted, startAttempted := ActivateAndCommit(activate);
      FirstFailingIs(old(clock), activate, first, old(clock) + ActivationSteps(activate) + 1,
                     if ok then clock else clock - 1);
      if !ok { StagesAtEnd(orig, pkg, files, Took(first, clock - 1)); }
    }

    // Replace, activate and commit; a running service has been stopped.
    method Carry(activate: bool) returns (ok: bool, changes: seq<Change>, enableAttempted: bool, startAttempted: bool)
      requires Valid() && !committed && activity != Active
      requires forall i: nat :: i < ITEMS ==> Untouched(orig, files, i) && Ready(pkg, files, i)
      modifies this`files, this`activity, this`enablement, this`reloaded, this`clock, this`trail
      modifies this`issued, this`starts, this`disturbed, this`strayLink, this`checks, this`committed
      ensures Valid() && NoneLost(orig, files) && Logged(orig, changes) && Undoing(orig, pkg, files, |changes|)
      ensures ok ==>
                && committed && AllNew(pkg, files) && reloaded && checks == old(checks) + Found(activate)
                && (if activate then activity == Active && enablement == Enabled
                    else activity == old(activity) && enablement == old(enablement))
      ensures activity == Active ==> startAttempted
      ensures enableAttempted ==> reloaded && AllNew(pkg, files)
      ensures old(enablement) == Enabled ==> enablement == Enabled
      ensures enablement == Enabled ==> old(enablement) == Enabled || enableAttempted
      ensures Carried(old(clock), old(clock) + RenamesBefore(orig, |pkg|), activate, ok)
      ensures var end := old(clock) + RenamesBefore(orig, |pkg|) + ActivationSteps(activate) + 1;
              committed <==> clock == end && faults(clock - 1) != Before
      ensures !ok ==> Faulty(clock - 1)
      ensures !ok ==> StagesAfter(orig, pkg, files, Took(old(clock), clock - 1))
      ensures Attempted(old(clock) + RenamesBefore(orig, |pkg|), activate, old(issued), enableAttempted, startAttempted)
    {
      enableAttempted, startAttempted := false, false;
      ok, changes := ReplaceAll();
      StagesLoseNothing(orig, pkg, files, ITEMS);
      if !ok {
        FirstFailingIs(old(clock) + RenamesBefore(orig, |pkg|), activate, old(clock),
                       old(clock) + RenamesBefore(orig, |pkg|) + ActivationSteps(activate) + 1, clock - 1);
        return;
      }
      ok, enableAttempted, startAttempted := Complete(activate, old(clock));
    }

    // The latest operation is the first from `first` on to fail, or the commit when none does. The
    // activation begins at `from`.
    ghost predicate Carried(first: nat, from: nat, activate: bool, ok: bool)
      reads this`clock
    {
      var end := from + ActivationSteps(activate) + 1;
      && first < clock <= end && (ok ==> clock == end)
      && FirstFailing(from, activate, first, end) == if ok then end else clock - 1
    }

    // The service commands and the flags that go with the number of operations done.
    ghost predicate Attempted(from: nat, activate: bool, before: seq<Command>,
                              enableAttempted: bool, startAttempted: bool)
      reads this`clock, this`issued
    {
      && issued == before + Activating(activate, clock - from)
      && (enableAttempted <==> activate && clock - from >= 3)
      && (startAttempted <==> activate && clock - from >= 4)
    }

    // Everything up to the commit, with what the recovery has to know.
    method Attempt(activate: bool) returns (ok: bool, changes: seq<Change>, enableAttempted: bool, startAttempted: bool)
      requires Valid() && !committed && (activity == Active ==> activate) && issued == []
      requires forall i: nat :: i < ITEMS ==> Untouched(orig, files, i) && Ready(pkg, files, i)
      modifies this`files, this`activity, this`enablement, this`reloaded, this`clock, this`trail
      modifies this`issued, this`starts, this`disturbed, this`strayLink, this`checks, this`committed
      ensures Valid() && NoneLost(orig, files) && Logged(orig, changes) && Undoing(orig, pkg, files, |changes|)
      ensures ok ==>
                && committed && AllNew(pkg, files) && reloaded && checks == old(checks) + Found(activate)
                && (if activate then activity == Active && enablement == Enabled
                    else activity == old(activity) && enablement == old(enablement))
      ensures activity == Active ==> startAttempted || (old(activity) == Active && changes == [])
      ensures enableAttempted ==> reloaded && AllNew(pkg, files)
      ensures old(enablement) == Enabled ==> enablement == Enabled
      ensures enablement == Enabled ==> old(enablement) == Enabled || enableAttempted
      ensures old(clock) < clock && FailingAt(old(clock), old(activity), activate) ==
                if ok then EndOf(old(clock), old(activity), activate) else clock - 1
      ensures clock <= EndOf(old(clock), old(activity), activate)
      ensures ok ==> clock == EndOf(old(clock), old(activity), activate)
      ensures committed <==> clock == EndOf(old(clock), old(activity), activate) && faults(clock - 1) != Before
      ensures !ok ==> Faulty(clock - 1)
      ensures !ok ==> StagesAfter(orig, pkg, files, Took(RenamesFrom(old(clock), old(activity)), clock - 1))
      ensures Begun(ActivationFrom(old(clock), old(activity)), old(activity), activate, enableAttempted, startAttempted)
    {
      changes, enableAttempted, startAttempted := [], false, false;
      ok := StopService();
      RenamesGrow(orig, 0, |pkg|);
      if !ok {
        StagesAtStart(orig, pkg, files, Took(RenamesFrom(old(clock), old(activity)), clock - 1));
        return;
      }
      ok, changes, enableAttempted, startAttempted := Carry(activate);
    }

    function Stopping(wasActive: Activity): seq<Command> {
      if wasActive == Active then [Stop] else []
    }

    method StopService() returns (ok: bool)
      requires Valid() && issued == [] && forall i: nat :: i < ITEMS ==> Untouched(orig, files, i)
      modifies this`activity, this`enablement, this`reloaded, this`clock, this`trail, this`issued
      modifies this`starts, this`strayLink
      ensures Valid() && NoneLost(orig, files) && enablement == old(enablement) && reloaded == old(reloaded)
      ensures issued == Stopping(old(activity)) && clock == RenamesFrom(old(clock), old(activity))
      ensures if ok then !(old(clock) < clock && Faulty(old(clock))) && activity != Active
              else clock == old(clock) + 1 && Faulty(old(clock)) && old(activity) == Active
      ensures old(activity) != Active ==> activity == old(activity)
    {
      AllUntouchedIsAllOld(orig, files);
      ok := true;
      if activity == Active {
        ok := Systemctl(Stop);
      }
    }

    // The replacements of a transaction begun at `from` follow the stop of a running service, and
    // the activation follows them.
    function RenamesFrom(from: nat, wasActive: Activity): nat {
      from + if wasActive == Active then 1 else 0
    }

    ghost function ActivationFrom(from: nat, wasActive: Activity): nat
    {
      RenamesFrom(from, wasActive) + RenamesBefore(orig, |pkg|)
    }

    // The service commands of an attempt whose activation came to `n` operations.
    function Forward(wasActive: Activity, activate: bool, n: int): seq<Command> {
      Stopping(wasActive) + Activating(activate, n)
    }

    ghost predicate Begun(from: nat, wasActive: Activity, activate: bool, enableAttempted: bool, startAttempted: bool)
      reads this`clock, this`issued
    {
      && issued == Forward(wasActive, activate, clock - from)
      && (enableAttempted <==> activate && clock - from >= 3)
      && (startAttempted <==> activate && clock - from >= 4)
    }

    // The first operation from `t` on that fails, or `end`.
    function FirstFailing(from: nat, activate: bool, t: nat, end: nat): nat
      decreases end - t
    {
      if t >= end || Fails(from, activate, t) then t else FirstFailing(from, activate, t + 1, end)
    }

    lemma {:induction false} FirstFailingIs(from: nat, activate: bool, first: nat, end: nat, t: nat)
      requires first <= t <= end && NoneFails(from, activate, first, t) && (t < end ==> Fails(from, activate, t))
      ensures FirstFailing(from, activate, first, end) == t
      decreases t - first
    {
      if first < t {
        assert !Fails(from, activate, first);
        FirstFailingIs(from, activate, first + 1, end, t);
      }
    }

    lemma {:induction false} FirstFailingFails(from: nat, activate: bool, first: nat, end: nat)
      requires first <= end
      ensures var t := FirstFailing(from, activate, first, end);
              first <= t <= end && NoneFails(from, activate, first, t) && (t < end ==> Fails(from, activate, t))
      decreases end - first
    {
      if first < end && !Fails(from, activate, first) { FirstFailingFails(from, activate, first + 1, end); }
    }

    // The operation of the transaction that fails first, and the one after its last.
    ghost function FailingAt(first: nat, wasActive: Activity, activate: bool): nat
    {
      FirstFailing(ActivationFrom(first, wasActive), activate, first, EndOf(first, wasActive, activate))
    }

    ghost function EndOf(first: nat, wasActive: Activity, activate: bool): nat
    {
      ActivationFrom(first, wasActive) + ActivationSteps(activate) + 1
    }

    ghost predicate Failed()
      reads this`ending
    {
      ending == Unannounced || ending == RolledBack || ending == RollbackFailed
    }

    // The transaction ends at the first operation that fails, which tells the stage of every item, and
    // is done when none does.
    ghost predicate StoppedWhere(first: nat, wasActive: Activity, activate: bool)
      reads this`ending, this`failedAt, this`stopped
      requires |pkg| == ITEMS
    {
      && (Failed() ==>
            && StagesAfter(orig, pkg, stopped, Took(RenamesFrom(first, wasActive), failedAt))
            && failedAt == FailingAt(first, wasActive, activate) != EndOf(first, wasActive, activate))
      && (ending == Done ==> FailingAt(first, wasActive, activate) == EndOf(first, wasActive, activate))
    }

    // Done means that no operation failed, and a failure is the first one that did.
    lemma FailsExactly(first: nat, wasActive: Activity, activate: bool)
      requires |pkg| == ITEMS && StoppedWhere(first, wasActive, activate) && (Failed() || ending == Done)
      ensures var from, end := ActivationFrom(first, wasActive), EndOf(first, wasActive, activate);
              && (ending == Done <==> NoneFails(from, activate, first, end))
              && (Failed() ==>
                    && first <= failedAt < end && Fails(from, activate, failedAt)
                    && NoneFails(from, activate, first, failedAt))
    {
      FirstFailingFails(ActivationFrom(first, wasActive), activate, first, EndOf(first, wasActive, activate));
    }

    // The failure came between the setting of the commit flag and the end of the block.
    ghost predicate CutAtCommit(first: nat, wasActive: Activity, activate: bool)
      reads this`ending, this`failedAt
    {
      Failed() && failedAt + 1 == EndOf(first, wasActive, activate) && faults(failedAt) != Before
    }

    // The service commands of a transaction that ended in `ending`, with `n` operations done from
    // the activation on.
    function Commands(ending: Ending, n: int, activate: bool,
                      wasActive: Activity, wasEnabled: Enablement): seq<Command> {
      if ending == StagingFailed then []
      else if ending == RolledBack then
        Forward(wasActive, activate, n)
        + Reverting(wasActive == Active, wasEnabled == Enabled, activate && n >= 3, activate && n >= 4)
      else Forward(wasActive, activate, n)
    }

    // The service commands that were issued; a rollback that did not complete stopped part way.
    ghost predicate Commanded(first: nat, activate: bool, wasActive: Activity, wasEnabled: Enablement)
      reads this`ending, this`failedAt, this`issued
    {
      var last := if ending == Done then EndOf(first, wasActive, activate) - 1 else failedAt;
      ending != RollbackFailed ==>
        issued == Commands(ending, last + 1 - ActivationFrom(first, wasActive), activate, wasActive, wasEnabled)
    }

    // The ending says what became of the files, `f`, and the service, and tells of faults.
    ghost predicate EndsAs(f: Files, activate: bool, wasActive: Activity, wasEnabled: Enablement)
      reads this`ending, this`failedAt, this`activity, this`enablement, this`reloaded, this`checks
      requires |pkg| == ITEMS
    {
      match ending
      case Unstarted => true
      case Done =>
        && AllNew(pkg, f) && reloaded && checks == Found(activate)
        && (if activate then activity == Active && enablement == Enabled
            else activity == wasActive && enablement == wasEnabled)
      case StagingFailed => IsAsBefore(f, wasActive, wasEnabled)
      case RolledBack => IsAsBefore(f, wasActive, wasEnabled) && reloaded && Faulty(failedAt) && !Faulty(failedAt + 1)
      case RollbackFailed =>
        Faulty(failedAt) && !Faulty(failedAt + 1) && exists k :: k > failedAt + 1 && Faulty(k)
      case Unannounced => Faulty(failedAt) && Faulty(failedAt + 1)
    }

    ghost predicate IsAsBefore(f: Files, wasActive: Activity, wasEnabled: Enablement)
      reads this`activity, this`enablement
    {
      && AllOld(orig, f)
      && (activity == Active <==> wasActive == Active)
      && (enablement == Enabled <==> wasEnabled == Enabled)
    }

    // No fault, no failure; one fault, no loss.
    lemma FaultsTell(f: Files, activate: bool, wasActive: Activity, wasEnabled: Enablement)
      requires |pkg| == ITEMS && EndsAs(f, activate, wasActive, wasEnabled) && ending != Unstarted
      requires ending == StagingFailed ==> !Quiet(0, ITEMS)
      ensures (forall k :: !Faulty(k)) ==> ending == Done
      ensures (forall j, k :: Faulty(j) && Faulty(k) ==> j == k) ==> ending != Unannounced && ending != RollbackFailed
    {
    }

    lemma EndsTheSame(f: Files, g: Files, activate: bool, wasActive: Activity, wasEnabled: Enablement)
      requires |pkg| == ITEMS && EndsAs(f, activate, wasActive, wasEnabled)
      requires (AllOld(orig, f) ==> AllOld(orig, g)) && (AllNew(pkg, f) ==> AllNew(pkg, g))
      ensures EndsAs(g, activate, wasActive, wasEnabled)
    {
    }

    // What follows an attempt, begun at `first`, that has just failed.
    method Fail(activate: bool, ghost first: nat, ghost wasActive: Activity, ghost wasEnabled: Enablement,
                changes: seq<Change>, active: bool, enabled: bool, enableAttempted: bool, startAttempted: bool)
      returns (rollbackOk: bool)
      requires Valid() && Logged(orig, changes) && Undoing(orig, pkg, files, |changes|)
      requires active == (wasActive == Active) && enabled == (wasEnabled == Enabled)
      requires activity == Active ==> startAttempted || (active && changes == [])
      requires enableAttempted ==> reloaded && AllNew(pkg, files)
      requires (enabled ==> enablement == Enabled) && (enablement == Enabled ==> enabled || enableAttempted)
      requires clock > 0 && Faulty(clock - 1)
      requires clock - 1 == FailingAt(first, wasActive, activate) < EndOf(first, wasActive, activate)
      requires committed <==> clock == EndOf(first, wasActive, activate) && faults(clock - 1) != Before
      requires StagesAfter(orig, pkg, files, Took(RenamesFrom(first, wasActive), clock - 1))
      requires Begun(ActivationFrom(first, wasActive), wasActive, activate, enableAttempted, startAttempted)
      modifies this`files, this`activity, this`enablement, this`reloaded, this`clock, this`trail
      modifies this`issued, this`starts
      modifies this`disturbed, this`strayLink, this`ending, this`failedAt, this`stopped
      ensures Valid() && NoneLost(orig, files) && Failed() && failedAt == old(clock) - 1
      ensures EndsAs(files, activate, wasActive, wasEnabled)
      ensures ending == Unannounced ==> rollbackOk && files == stopped && clock == failedAt + 2
      ensures ending == RolledBack ==> rollbackOk
      ensures ending == RollbackFailed ==> clock > 0 && (rollbackOk <==> Faulty(clock - 1))
      ensures ending == RollbackFailed ==> exists k :: failedAt + 1 < k < clock && Faulty(k)
      ensures StoppedWhere(first, wasActive, activate)
      ensures committed <==> ending == Done || CutAtCommit(first, wasActive, activate)
      ensures Commanded(first, activate, wasActive, wasEnabled)
    {
      rollbackOk := Recover(changes, active, enabled, enableAttempted, startAttempted);
      FailureTells(first, activate, wasActive, wasEnabled, enableAttempted, startAttempted, old(issued));
    }

    // What the state says after a recovery from an attempt that issued the commands `before`.
    lemma FailureTells(first: nat, activate: bool, wasActive: Activity, wasEnabled: Enablement,
                       enableAttempted: bool, startAttempted: bool, before: seq<Command>)
      requires |pkg| == ITEMS && Failed() && failedAt == FailingAt(first, wasActive, activate)
      requires failedAt < EndOf(first, wasActive, activate)
      requires committed <==> failedAt + 1 == EndOf(first, wasActive, activate) && faults(failedAt) != Before
      requires StagesAfter(orig, pkg, stopped, Took(RenamesFrom(first, wasActive), failedAt))
      requires var n := failedAt + 1 - ActivationFrom(first, wasActive);
               && before == Forward(wasActive, activate, n)
               && (enableAttempted <==> activate && n >= 3) && (startAttempted <==> activate && n >= 4)
      requires ending == Unannounced ==> issued == before
      requires ending == RolledBack ==>
                 issued == before + Reverting(wasActive == Active, wasEnabled == Enabled,
                                              enableAttempted, startAttempted)
      ensures StoppedWhere(first, wasActive, activate) && Commanded(first, activate, wasActive, wasEnabled)
      ensures committed <==> ending == Done || CutAtCommit(first, wasActive, activate)
    {
    }

    // An attempt, begun at `first`, that has gone well.
    ghost method Succeed(activate: bool, first: nat, wasActive: Activity, wasEnabled: Enablement)
      requires |pkg| == ITEMS && AllNew(pkg, files) && reloaded && checks == Found(activate) && committed
      requires if activate then activity == Active && enablement == Enabled
               else activity == wasActive && enablement == wasEnabled
      requires clock == FailingAt(first, wasActive, activate) == EndOf(first, wasActive, activate)
      requires issued == Forward(wasActive, activate, clock - ActivationFrom(first, wasActive))
      modifies this`ending
      ensures ending == Done && EndsAs(files, activate, wasActive, wasEnabled)
      ensures StoppedWhere(first, wasActive, activate) && Commanded(first, activate, wasActive, wasEnabled)
      ensures committed <==> ending == Done || CutAtCommit(first, wasActive, activate)
    {
      ending := Done;
    }

    // Attempt it; on any failure recover.
    method Transact(activate: bool) returns (ok: bool, rollbackOk: bool)
      requires Valid() && !committed && (activity == Active ==> activate) && issued == [] && checks == []
      requires forall i: nat :: i < ITEMS ==> Untouched(orig, files, i) && Ready(pkg, files, i)
      modifies this`files, this`activity, this`enablement, this`reloaded, this`clock, this`trail
      modifies this`issued, this`starts, this`disturbed, this`strayLink
      modifies this`checks, this`committed, this`ending, this`failedAt, this`stopped
      ensures Valid() && NoneLost(orig, files) && (ok <==> ending == Done) && (ok ==> committed && rollbackOk)
      ensures EndsAs(files, activate, old(activity), old(enablement)) && ending != Unstarted && ending != StagingFailed
      ensures !ok ==> failedAt >= old(clock)
      ensures ending == Unannounced ==> rollbackOk && files == stopped && clock == failedAt + 2
      ensures ending == RolledBack ==> rollbackOk
      ensures ending == RollbackFailed ==> clock > 0 && (rollbackOk <==> Faulty(clock - 1))
      ensures ending == RollbackFailed ==> exists k :: failedAt + 1 < k < clock && Faulty(k)
      ensures StoppedWhere(old(clock), old(activity), activate)
      ensures committed <==> ending == Done || CutAtCommit(old(clock), old(activity), activate)
      ensures Commanded(old(clock), activate, old(activity), old(enablement))
    {
      var wasActive, wasEnabled := activity == Active, enablement == Enabled;
      var changes, enableAttempted, startAttempted;
      rollbackOk := true;
      ok, changes, enableAttempted, startAttempted := Attempt(activate);
      if ok {
        Succeed(activate, old(clock), old(activity), old(enablement));
      } else {
        rollbackOk := Fail(activate, old(clock), old(activity), old(enablement), changes, wasActive, wasEnabled,
                           enableAttempted, startAttempted);
      }
    }

    // What the transaction leaves for the cleanup, with the files at `f`.
    ghost predicate Delivered(f: Files, rollbackOk: bool, activate: bool, wasActive: Activity)
      reads this`ending, this`failedAt, this`stopped, this`committed
      requires |pkg| == ITEMS
    {
      && ending != Unstarted && (ending == StagingFailed <==> !Quiet(0, ITEMS))
      && (rollbackOk || ending == RollbackFailed)
      && (committed <==> ending == Done || CutAtCommit(ITEMS, wasActive, activate))
      && (ending == StagingFailed || ending == RolledBack ==> InPlace(orig, f))
      && (ending == Unannounced ==> f == stopped)
      && StoppedWhere(ITEMS, wasActive, activate)
    }

    ghost predicate Outcome(f: Files, rollbackOk: bool, activate: bool, wasActive: Activity, wasEnabled: Enablement)
      reads this`ending, this`failedAt, this`activity, this`enablement, this`reloaded, this`checks
      reads this`stopped, this`committed, this`issued
      requires |pkg| == ITEMS
    {
      && EndsAs(f, activate, wasActive, wasEnabled) && Delivered(f, rollbackOk, activate, wasActive)
      && Commanded(ITEMS, activate, wasActive, wasEnabled)
    }

    // Copy the package, then the transaction.
    method Deliver(activate: bool) returns (ok: bool, rollbackOk: bool)
      requires Valid() && !committed && (activity == Active ==> activate) && clock == 0 && issued == [] && checks == []
      requires forall i: nat :: i < ITEMS ==> Untouched(orig, files, i)
      modifies this`files, this`activity, this`enablement, this`reloaded, this`clock, this`trail
      modifies this`issued, this`starts, this`disturbed, this`strayLink
      modifies this`checks, this`committed, this`ending, this`failedAt, this`stopped
      ensures Valid() && NoneLost(orig, files) && (ok <==> ending == Done)
      ensures Outcome(files, rollbackOk, activate, old(activity), old(enablement))
      ensures ending == Unannounced ==> clock == failedAt + 2
    {
      ok := Stage();
      AllUntouchedIsAllOld(orig, files);
      rollbackOk := true;
      if ok {
        ok, rollbackOk := Transact(activate);
      } else {
        assert !Quiet(0, ITEMS) by { assert Faulty(clock - 1); }
        ending := StagingFailed;
      }
      if ending == RolledBack || ending == StagingFailed {
        AllOldIsInPlace(orig, files);
      }
    }

    // Delete both work directories, and with them every backup.
    method RemoveWorks() returns (ok: bool)
      requires Valid() && sweeping
      modifies this`files, this`clock, this`trail
      ensures Valid() && OnlyWork(old(files), files)
      ensures forall m :: m in trail ==> m in old(trail) || OnlyWork(old(files), m.files)
      ensures ok ==> forall p: Path :: p.Staged? || p.Backup? ==> p !in files
      ensures forall i: nat :: i < ITEMS ==> BackupAfter(old(clock), old(files), files, i)
      ensures ok <==> !Faulty(old(clock)) && !Faulty(old(clock) + 1)
      ensures !ok ==> Tripped(old(clock))
    {
      ghost var t, before := clock, files;
      ok := RemoveWork(false);
      ghost var between := files;
      if ok {
        ok := RemoveWork(true);
      }
      forall i: nat | i < ITEMS ensures BackupAfter(t, before, files, i) {
        if i == PAYLOAD {
          assert !InWork(Backup(i), false) && InWork(Backup(i), true);
          assert Agree(before, between, Backup(i));
        } else {
          assert InWork(Backup(i), false) && !InWork(Backup(i), true);
          assert AfterRemoval(faults(t), Backup(i), before, between);
          assert ok || files == between || Agree(between, files, Backup(i));
        }
      }
      forall p: Path | ok && (p.Staged? || p.Backup?) ensures p !in files {
        if p.item == PAYLOAD {
          assert InWork(p, true);
        } else {
          assert InWork(p, false) && !InWork(p, true);
          assert p !in between && Agree(between, files, p);
        }
      }
    }

    // What a deletion of both work directories from operation `t` on makes of one backup. It is
    // stopped by a fault in the first directory, and does not reach the unit's then.
    ghost predicate BackupAfter(t: nat, f: Files, g: Files, i: nat) {
      if i != PAYLOAD then AfterRemoval(faults(t), Backup(i), f, g)
      else if Faulty(t) then Agree(f, g, Backup(i))
      else AfterRemoval(faults(t + 1), Backup(i), f, g)
    }

    // The backup is still whole after that.
    predicate BackupSpared(t: nat, i: nat, content: Content) {
      (i == PAYLOAD && Faulty(t)) || Spares(faults(if i == PAYLOAD then t + 1 else t), Backup(i), content)
    }

    lemma KeptExactly(t: nat, f: Files, g: Files, i: nat)
      requires i < ITEMS && Kept(orig, f, i) && OnlyWork(f, g) && BackupAfter(t, f, g, i)
      ensures Kept(orig, g, i) <==>
                (Target(i) in orig ==> ItemInPlace(orig, f, i) || BackupSpared(t, i, orig[Target(i)]))
    {
    }

    ghost predicate SurvivesSweep(i: nat)
      reads this`sweptFrom, this`sweptAt
    {
      Target(i) in orig ==> ItemInPlace(orig, sweptFrom, i) || BackupSpared(sweptAt, i, orig[Target(i)])
    }

    // Once the cleanup has begun, an original is lost exactly when it was not in place then and its
    // backup was not spared, which a completed cleanup never does.
    ghost predicate SweptExactly()
      reads this`files, this`sweptFrom, this`sweptAt, this`swept
    {
      && (forall i: nat :: i < ITEMS ==> (Kept(orig, files, i) <==> SurvivesSweep(i)))
      && (swept <==> !Faulty(sweptAt) && !Faulty(sweptAt + 1))
    }

    lemma SweptLoses()
      requires SweptExactly() && swept
      ensures NoneLost(orig, files) <==> InPlace(orig, sweptFrom)
    {
      forall i: nat | i < ITEMS ensures Kept(orig, files, i) <==> ItemInPlace(orig, sweptFrom, i) {
        assert Kept(orig, files, i) <==> SurvivesSweep(i);
      }
    }

    method Cleanup() returns (ok: bool)
      requires Valid() && NoneLost(orig, files)
      modifies this`files, this`clock, this`trail, this`sweeping, this`sweptFrom, this`sweptAt, this`swept
      ensures Valid() && sweeping && swept == ok && sweptFrom == old(files) && sweptAt == old(clock)
      ensures OnlyWork(sweptFrom, files)
      ensures InPlace(orig, sweptFrom) && (forall m :: m in old(trail) ==> NoneLost(orig, m.files)) ==>
                forall m :: m in trail ==> NoneLost(orig, m.files)
      ensures ok ==> forall p: Path :: p.Staged? || p.Backup? ==> p !in files
      ensures SweptExactly()
      ensures !ok ==> Tripped(old(clock))
    {
      sweeping, sweptFrom, sweptAt := true, files, clock;
      ok := RemoveWorks();
      swept := ok;
      forall m | m in trail && m !in old(trail) && InPlace(orig, sweptFrom) ensures NoneLost(orig, m.files) {
        SameInPlace(orig, sweptFrom, m.files);
      }
      forall i: nat | i < ITEMS ensures Kept(orig, files, i) <==> SurvivesSweep(i) {
        assert Kept(orig, sweptFrom, i) && BackupAfter(sweptAt, sweptFrom, files, i);
        KeptExactly(sweptAt, sweptFrom, files, i);
      }
    }

    // What is lost when the notice was stopped, item by item, from the index of the operation that
    // failed and the faults of the cleanup: an original displaced by then whose backup is not spared.
    lemma LostExactly(wasActive: Activity, activate: bool, i: nat)
      requires |pkg| == ITEMS && i < ITEMS
      requires ending == Unannounced && StoppedWhere(ITEMS, wasActive, activate)
      requires sweeping && sweptFrom == stopped && SweptExactly()
      ensures Kept(orig, files, i) <==>
                || !Displaced(orig, pkg, Took(RenamesFrom(ITEMS, wasActive), failedAt), i)
                || BackupSpared(sweptAt, i, orig[Target(i)])
    {
      DisplacedExactly(orig, pkg, stopped, Took(RenamesFrom(ITEMS, wasActive), failedAt), i);
      assert Kept(orig, files, i) <==> SurvivesSweep(i);
    }

    // What a run that was not refused leaves: the transaction's outcome on the files at `sweptFrom`,
    // and from there the cleanup.
    ghost predicate Ran(result: Result, activate: bool, wasActive: Activity, wasEnabled: Enablement)
      reads this
      requires |pkg| == ITEMS
    {
      && Valid() && result.Finished?
      && Outcome(sweptFrom, result.rollbackOk, activate, wasActive, wasEnabled)
      && result == Finished(committed, result.rollbackOk, ending != Done || !swept)
      && (ending == Unannounced ==> sweptAt == failedAt + 2)
      && CleanedUp(result.rollbackOk)
    }

    // The work directories go exactly when a flag says so, and take nothing but backups and staged files.
    ghost predicate CleanedUp(rollbackOk: bool)
      reads this`committed, this`files, this`trail, this`sweeping, this`sweptFrom, this`sweptAt, this`swept
    {
      && (sweeping <==> committed || rollbackOk) && OnlyWork(sweptFrom, files)
      && (InPlace(orig, sweptFrom) ==> forall m :: m in trail ==> NoneLost(orig, m.files))
      && (if sweeping then SweptExactly() else !swept && NoneLost(orig, files))
      && (swept ==> forall p: Path :: p.Staged? || p.Backup? ==> p !in files)
    }

    // What that means to the caller.
    lemma RunPromises(result: Result, activate: bool, wasActive: Activity, wasEnabled: Enablement)
      requires |pkg| == ITEMS && Ran(result, activate, wasActive, wasEnabled)
      ensures EndsAs(files, activate, wasActive, wasEnabled)
      // Until the cleanup begins no original is lost, and every start found a whole version after
      // daemon-reload; a rollback that completes loses nothing at any moment.
      ensures forall m :: m in trail ==> m.sweeping || NoneLost(orig, m.files)
      ensures forall m :: m in starts ==> m.reloaded && (AllNew(pkg, m.files) || AllOld(orig, m.files))
      ensures ending == StagingFailed || ending == RolledBack ==> forall m :: m in trail ==> NoneLost(orig, m.files)
      // Once the backups are gone and the version is not the new one, an original is lost exactly when
      // no rollback completed and something was out of place. A notice that was stopped skips the
      // rollback, and then they go with everything as it was at the failure.
      ensures ending == Unannounced ==> sweeping && sweptFrom == stopped
      ensures swept && ending != Done ==>
                (NoneLost(orig, files) <==>
                   ending == StagingFailed || ending == RolledBack || InPlace(orig, sweptFrom))
      // The flag is also left set when only the end of the block was cut off.
      ensures result.committed <==> ending == Done || CutAtCommit(ITEMS, wasActive, activate)
      // No fault, no failure; one fault, no loss.
      ensures (forall k :: !Faulty(k)) ==> result == Finished(true, true, false)
      ensures (forall j, k :: Faulty(j) && Faulty(k) ==> j == k) ==> ending != Unannounced && ending != RollbackFailed
    {
      SameTargets(orig, pkg, sweptFrom, files);
      EndsTheSame(sweptFrom, files, activate, wasActive, wasEnabled);
      FaultsTell(files, activate, wasActive, wasEnabled);
      if swept { SweptLoses(); }
    }

    // And what was done to the service.
    lemma RunServes(result: Result, activate: bool, wasActive: Activity, wasEnabled: Enablement)
      requires |pkg| == ITEMS && Ran(result, activate, wasActive, wasEnabled)
      // Once the package is copied, done means that no operation failed, each of five health checks
      // among them, and otherwise the failure is the first one that did.
      ensures var from, end := ActivationFrom(ITEMS, wasActive), EndOf(ITEMS, wasActive, activate);
              && (ending == Done <==> Quiet(0, ITEMS) && NoneFails(from, activate, ITEMS, end))
              && (Failed() ==>
                    && ITEMS <= failedAt < end && Fails(from, activate, failedAt)
                    && NoneFails(from, activate, ITEMS, failedAt))
      // No target changes under a running service, and the unit is enabled and disabled while it is the
      // new one.
      ensures !disturbed && !strayLink
      // The service commands are those of the attempt, and after a rollback those that revert it.
      ensures Commanded(ITEMS, activate, wasActive, wasEnabled)
    {
      if Failed() || ending == Done { FailsExactly(ITEMS, wasActive, activate); }
    }

    // Clean up if a flag allows it.
    method Finish(rollbackOk: bool) returns (cleaned: bool)
      requires Valid() && NoneLost(orig, files) && !sweeping && !swept
      modifies this`files, this`clock, this`trail, this`sweeping, this`sweptFrom, this`sweptAt, this`swept
      ensures Valid() && cleaned == swept && sweptFrom == old(files) && (sweeping ==> sweptAt == old(clock))
      ensures CleanedUp(rollbackOk)
    {
      cleaned := false;
      sweptFrom := files;
      if committed || rollbackOk {
        cleaned := Cleanup();
      }
    }

    method Run(activate: bool) returns (result: Result)
      requires Valid() && !committed && (activity == Active ==> activate) && clock == 0 && !sweeping && !swept
      requires issued == [] && checks == []
      requires forall i: nat :: i < ITEMS ==> Untouched(orig, files, i)
      modifies this
      ensures result.Finished?
      ensures result.Finished? <==> Ran(result, activate, old(activity), old(enablement))
    {
      var ok, rollbackOk := Deliver(activate);
      var cleaned := Finish(rollbackOk);
      result := Finished(committed, rollbackOk, !ok || !cleaned);
    }

    // The second item cannot be put in place, the notice of that is stopped, and the first item has
    // an original that its replacement differs from.
    lemma FirstOriginalLost(result: Result)
      requires |pkg| == ITEMS && Ran(result, false, Inactive, NotFound)
      requires Faulty(7) && Faulty(8) && faults(7) == Before && forall k: nat :: k < 7 || k > 8 ==> !Faulty(k)
      requires Target(0) in orig && pkg[0] != orig[Target(0)]
      ensures ending == Unannounced && swept && !Kept(orig, files, 0) && result.rollbackOk && result.raised
      ensures Installed(pkg, files, 0) && Backup(0) !in files && Staged(0) !in files
    {
      RenamesGrow(orig, 0, |pkg|);
      assert Quiet(0, ITEMS);
      FirstFailingIs(ActivationFrom(ITEMS, Inactive), false, ITEMS, EndOf(ITEMS, Inactive, false), 7);
      assert failedAt == 7 && ending == Unannounced;
      assert Took(ITEMS, 7) == 2 == RenamesBefore(orig, 1);
      assert StageAfter(orig, pkg, stopped, 2, 0);
      LostExactly(Inactive, false, 0);
    }

    // The whole run, from the service checks to the cleanup.
    method Install(activate: bool) returns (result: Result)
      requires |pkg| == ITEMS && !committed && orig == files && clock == 0
      requires trail == [] && issued == [] && starts == [] && checks == [] && ending == Unstarted
      requires !disturbed && !strayLink && !sweeping && !swept
      requires forall p: Path :: p.Staged? || p.Backup? ==> p !in files
      modifies this
      ensures orig == old(files)
      ensures result.Rejected? <==>
                old(activity) == Transitional || old(enablement) == Masked || (old(activity) == Active && !activate)
      ensures result.Rejected? ==> files == orig && activity == old(activity) && enablement == old(enablement)
      ensures result.Rejected? ==> ending == Unstarted && trail == [] && issued == [] && starts == [] && checks == []
      ensures result.Finished? ==> Ran(result, activate, old(activity), old(enablement))
    {
      if activity == Transitional || enablement == Masked || (activity == Active && !activate) {
        return Rejected;
      }
      forall i: nat | i < ITEMS ensures Untouched(orig, files, i) {
      }
      result := Run(activate);
    }
  }

  // A fresh install over one older file, on a schedule of two faults.
  method TwoFaults() returns (host: Host)
    ensures fresh(host) && |host.pkg| == ITEMS && host.pkg[0] == File("new")
    ensures host.orig == host.files == map[Target(0) := File("old")]
    ensures host.activity == Inactive && host.enablement == NotFound && host.ending == Unstarted
    ensures host.clock == 0 && host.trail == [] && host.issued == [] && host.starts == [] && host.checks == []
    ensures !host.committed && !host.disturbed && !host.strayLink && !host.sweeping && !host.swept
    ensures host.faults(7) == Before && host.Faulty(8) && forall k: nat :: k < 7 || k > 8 ==> !host.Faulty(k)
  {
    var newer := File("new");
    var faults := (k: nat) => if k == 7 || k == 8 then Before else Clean;
    var files: Files := map[Target(0) := File("old")];
    host := new Host(faults, [newer, newer, newer, newer, newer], files, Inactive, NotFound);
  }

  // Two faults are enough to lose an original: the second item cannot be put in place, and the
  // notice of that is stopped.  The first item's backup is deleted with the work directory, and
  // the program takes its rollback for complete.
  method OriginalCanBeLost() returns (after: Files, result: Result)
    ensures after.Keys !! {Backup(0), Staged(0)} && Target(0) in after && after[Target(0)] == File("new")
    ensures result.Finished? && result.rollbackOk && result.raised
  {
    var host := TwoFaults();
    result := host.Install(false);
    host.FirstOriginalLost(result);
    after := host.files;
  }
}
