/** References to lines in automation tasks and notification rules, and their migration. */
module LineReferences {
  import opened Options
  import opened Sorting
  import opened Text
  import opened LineProfiles

  datatype Target = ModemLine(lineId: string) | StandaloneSimSlot(slotId: string)

  // The parts of the configuration that migration rewrites.
  datatype References = References(
    profiles: seq<LineProfile>,
    tasks: seq<Option<Target>>,
    rules: seq<seq<string>>)

  // The new value, and whether it asks for a save.
  datatype Migration = Migration(refs: References, changed: bool)

  // ---- Rewriting a list of targets -------------------------------------------------------------

  function Dedup(xs: seq<string>, seen: seq<string>): seq<string> {
    if xs == [] then []
    else if xs[0] in seen then Dedup(xs[1..], seen)
    else [xs[0]] + Dedup(xs[1..], seen + [xs[0]])
  }

  function Renamed(target: string, aliases: set<string>, line: string): string {
    if Trim(target) in aliases then line else target
  }

  function RenamedAll(targets: seq<string>, aliases: set<string>, line: string): seq<string> {
    if targets == [] then [] else [Renamed(targets[0], aliases, line)] + RenamedAll(targets[1..], aliases, line)
  }

  function Rewrite(targets: seq<string>, aliases: set<string>, line: string): seq<string> {
    Dedup(RenamedAll(targets, aliases, line), [])
  }

  function RewriteRules(rules: seq<seq<string>>, aliases: set<string>, line: string): seq<seq<string>> {
    seq(|rules|, i requires 0 <= i < |rules| => Rewrite(rules[i], aliases, line))
  }

  // ---- Migration from older line ids ---------------------------------------------------------------

  function Aliases(line: string, legacy: seq<string>): set<string> {
    set i | 0 <= i < |legacy| && ValidLineId(Trim(legacy[i])) && Trim(legacy[i]) != line :: Trim(legacy[i])
  }

  function FirstAliased(profiles: seq<LineProfile>, aliases: set<string>): (i: nat)
    ensures i <= |profiles| && (forall j :: 0 <= j < i ==> profiles[j].lineId !in aliases)
    ensures i < |profiles| ==> profiles[i].lineId in aliases
  {
    if profiles == [] || profiles[0].lineId in aliases then 0 else 1 + FirstAliased(profiles[1..], aliases)
  }

  // A line without a profile inherits the first aliased one.
  predicate Inherits(profiles: seq<LineProfile>, aliases: set<string>, line: string) {
    Find(profiles, line) == |profiles| && FirstAliased(profiles, aliases) < |profiles|
  }

  function Inherited(profiles: seq<LineProfile>, aliases: set<string>, line: string): seq<LineProfile> {
    if Inherits(profiles, aliases, line) then
      Sort(IdLe, profiles + [profiles[FirstAliased(profiles, aliases)].(lineId := line)])
    else profiles
  }

  function RetargetTask(task: Option<Target>, aliases: set<string>, line: string): Option<Target> {
    match task
    case Some(ModemLine(id)) => Some(ModemLine(Renamed(id, aliases, line)))
    case _ => task
  }

  function RetargetTasks(tasks: seq<Option<Target>>, aliases: set<string>, line: string): seq<Option<Target>> {
    seq(|tasks|, i requires 0 <= i < |tasks| => RetargetTask(tasks[i], aliases, line))
  }

  function MigrateAliases(refs: References, line: string, legacy: seq<string>): Migration {
    var aliases := Aliases(line, legacy);
    var profiles := Inherited(refs.profiles, aliases, line);
    var tasks := RetargetTasks(refs.tasks, aliases, line);
    var rules := RewriteRules(refs.rules, aliases, line);
    Migration(References(profiles, tasks, rules),
              Inherits(refs.profiles, aliases, line) || tasks != refs.tasks || rules != refs.rules)
  }

  // ---- Migration from the standalone reader list ----------------------------------------------------

  function ReaderTarget(slot: string): string {
    "reader:" + slot
  }

  function RetargetReader(task: Option<Target>, slot: string, line: string): Option<Target> {
    match task
    case Some(StandaloneSimSlot(id)) => if Trim(id) == slot then Some(ModemLine(line)) else task
    case _ => task
  }

  function RetargetReaders(tasks: seq<Option<Target>>, slot: string, line: string): seq<Option<Target>> {
    seq(|tasks|, i requires 0 <= i < |tasks| => RetargetReader(tasks[i], slot, line))
  }

  function MigrateReader(refs: References, slot: string, line: string): Migration {
    var tasks := RetargetReaders(refs.tasks, slot, line);
    var rules := RewriteRules(refs.rules, {ReaderTarget(slot)}, line);
    Migration(refs.(tasks := tasks, rules := rules), tasks != refs.tasks || rules != refs.rules)
  }

  // ---- Keep-first deduplication ------------------------------------------------------------------------

  lemma {:induction false} DedupMembers(xs: seq<string>, seen: seq<string>)
    ensures forall x :: x in Dedup(xs, seen) <==> x in xs && x !in seen
  {
    if xs != [] {
      DedupMembers(xs[1..], seen);
      DedupMembers(xs[1..], seen + [xs[0]]);
      assert xs == [xs[0]] + xs[1..];
    }
  }

  // What has been seen matters only as a set.
  lemma {:induction false} DedupSeen(xs: seq<string>, a: seq<string>, b: seq<string>)
    requires forall x :: x in xs ==> (x in a <==> x in b)
    ensures Dedup(xs, a) == Dedup(xs, b)
  {
    if xs != [] {
      assert xs[0] in xs;
      assert xs == [xs[0]] + xs[1..];
      DedupSeen(xs[1..], a, b);
      DedupSeen(xs[1..], a + [xs[0]], b + [xs[0]]);
    }
  }

  lemma {:induction false} DedupIdle(xs: seq<string>, seen: seq<string>)
    ensures Dedup(Dedup(xs, seen), seen) == Dedup(xs, seen)
  {
    if xs != [] {
      DedupIdle(xs[1..], seen);
      DedupIdle(xs[1..], seen + [xs[0]]);
    }
  }

  lemma {:induction false} RenamedMembers(targets: seq<string>, aliases: set<string>, line: string)
    ensures |RenamedAll(targets, aliases, line)| == |targets|
    ensures forall i :: 0 <= i < |targets| ==>
              RenamedAll(targets, aliases, line)[i] == Renamed(targets[i], aliases, line)
    ensures forall x :: x in RenamedAll(targets, aliases, line) <==>
              exists t :: t in targets && Renamed(t, aliases, line) == x
  {
    if targets != [] {
      RenamedMembers(targets[1..], aliases, line);
      assert targets == [targets[0]] + targets[1..];
    }
  }

  lemma RenamedInSeen(x: string, seen: seq<string>, aliases: set<string>, line: string)
    requires x in seen
    ensures Renamed(x, aliases, line) in RenamedAll(seen, aliases, line)
  {
  }

  // Renaming before or after dropping repeats gives the same list.
  lemma {:induction false} DedupCommutes(xs: seq<string>, seen: seq<string>, aliases: set<string>, line: string)
    ensures Dedup(RenamedAll(Dedup(xs, seen), aliases, line), RenamedAll(seen, aliases, line))
         == Dedup(RenamedAll(xs, aliases, line), RenamedAll(seen, aliases, line))
  {
    if xs != [] {
      var x, f, seen1 := xs[0], Renamed(xs[0], aliases, line), RenamedAll(seen, aliases, line);
      if x in seen {
        RenamedInSeen(x, seen, aliases, line);
        DedupCommutes(xs[1..], seen, aliases, line);
      } else {
        var kept, rest := RenamedAll(Dedup(xs[1..], seen + [x]), aliases, line), RenamedAll(xs[1..], aliases, line);
        DedupCommutes(xs[1..], seen + [x], aliases, line);
        RenamedAppend(seen, x, aliases, line);
        assert Dedup(kept, seen1 + [f]) == Dedup(rest, seen1 + [f]);
        if f in seen1 {
          DedupSeen(kept, seen1, seen1 + [f]);
          DedupSeen(rest, seen1, seen1 + [f]);
        }
      }
    }
  }

  lemma {:induction false} RenamedAppend(xs: seq<string>, x: string, aliases: set<string>, line: string)
    ensures RenamedAll(xs + [x], aliases, line) == RenamedAll(xs, aliases, line) + [Renamed(x, aliases, line)]
  {
    if xs != [] {
      assert (xs + [x])[1..] == xs[1..] + [x];
      RenamedAppend(xs[1..], x, aliases, line);
    }
  }

  lemma {:induction false} RenamedTwice(targets: seq<string>, s: set<string>, b: string, t: set<string>, c: string)
    requires Trim(b) in t
    ensures RenamedAll(RenamedAll(targets, s, b), t, c) == RenamedAll(targets, s + t, c)
  {
    if targets != [] { RenamedTwice(targets[1..], s, b, t, c); }
  }

  // Moving A to B and then B to C is moving both to C.
  lemma RewritesCompose(targets: seq<string>, s: set<string>, b: string, t: set<string>, c: string)
    requires Trim(b) in t
    ensures Rewrite(Rewrite(targets, s, b), t, c) == Rewrite(targets, s + t, c)
  {
    DedupCommutes(RenamedAll(targets, s, b), [], t, c);
    RenamedTwice(targets, s, b, t, c);
  }

  // ---- Main results ------------------------------------------------------------------------------------

  predicate Mentions(task: Option<Target>, aliases: set<string>) {
    task.Some? && task.value.ModemLine? && Trim(task.value.lineId) in aliases
  }

  // No reference to an alias is left, in any task or rule.
  ghost predicate FreeOf(refs: References, aliases: set<string>) {
    && (forall i :: 0 <= i < |refs.tasks| ==> !Mentions(refs.tasks[i], aliases))
    && (forall i, t :: 0 <= i < |refs.rules| && t in refs.rules[i] ==> Trim(t) !in aliases)
  }

  lemma AliasesExcludeLine(line: string, legacy: seq<string>)
    requires ValidLineId(line)
    ensures Trim(line) == line && line !in Aliases(line, legacy)
  {
  }

  lemma RewriteFree(targets: seq<string>, aliases: set<string>, line: string)
    requires Trim(line) !in aliases
    ensures forall t :: t in Rewrite(targets, aliases, line) ==> Trim(t) !in aliases
  {
    DedupMembers(RenamedAll(targets, aliases, line), []);
    RenamedMembers(targets, aliases, line);
  }

  lemma {:induction false} RenameIdle(targets: seq<string>, aliases: set<string>, line: string)
    requires forall t :: t in targets ==> Trim(t) !in aliases
    ensures RenamedAll(targets, aliases, line) == targets
  {
    if targets != [] {
      assert targets[0] in targets && targets == [targets[0]] + targets[1..];
      RenameIdle(targets[1..], aliases, line);
    }
  }

  lemma RewriteIdle(targets: seq<string>, aliases: set<string>, line: string)
    requires Trim(line) !in aliases
    ensures var once := Rewrite(targets, aliases, line); Rewrite(once, aliases, line) == once
  {
    RewriteFree(targets, aliases, line);
    RenameIdle(Rewrite(targets, aliases, line), aliases, line);
    DedupIdle(RenamedAll(targets, aliases, line), []);
  }

  lemma RulesIdle(rules: seq<seq<string>>, aliases: set<string>, line: string)
    requires Trim(line) !in aliases
    ensures var once := RewriteRules(rules, aliases, line); RewriteRules(once, aliases, line) == once
  {
    forall i | 0 <= i < |rules|
      ensures Rewrite(Rewrite(rules[i], aliases, line), aliases, line) == Rewrite(rules[i], aliases, line)
    {
      RewriteIdle(rules[i], aliases, line);
    }
  }

  // The result is true exactly when the call changed something, and no alias survives it.
  lemma MigrationIsExact(refs: References, line: string, legacy: seq<string>)
    requires ValidLineId(line)
    ensures MigrateAliases(refs, line, legacy).changed <==> MigrateAliases(refs, line, legacy).refs != refs
    ensures FreeOf(MigrateAliases(refs, line, legacy).refs, Aliases(line, legacy))
  {
    var aliases, after := Aliases(line, legacy), MigrateAliases(refs, line, legacy).refs;
    AliasesExcludeLine(line, legacy);
    if Inherits(refs.profiles, aliases, line) { InheritedGrows(refs.profiles, aliases, line); }
    forall i, t | 0 <= i < |after.rules| && t in after.rules[i] ensures Trim(t) !in aliases {
      RewriteFree(refs.rules[i], aliases, line);
    }
  }

  lemma InheritedGrows(profiles: seq<LineProfile>, aliases: set<string>, line: string)
    requires Inherits(profiles, aliases, line)
    ensures |Inherited(profiles, aliases, line)| == |profiles| + 1
    ensures Find(Inherited(profiles, aliases, line), line) < |Inherited(profiles, aliases, line)|
  {
    var copy := profiles[FirstAliased(profiles, aliases)].(lineId := line);
    IdLeIsPreorder();
    SortCorrect(IdLe, profiles + [copy]);
    assert (profiles + [copy])[|profiles|] == copy;
    assert copy in multiset(Inherited(profiles, aliases, line));
  }

  // A repeat finds nothing left to do.
  lemma SecondMigrationIsIdle(refs: References, line: string, legacy: seq<string>)
    requires ValidLineId(line)
    ensures var once := MigrateAliases(refs, line, legacy).refs;
            MigrateAliases(once, line, legacy) == Migration(once, false)
  {
    var aliases, once := Aliases(line, legacy), MigrateAliases(refs, line, legacy).refs;
    AliasesExcludeLine(line, legacy);
    if Inherits(refs.profiles, aliases, line) { InheritedGrows(refs.profiles, aliases, line); }
    assert RetargetTasks(once.tasks, aliases, line) == once.tasks;
    RulesIdle(refs.rules, aliases, line);
  }

  // On rule targets, migrating to B and on to C is one migration to C.
  lemma MigrationsCompose(targets: seq<string>, b: string, first: seq<string>, c: string, second: seq<string>)
    requires ValidLineId(b) && ValidLineId(c) && b in Aliases(c, second)
    requires c !in Aliases(b, first)
    ensures Rewrite(Rewrite(targets, Aliases(b, first), b), Aliases(c, second), c)
        == Rewrite(targets, Aliases(c, first + second), c)
  {
    ValidIdIsTrimmed(b);
    RewritesCompose(targets, Aliases(b, first), b, Aliases(c, second), c);
    AliasesAppend(b, first, c, second);
  }

  lemma AliasesAppend(b: string, first: seq<string>, c: string, second: seq<string>)
    requires b in Aliases(c, second) && c !in Aliases(b, first)
    ensures Aliases(b, first) + Aliases(c, second) == Aliases(c, first + second)
  {
    var both := first + second;
    forall x | x in Aliases(b, first) ensures x in Aliases(c, both) {
      var i :| 0 <= i < |first| && Trim(first[i]) == x && ValidLineId(x);
      assert both[i] == first[i];
    }
    forall x | x in Aliases(c, second) ensures x in Aliases(c, both) {
      var i :| 0 <= i < |second| && Trim(second[i]) == x && ValidLineId(x);
      assert both[|first| + i] == second[i];
    }
  }

  predicate Reserves(task: Option<Target>, slot: string) {
    task.Some? && task.value.StandaloneSimSlot? && Trim(task.value.slotId) == slot
  }

  // Reader references: true exactly on change, none left, and idle when repeated.
  lemma ReaderMigrationIsExact(refs: References, slot: string, line: string)
    requires ValidLineId(line)
    ensures var m := MigrateReader(refs, slot, line);
            && (m.changed <==> m.refs != refs)
            && (forall i :: 0 <= i < |m.refs.tasks| ==> !Reserves(m.refs.tasks[i], slot))
            && (forall i, t :: 0 <= i < |m.refs.rules| && t in m.refs.rules[i] ==> Trim(t) != ReaderTarget(slot))
            && MigrateReader(m.refs, slot, line) == Migration(m.refs, false)
  {
    var m := MigrateReader(refs, slot, line);
    ValidIdIsTrimmed(line);
    assert line[..5][0] == 'l' && ReaderTarget(slot)[0] == 'r';
    RulesIdle(refs.rules, {ReaderTarget(slot)}, line);
    assert RetargetReaders(m.refs.tasks, slot, line) == m.refs.tasks;
    forall i, t | 0 <= i < |m.refs.rules| && t in m.refs.rules[i] ensures Trim(t) != ReaderTarget(slot) {
      RewriteFree(refs.rules[i], {ReaderTarget(slot)}, line);
    }
  }
}
