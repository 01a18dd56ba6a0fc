// Whole histories of applications and rollbacks of session repairs, and the plans that cannot be undone
// (repair-session-storage.py).
module RepairHistories {
  import opened Common
  import opened RepairPlan
  import opened RepairSessions
  import opened RepairJournal
  import opened Repair

  // ----- whole histories -----

  /** A command given to the program, and how many steps its process will live. */
  datatype Command =
    | ApplyCommand(plan: Plan, clock: nat -> nat, limit: Option<nat>)
    | RollbackCommand(limit: Option<nat>)

  ghost predicate Applies(commands: seq<Command>, plan: Plan) {
    exists c | c in commands :: c.ApplyCommand? && c.plan == plan
  }

  /** Runs commands one after the other, each of which may be stopped anywhere. */
  method RunAll(disk: Disk, commands: seq<Command>, render: Render, ghost before: Data)
    requires disk.Holds(render, before) && disk.backup.None?
    requires forall c | c in commands && c.ApplyCommand? :: WellMade(c.plan)
    modifies disk
    ensures disk.Holds(render, before)
    ensures disk.Recorded().Some? ==> Applies(commands, disk.Recorded().value.plan)
  {
    hide Inv;
    for i := 0 to |commands|
      invariant disk.Holds(render, before)
      invariant disk.Recorded().Some? ==> Applies(commands, disk.Recorded().value.plan)
    {
      var command := commands[i];
      var outcome;
      disk.limit := command.limit;
      match command {
        case ApplyCommand(plan, clock, _) => outcome := disk.Apply(plan, clock, render, before);
        case RollbackCommand(_) => outcome := disk.Rollback(render, before);
      }
    }
  }

  /** Whatever was applied, stopped, resumed and rolled back before, one rollback that is left to finish puts
      everything back to where it was, unless a copy made by the repair lies where another of its operations does
      without a snapshot. Plans without a clash never come to that. */
  method UndoAnything(disk: Disk, commands: seq<Command>, render: Render) returns (outcome: Outcome)
    requires disk.backup.None?
    requires forall c | c in commands && c.ApplyCommand? :: WellMade(c.plan)
    modifies disk
    ensures outcome == Done || disk.Contents() == old(disk.Contents()) || disk.IsBlocked()
    ensures outcome == Done ==> disk.Contents() == old(disk.Contents())
    ensures (forall c | c in commands && c.ApplyCommand? :: !Clash(c.plan.ops)) ==>
              disk.Contents() == old(disk.Contents())
  {
    hide Inv, Blocked, Clash;
    ghost var before := disk.Contents();
    NothingHappened(render, before);
    RunAll(disk, commands, render, before);
    disk.limit := None;
    NotBegun(render, before, disk.backup, disk.Contents());
    if disk.Recorded().Some? {
      BlockedIsClash(disk.Recorded().value.plan.ops, disk.snapshots);
    }
    outcome := disk.Rollback(render, before);
  }

  /** However often a repair is stopped, one resumption that is left to finish completes it, unless it is blocked. It
      also refuses if the first run found other data than the plan was made for or no run got as far as the journal,
      and then nothing has changed. */
  method CompleteAnything(disk: Disk, plan: Plan, clock: nat -> nat, limits: seq<nat>, render: Render)
    returns (outcome: Outcome)
    requires disk.backup.None? && WellMade(plan)
    modifies disk
    ensures outcome != Stopped
    ensures outcome == Done ==> RepairDone(render, old(disk.Contents()), plan, disk.Contents())
    ensures outcome == Refused ==> disk.Contents() == old(disk.Contents()) || disk.IsBlocked()
    ensures outcome == Refused && !Clash(plan.ops) ==> disk.Contents() == old(disk.Contents())
    ensures Planned(old(disk.Contents()), plan) && limits == [] ==> outcome == Done
  {
    hide Inv, Planned, RepairDone, Blocked, Clash, WellMade;
    ghost var before := disk.Contents();
    NothingHappened(render, before);
    for i := 0 to |limits|
      invariant disk.Holds(render, before)
      invariant disk.Recorded().None? || disk.At(plan, {Prepared, Indexing, Completed})
      invariant i == 0 ==> disk.backup.None?
    {
      disk.limit := Some(limits[i]);
      outcome := disk.Apply(plan, clock, render, before);
    }
    disk.limit := None;
    NotBegun(render, before, disk.backup, disk.Contents());
    BlockedIsClash(plan.ops, disk.snapshots);
    outcome := disk.Apply(plan, clock, render, before);
  }

  /** Once a repair has been rolled back, or is being rolled back, its backup is of no more use to any application:
      whatever plans are applied with it, all are refused and nothing changes. */
  method ApplyToUndone(disk: Disk, plans: seq<Plan>, clock: nat -> nat, limits: seq<Option<nat>>, render: Render,
                       ghost before: Data)
    returns (outcomes: seq<Outcome>)
    requires disk.Holds(render, before) && disk.AtAny({RollingBack, RolledBack})
    requires |limits| == |plans| && forall plan | plan in plans :: WellMade(plan)
    modifies disk
    ensures |outcomes| == |plans| && forall outcome | outcome in outcomes :: outcome == Refused
    ensures disk.Contents() == old(disk.Contents()) && disk.backup == old(disk.backup)
  {
    hide Inv, Blocked, WellMade;
    outcomes := [];
    for i := 0 to |plans|
      invariant disk.Holds(render, before) && disk.backup == old(disk.backup)
      invariant disk.Contents() == old(disk.Contents())
      invariant |outcomes| == i && forall outcome | outcome in outcomes :: outcome == Refused
    {
      disk.limit := limits[i];
      var outcome := disk.Apply(plans[i], clock, render, before);
      outcomes := outcomes + [outcome];
    }
  }

  /** In particular after a rollback that has finished the data stay as they were before the repair. */
  method UndoneForGood(disk: Disk, commands: seq<Command>, plans: seq<Plan>, clock: nat -> nat,
                       limits: seq<Option<nat>>, render: Render)
    returns (undone: Outcome, outcomes: seq<Outcome>)
    requires disk.backup.None? && |limits| == |plans| && forall plan | plan in plans :: WellMade(plan)
    requires forall c | c in commands && c.ApplyCommand? :: WellMade(c.plan)
    modifies disk
    ensures undone == Done ==>
              && disk.Contents() == old(disk.Contents())
              && |outcomes| == |plans| && forall outcome | outcome in outcomes :: outcome == Refused
  {
    hide Inv, Blocked, WellMade;
    ghost var before := disk.Contents();
    NothingHappened(render, before);
    RunAll(disk, commands, render, before);
    disk.limit := None;
    undone := disk.Rollback(render, before);
    outcomes := [];
    if undone == Done {
      outcomes := ApplyToUndone(disk, plans, clock, limits, render, before);
    }
  }

  lemma NothingHappened(render: Render, before: Data)
    ensures Inv(render, before, None, before)
  {
  }

  lemma NotBegun(render: Render, before: Data, backup: Option<Backup>, now: Data)
    requires Inv(render, before, backup, now)
    ensures backup.None? || backup.value.journal.None? ==> now == before
  {
    hide UnderWay;
  }

  lemma BlockedIsClash(ops: seq<Operation>, snapshots: map<string, Bytes>)
    ensures Blocked(ops, snapshots) ==> Clash(ops)
  {
    hide Disturbs;
  }

  // ----- clashes -----

  /** A plan that fits is applied; then it is applied again and rolled back. Both are refused exactly if it has a
      clash, and if not, the second application changes nothing and the rollback restores everything. */
  method FinishThenUndo(disk: Disk, plan: Plan, clock: nat -> nat, render: Render)
    returns (applied: Outcome, again: Outcome, undone: Outcome)
    requires disk.backup.None? && disk.limit.None? && Planned(disk.Contents(), plan)
    modifies disk
    ensures applied == Done
    ensures again == undone == Refused <==> Clash(plan.ops)
    ensures Clash(plan.ops) ==> RepairDone(render, old(disk.Contents()), plan, disk.Contents())
    ensures !Clash(plan.ops) ==> again == undone == Done && disk.Contents() == old(disk.Contents())
  {
    hide Inv, Planned, Blocked, Clash, RepairDone, WellMade;
    ghost var before := disk.Contents();
    NothingHappened(render, before);
    PlannedIsWellMade(before, plan);
    applied := disk.Apply(plan, clock, render, before);
    DoneIsBlockedByClash(render, before, plan, disk.Contents());
    disk.limit := None;
    again := disk.Apply(plan, clock, render, before);
    disk.limit := None;
    undone := disk.Rollback(render, before);
  }

  lemma DoneIsBlockedByClash(render: Render, before: Data, plan: Plan, now: Data)
    requires RepairDone(render, before, plan, now)
    ensures Blocked(plan.ops, now.snapshots) <==> Clash(plan.ops)
  {
    hide Disturbs, IsRepaired;
    forall op, a | op in plan.ops && a in op.assets
      ensures a.target in now.snapshots
    {
      assert Lookup(now.snapshots, a.target) == Some(a.content);
    }
  }

  /** Over all moments of all repairs and rollbacks of a plan: validation accepts every one of them if and only if the
      plan has no clash. */
  lemma ValidThroughoutExactly(render: Render, before: Data, plan: Plan)
    requires Planned(before, plan)
    ensures !Clash(plan.ops)
       <==> forall j: Journal, b, now | j.plan == plan && UnderWay(render, before, j, b, now) :: Validate(plan, now)
  {
    hide UnderWay, Planned, Clash, Blocked, Validate;
    if Clash(plan.ops) {
      var j, b, now := CopiedMoment(render, before, plan);
      UnderWayIsValid(render, before, j, b, now);
    } else {
      forall j: Journal, b, now | j.plan == plan && UnderWay(render, before, j, b, now)
        ensures Validate(plan, now)
      {
        UnderWayIsValid(render, before, j, b, now);
        BlockedIsClash(plan.ops, now.snapshots);
      }
    }
  }

  function NewTargets(ops: seq<Operation>): set<string> {
    set op, a | op in ops && a in op.assets && !a.existed :: a.target
  }

  /** A moment at which all copies have been made. */
  lemma CopiedMoment(render: Render, before: Data, plan: Plan) returns (j: Journal, b: Backup, now: Data)
    requires Planned(before, plan)
    ensures j.plan == plan && UnderWay(render, before, j, b, now)
    ensures Blocked(plan.ops, now.snapshots) <==> Clash(plan.ops)
  {
    hide UnderWay, Planned, Clash, Blocked, Controls, IsCopied, IsRepaired;
    PlannedParts(before, plan);
    var controls := map c | c in Controls(plan.roots) ::
          Entry(Lookup(before.controls, c), Lookup(before.controls, c), false);
    var copies := seq(|plan.ops|, i requires 0 <= i < |plan.ops| => before.sessions[plan.ops[i].source]);
    j := Journal(plan, Prepared, controls, {});
    b := Backup(Some(plan), copies, before.controls, map[], None);
    JournalStart(render, before, plan, b, j);
    b := b.(journal := Some(j));
    RollbackStep(render, before, j, b, before);
    j := j.(phase := RollingBack);
    b := b.(journal := Some(j));
    PerformedCopies(before, plan);
    now := before.(snapshots := Performed(before, plan.ops).snapshots);
    AllCopiedStep(render, before, j, b, now.snapshots);
    j := j.(assetWrites := NewTargets(plan.ops));
    CopiedIsBlockedByClash(before, plan, now.snapshots);
  }

  lemma PerformedCopies(before: Data, plan: Plan)
    requires Planned(before, plan)
    ensures IsCopied(before.snapshots, plan.ops, Performed(before, plan.ops).snapshots)
  {
    PlannedParts(before, plan);
    PerformedIsRepaired(before, plan.ops);
  }

  lemma AllCopiedStep(render: Render, before: Data, j: Journal, b: Backup, snapshots: map<string, Bytes>)
    requires UnderWay(render, before, j, b, before) && j.phase == RollingBack
    requires IsCopied(before.snapshots, j.plan.ops, snapshots)
    ensures UnderWay(render, before, j.(assetWrites := NewTargets(j.plan.ops)), b, before.(snapshots := snapshots))
  {
    hide SessionsOk, Planned, ControlsKnown, IsCopied, NewTargets, SnapshotsOk;
    var j' := j.(assetWrites := NewTargets(j.plan.ops));
    SameEntries(j, j', before.controls);
    CopiedIsOk(before, j', snapshots);
  }

  lemma CopiedIsOk(before: Data, j: Journal, snapshots: map<string, Bytes>)
    requires Planned(before, j.plan) && j.assetWrites == NewTargets(j.plan.ops)
    requires IsCopied(before.snapshots, j.plan.ops, snapshots)
    ensures SnapshotsOk(before.snapshots, j, snapshots)
  {
    hide ConflictFree, Affected;
    forall p | Lookup(snapshots, p) != Lookup(before.snapshots, p)
      ensures p in j.assetWrites && p in snapshots && Wants(j.plan.ops, p, snapshots[p])
    {
      var c :| Wants(j.plan.ops, p, c);
      var op, a :| op in j.plan.ops && a in op.assets && a.target == p && a.content == c;
      assert PlannedOp(before, op) && Lookup(snapshots, a.target) == Some(a.content);
    }
  }

  lemma CopiedIsBlockedByClash(before: Data, plan: Plan, snapshots: map<string, Bytes>)
    requires IsCopied(before.snapshots, plan.ops, snapshots)
    ensures Blocked(plan.ops, snapshots) <==> Clash(plan.ops)
  {
    hide Disturbs;
    forall op, a | op in plan.ops && a in op.assets
      ensures a.target in snapshots
    {
      assert Lookup(snapshots, a.target) == Some(a.content);
    }
  }

  // ----- a plan with a clash -----

  const CHILD := Loc("a", "C")
  const PARENT := Loc("b", "P")

  /** The histories of the two sessions in the two runtimes. */
  const CHILD_HISTORY_A := "a/C"
  const PARENT_HISTORY_A := "a/P"
  const PARENT_HISTORY_B := "b/P"

  /** A child session is in runtime `a` and belongs in `b`. It uses the history of its parent, and has none itself. */
  const MOVE := Operation(CHILD, Loc("b", "C"), map[], map[METADATA := 1], map[METADATA := 1],
                          [Asset(PARENT_HISTORY_A, PARENT_HISTORY_B, [7], false)], {CHILD_HISTORY_A})

  /** Its parent is in runtime `b` already, has no history there, and is to be rewritten. */
  const REWRITE := Operation(PARENT, PARENT, map[METADATA := Update([1], [2])], map[METADATA := 1], map[METADATA := 1],
                             [], {PARENT_HISTORY_B})

  const CLASHING := Data(map[CHILD := map[METADATA := [0]], PARENT := map[METADATA := [1]]], map[],
                         map[PARENT_HISTORY_A := [7]])

  const CLASHING_PLAN := Plan([MOVE, REWRITE], {"a", "b"}, map[CHILD := [0], PARENT := [1]])

  /** The planner's conflict pass accepts both operations, their plan fits the data, and it has a clash. */
  lemma ClashIsAccepted()
    ensures Scanned(CLASHING.sessions, [MOVE, REWRITE])
    ensures Accepted([MOVE, REWRITE], 2) == [MOVE, REWRITE]
    ensures Planned(CLASHING, CLASHING_PLAN)
    ensures Clash(CLASHING_PLAN.ops)
  {
    hide Within, Exists;
    ClashIsPlanned();
    ClashIsAcceptable();
    HistoryClashes();
  }

  lemma HistoryClashes()
    ensures Clash(CLASHING_PLAN.ops)
  {
    assert PARENT_HISTORY_B in REWRITE.absent && Within(PARENT_HISTORY_B, PARENT_HISTORY_B);
    assert REWRITE in CLASHING_PLAN.ops && DoesWithout(REWRITE, PARENT_HISTORY_B);
    assert MOVE in CLASHING_PLAN.ops && MOVE.assets[0] in MOVE.assets;
  }

  lemma OnlyMoveHasAssets(op: Operation, a: Asset)
    requires op in CLASHING_PLAN.ops && a in op.assets
    ensures op == MOVE && a == MOVE.assets[0]
  {
  }

  lemma ClashIsAcceptable()
    ensures AssetsAgree(CLASHING_PLAN.ops)
    ensures Accepted([MOVE, REWRITE], 2) == [MOVE, REWRITE]
  {
    var ops := [MOVE, REWRITE];
    forall p, c, c' | Wants(ops, p, c) && Wants(ops, p, c')
      ensures c == c'
    {
      var op, a :| op in ops && a in op.assets && a.target == p && a.content == c;
      var op', a' :| op' in ops && a' in op'.assets && a'.target == p && a'.content == c';
      OnlyMoveHasAssets(op, a);
      OnlyMoveHasAssets(op', a');
    }
    assert forall p :: SameContent(ops, p);
    hide Wants, SameContent;
    assert UniqueTarget(ops, MOVE.target) && UniqueTarget(ops, REWRITE.target);
    assert Acceptable(ops, ops[0]) && Acceptable(ops, ops[1]);
    assert Accepted(ops, 0) == [];
    assert Accepted(ops, 1) == [MOVE];
  }

  lemma NothingAbsent()
    ensures !Exists(CLASHING.snapshots, CHILD_HISTORY_A) && !Exists(CLASHING.snapshots, PARENT_HISTORY_B)
  {
    assert PARENT_HISTORY_A[2] == 'P' && CHILD_HISTORY_A[2] == 'C';
    assert PARENT_HISTORY_A[0] == 'a' && PARENT_HISTORY_B[0] == 'b';
    assert |CHILD_HISTORY_A + "/"| == 4 && |PARENT_HISTORY_B + "/"| == 4;
  }

  lemma Distinct()
    ensures "a" != "b" && PARENT_HISTORY_A != PARENT_HISTORY_B
  {
    assert "a"[0] != "b"[0];
    assert PARENT_HISTORY_A[0] != PARENT_HISTORY_B[0];
  }

  lemma MoveIsPlanned()
    ensures PlannedOp(CLASHING, MOVE)
  {
    hide Exists;
    Distinct();
    NothingAbsent();
    assert CLASHING.sessions[CHILD] == map[METADATA := [0]];
    assert PlainSizes(map[METADATA := [0]]) == map[METADATA := 1];
    assert Rewritten(MOVE, map[METADATA := [0]]) == map[METADATA := [0]];
  }

  lemma RewriteIsPlanned()
    ensures PlannedOp(CLASHING, REWRITE)
  {
    hide Exists;
    NothingAbsent();
    assert CLASHING.sessions[PARENT] == map[METADATA := [1]];
    assert PlainSizes(map[METADATA := [1]]) == map[METADATA := 1];
    assert Rewritten(REWRITE, map[METADATA := [1]]) == map[METADATA := [2]];
    assert METADATA in REWRITE.updates;
  }

  lemma ApartHere()
    ensures AllApart(CLASHING_PLAN.ops)
  {
    Distinct();
    assert Apart(MOVE, REWRITE);
  }

  lemma ScannedHere()
    ensures Scanned(CLASHING.sessions, CLASHING_PLAN.ops)
  {
    Distinct();
    assert CLASHING.sessions.Keys == {CHILD, PARENT};
  }

  lemma ClashIsPlanned()
    ensures Scanned(CLASHING.sessions, [MOVE, REWRITE])
    ensures Planned(CLASHING, CLASHING_PLAN)
  {
    hide PlannedOp, AssetsAgree, AllApart, Scanned, Affected, Catalog;
    ClashIsAcceptable();
    MoveIsPlanned();
    RewriteIsPlanned();
    ApartHere();
    ScannedHere();
    AffectedHere();
    CatalogHere();
    forall op | op in CLASHING_PLAN.ops
      ensures PlannedOp(CLASHING, op)
    {
    }
  }

  lemma AffectedHere()
    ensures Affected(CLASHING_PLAN.ops) == {"a", "b"}
  {
    assert MOVE in CLASHING_PLAN.ops && REWRITE in CLASHING_PLAN.ops;
  }

  lemma CatalogHere()
    ensures Catalog(CLASHING.sessions, {"a", "b"}) == map[CHILD := [0], PARENT := [1]]
  {
    Distinct();
  }
}
