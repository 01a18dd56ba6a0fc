// Applying, resuming and rolling back a session repair (repair-session-storage.py). Every change of the disk is one
// atomic step, and the process may be stopped before any of them.
module Repair {
  import opened Common
  import opened RepairPlan
  import opened RepairSessions
  import opened RepairJournal

  datatype Outcome = Done | Stopped | Refused

  // ----- what each kind of step keeps -----

  lemma PlannedParts(before: Data, plan: Plan)
    requires Planned(before, plan)
    ensures AssetsAgree(plan.ops)
    ensures forall op | op in plan.ops :: op.source in before.sessions
  {
  }

  lemma WriteIsCreated(before: map<string, Bytes>, j: Journal, snapshots: map<string, Bytes>, p: string)
    requires SnapshotsOk(before, j, snapshots) && p in j.assetWrites
    ensures Created(j.plan.ops, p)
  {
  }

  lemma SameEntries(j: Journal, j': Journal, controls: map<Control, Bytes>)
    requires j.controls == j'.controls && ControlsKnown(j, controls)
    ensures ControlsKnown(j', controls)
  {
  }

  lemma SameWrites(before: map<string, Bytes>, j: Journal, j': Journal, snapshots: map<string, Bytes>)
    requires j.plan == j'.plan && j.assetWrites == j'.assetWrites && SnapshotsOk(before, j, snapshots)
    ensures SnapshotsOk(before, j', snapshots)
  {
  }

  lemma SessionStep(render: Render, before: Data, j: Journal, b: Backup, now: Data, sessions: Tree)
    requires UnderWay(render, before, j, b, now)
    requires SessionsOk(before.sessions, j.plan.ops, sessions)
    requires j.phase in {Prepared, RollingBack} || sessions == now.sessions
    ensures UnderWay(render, before, j, b, now.(sessions := sessions))
  {
    hide Planned, SessionsOk, BackupOk, SnapshotsOk;
  }

  lemma CopyStep(render: Render, before: Data, j: Journal, b: Backup, now: Data, op: Operation, a: Asset)
    requires UnderWay(render, before, j, b, now) && j.phase in {Prepared, Indexing}
    requires op in j.plan.ops && a in op.assets && a.target in j.assetWrites
    ensures UnderWay(render, before, j, b, now.(snapshots := now.snapshots[a.target := a.content]))
    ensures KeepsCopies(j.plan.ops, now.snapshots, now.snapshots[a.target := a.content])
  {
    hide SessionsOk, BackupOk, ControlsOk, IsRepaired, IndexesOk, Planned, AssetsPresent, KeepsCopies, SnapshotsOk;
    CopyIsOk(before.snapshots, j, now.snapshots, op, a);
    PlannedParts(before, j.plan);
    CopyKeeps(j.plan.ops, now.snapshots, op, a);
  }

  lemma CopyIsOk(before: map<string, Bytes>, j: Journal, snapshots: map<string, Bytes>, op: Operation, a: Asset)
    requires SnapshotsOk(before, j, snapshots)
    requires op in j.plan.ops && a in op.assets && a.target in j.assetWrites
    ensures SnapshotsOk(before, j, snapshots[a.target := a.content])
  {
    assert Wants(j.plan.ops, a.target, a.content);
    hide Wants, Created;
    forall p
      ensures Lookup(snapshots[a.target := a.content], p) == Lookup(before, p)
           || (p in j.assetWrites && p in snapshots[a.target := a.content]
               && Wants(j.plan.ops, p, snapshots[a.target := a.content][p]))
    {
      assert p != a.target ==> Lookup(snapshots[a.target := a.content], p) == Lookup(snapshots, p);
    }
  }

  /** Every asset that was in place still is. */
  ghost predicate KeepsCopies(ops: seq<Operation>, snapshots: map<string, Bytes>, snapshots': map<string, Bytes>) {
    forall op, a | op in ops && a in op.assets && Lookup(snapshots, a.target) == Some(a.content) ::
      Lookup(snapshots', a.target) == Some(a.content)
  }

  lemma CopyKeeps(ops: seq<Operation>, snapshots: map<string, Bytes>, op: Operation, a: Asset)
    requires AssetsAgree(ops) && op in ops && a in op.assets
    ensures var snapshots' := snapshots[a.target := a.content];
            && KeepsCopies(ops, snapshots, snapshots')
            && (AssetsPresent(ops, snapshots) ==> AssetsPresent(ops, snapshots'))
  {
    assert Wants(ops, a.target, a.content) && SameContent(ops, a.target);
    forall op', a' | op' in ops && a' in op'.assets && Lookup(snapshots, a'.target) == Some(a'.content)
      ensures Lookup(snapshots[a.target := a.content], a'.target) == Some(a'.content)
    {
      assert Wants(ops, a'.target, a'.content);
    }
  }

  lemma RemoveStep(render: Render, before: Data, j: Journal, b: Backup, now: Data, p: string)
    requires UnderWay(render, before, j, b, now) && j.phase == RollingBack
    requires p in j.assetWrites
    ensures UnderWay(render, before, j, b, now.(snapshots := now.snapshots - {p}))
  {
    hide SessionsOk, BackupOk, ControlsOk, Planned, SnapshotsOk;
    WriteIsCreated(before.snapshots, j, now.snapshots, p);
    CreatedIsNew(before, j, p);
    RemoveIsOk(before.snapshots, j, now.snapshots, p);
  }

  lemma RemoveIsOk(before: map<string, Bytes>, j: Journal, snapshots: map<string, Bytes>, p: string)
    requires SnapshotsOk(before, j, snapshots) && p !in before
    ensures SnapshotsOk(before, j, snapshots - {p})
  {
    hide Wants, Created;
    forall q
      ensures Lookup(snapshots - {p}, q) == Lookup(before, q)
           || (q in j.assetWrites && q in snapshots - {p} && Wants(j.plan.ops, q, (snapshots - {p})[q]))
    {
      assert q != p ==> Lookup(snapshots - {p}, q) == Lookup(snapshots, q);
    }
  }

  function Set<K, V>(m: map<K, V>, k: K, v: Option<V>): map<K, V> {
    if v.Some? then m[k := v.value] else m - {k}
  }

  lemma ControlStep(render: Render, before: Data, j: Journal, b: Backup, now: Data, c: Control, v: Option<Bytes>)
    requires UnderWay(render, before, j, b, now) && j.phase in {Indexing, RollingBack}
    requires c in j.controls && v in {j.controls[c].was, j.controls[c].will}
    ensures UnderWay(render, before, j, b, now.(controls := Set(now.controls, c, v)))
  {
    hide SessionsOk, BackupOk, SnapshotsOk, Planned, IsRepaired, AssetsPresent, IndexesOk;
  }

  lemma RecordStep(render: Render, before: Data, j: Journal, b: Backup, now: Data, p: string)
    requires UnderWay(render, before, j, b, now) && j.phase == Prepared
    requires Created(j.plan.ops, p)
    ensures UnderWay(render, before, j.(assetWrites := j.assetWrites + {p}),
                     b.(journal := Some(j.(assetWrites := j.assetWrites + {p}))), now)
  {
    hide SessionsOk, Planned, ControlsKnown;
    var j' := j.(assetWrites := j.assetWrites + {p});
    SameEntries(j, j', now.controls);
  }

  lemma PhaseStep(render: Render, before: Data, j: Journal, b: Backup, now: Data, phase: Phase)
    requires UnderWay(render, before, j, b, now)
    requires PhaseOk(render, before, j.(phase := phase), now)
    ensures UnderWay(render, before, j.(phase := phase), b.(journal := Some(j.(phase := phase))), now)
  {
    hide SessionsOk, Planned, PhaseOk, SnapshotsOk;
    var j' := j.(phase := phase);
    SameWrites(before.snapshots, j, j', now.snapshots);
  }

  lemma About(render: Render, before: Data, j: Journal, b: Backup, now: Data, op: Operation)
    requires UnderWay(render, before, j, b, now) && op in j.plan.ops
    ensures AllApart(j.plan.ops) && PlannedOp(before, op) && op.source in before.sessions
    ensures SessionsOk(before.sessions, j.plan.ops, now.sessions)
    ensures Placed(op, before.sessions[op.source], now.sessions)
    ensures j.phase in {Indexing, Completed} ==> IsFinal(op, before.sessions[op.source], now.sessions)
  {
    hide BackupOk, SnapshotsOk, ControlsOk;
    if j.phase in {Indexing, Completed} {
      RepairedIsFinal(before, j.plan, now.sessions, op);
    }
  }

  lemma RenameStep(render: Render, before: Data, j: Journal, b: Backup, now: Data, op: Operation, here: Loc,
                   there: Loc, sessions: Tree)
    requires UnderWay(render, before, j, b, now) && op in j.plan.ops && j.phase in {Prepared, RollingBack}
    requires op.source != op.target && {here, there} == {op.source, op.target} && here in now.sessions
    requires sessions == (now.sessions - {here})[there := now.sessions[here]]
    ensures UnderWay(render, before, j, b, now.(sessions := sessions))
    ensures Locate(op, sessions, true) == Some(there) && SameElsewhere(op, now.sessions, sessions)
  {
    hide UnderWay, SessionsOk, PlannedOp;
    About(render, before, j, b, now, op);
    StepKeeps(before.sessions, j.plan.ops, op, now.sessions, sessions);
    SessionStep(render, before, j, b, now, sessions);
  }

  lemma WriteStep(render: Render, before: Data, j: Journal, b: Backup, now: Data, op: Operation, here: Loc, n: Name,
                  v: Bytes, sessions: Tree)
    requires UnderWay(render, before, j, b, now) && op in j.plan.ops && j.phase in {Prepared, RollingBack}
    requires Locate(op, now.sessions, true) == Some(here)
    requires n in op.updates && v in {op.updates[n].before, op.updates[n].after}
    requires sessions == now.sessions[here := now.sessions[here][n := v]]
    ensures UnderWay(render, before, j, b, now.(sessions := sessions))
    ensures Locate(op, sessions, true) == Some(here) && SameElsewhere(op, now.sessions, sessions)
  {
    hide UnderWay, SessionsOk;
    About(render, before, j, b, now, op);
    StepKeeps(before.sessions, j.plan.ops, op, now.sessions, sessions);
    SessionStep(render, before, j, b, now, sessions);
  }

  lemma AboutAsset(render: Render, before: Data, j: Journal, b: Backup, now: Data, op: Operation, a: Asset)
    requires UnderWay(render, before, j, b, now) && op in j.plan.ops && a in op.assets
    ensures Lookup(now.snapshots, a.source) == Some(a.content)
    ensures Lookup(now.snapshots, a.target) in {None, Some(a.content)}
    ensures a.target in now.snapshots ==> a.existed || a.target in j.assetWrites
    ensures a.existed ==> a.target in now.snapshots
    ensures j.phase in {Indexing, Completed} ==> a.target in now.snapshots
    ensures !a.existed ==> Created(j.plan.ops, a.target)
  {
    hide SessionsOk, BackupOk, ControlsOk, IsRepaired, IndexesOk, Planned, SnapshotsOk;
    SnapshotIs(before, j, now.snapshots, op, a);
    if j.phase in {Indexing, Completed} {
      assert Lookup(now.snapshots, a.target) == Some(a.content);
    }
  }

  lemma FinalsKeep(before: Tree, ops: seq<Operation>, i: nat, tree: Tree, tree': Tree)
    requires i < |ops| && AllApart(ops) && SameElsewhere(ops[i], tree, tree')
    requires forall op | op in ops :: op.source in before
    requires forall op | op in ops[..i] :: IsFinal(op, before[op.source], tree)
    requires IsFinal(ops[i], before[ops[i].source], tree')
    ensures forall op | op in ops[..i + 1] :: IsFinal(op, before[op.source], tree')
  {
    hide IsFinal, SameElsewhere, Apart;
    forall op | op in ops[..i + 1]
      ensures IsFinal(op, before[op.source], tree')
    {
      var k :| 0 <= k <= i && ops[k] == op;
      if k < i {
        assert op in ops[..i];
        ApartIsSymmetric(ops[k], ops[i]);
        OthersKeep(ops[i], op, before[op.source], tree, tree');
      }
    }
  }

  lemma ApartIsSymmetric(op: Operation, op': Operation)
    requires Apart(op, op')
    ensures Apart(op', op)
  {
  }

  lemma OriginalsKeep(before: Tree, ops: seq<Operation>, i: nat, tree: Tree, tree': Tree)
    requires i < |ops| && AllApart(ops) && SameElsewhere(ops[i], tree, tree')
    requires forall op | op in ops :: op.source in before
    requires forall op | op in ops[i + 1..] :: IsOriginal(op, before[op.source], tree)
    requires IsOriginal(ops[i], before[ops[i].source], tree')
    ensures forall op | op in ops[i..] :: IsOriginal(op, before[op.source], tree')
  {
    hide IsOriginal, SameElsewhere, Apart;
    forall op | op in ops[i..]
      ensures IsOriginal(op, before[op.source], tree')
    {
      var k :| i <= k < |ops| && ops[k] == op;
      if i < k {
        assert ops[k] == ops[i + 1..][k - i - 1];
        assert Apart(ops[i], ops[k]);
        OthersKeep(ops[i], op, before[op.source], tree, tree');
      }
    }
  }

  ghost predicate PresentFor(op: Operation, n: nat, snapshots: map<string, Bytes>) {
    forall k | 0 <= k < n && k < |op.assets| :: Lookup(snapshots, op.assets[k].target) == Some(op.assets[k].content)
  }

  lemma NothingLost(ops: seq<Operation>, snapshots: map<string, Bytes>)
    ensures KeepsCopies(ops, snapshots, snapshots)
  {
  }

  lemma NothingWanted(ops: seq<Operation>, snapshots: map<string, Bytes>)
    ensures AssetsPresent(ops[..0], snapshots)
  {
  }

  lemma PresentForNone(op: Operation, snapshots: map<string, Bytes>)
    ensures PresentFor(op, 0, snapshots)
  {
  }

  lemma PresentForNext(op: Operation, k: nat, snapshots: map<string, Bytes>)
    requires k < |op.assets| && PresentFor(op, k, snapshots)
    requires Lookup(snapshots, op.assets[k].target) == Some(op.assets[k].content)
    ensures PresentFor(op, k + 1, snapshots)
  {
  }

  lemma PresentKeeps(ops: seq<Operation>, i: nat, n: nat, snapshots: map<string, Bytes>, snapshots': map<string, Bytes>)
    requires i < |ops| && KeepsCopies(ops, snapshots, snapshots')
    ensures AssetsPresent(ops[..i], snapshots) ==> AssetsPresent(ops[..i], snapshots')
    ensures PresentFor(ops[i], n, snapshots) ==> PresentFor(ops[i], n, snapshots')
  {
  }

  lemma PresentNext(ops: seq<Operation>, i: nat, snapshots: map<string, Bytes>)
    requires i < |ops| && AssetsPresent(ops[..i], snapshots) && PresentFor(ops[i], |ops[i].assets|, snapshots)
    ensures AssetsPresent(ops[..i + 1], snapshots)
  {
    assert ops[..i + 1] == ops[..i] + [ops[i]];
  }

  lemma PendingStep(render: Render, before: Data, j: Journal, b: Backup, now: Data, c: Control, data: Bytes)
    requires UnderWay(render, before, j, b, now) && j.phase == Prepared
    ensures UnderWay(render, before, j, b.(pending := b.pending[c := data]), now)
  {
    hide Planned, SessionsOk, SnapshotsOk, ControlsOk;
  }

  /** What the loop over the control entries has settled, `todo` being left. */
  ghost predicate EntriesOk(render: Render, tree: Tree, was: map<Control, Entry>, todo: set<Control>,
                            entries: map<Control, Entry>, pending: map<Control, Bytes>) {
    && entries.Keys == was.Keys
    && (forall c | c in entries :: entries[c].was == was[c].was)
    && (forall c | c in entries && c !in todo ::
          if c.file == Index then
            entries[c].pending && IsIndex(render, c.root, tree, entries[c].will)
            && Lookup(pending, c) == entries[c].will
          else !entries[c].pending && entries[c].will == None)
  }

  lemma NoEntryYet(render: Render, tree: Tree, was: map<Control, Entry>, pending: map<Control, Bytes>)
    ensures EntriesOk(render, tree, was, was.Keys, was, pending)
  {
  }

  lemma MadeIndex(render: Render, root: string, tree: Tree, now: nat)
    ensures IsIndex(render, root, tree, Some(render(root, Catalog(tree, {root}), now)))
  {
  }

  lemma IndexEntry(render: Render, tree: Tree, was: map<Control, Entry>, todo: set<Control>,
                   entries: map<Control, Entry>, pending: map<Control, Bytes>, c: Control, data: Bytes)
    requires EntriesOk(render, tree, was, todo, entries, pending)
    requires c in todo && c in entries && c.file == Index && IsIndex(render, c.root, tree, Some(data))
    ensures EntriesOk(render, tree, was, todo - {c}, entries[c := Entry(entries[c].was, Some(data), true)],
                      pending[c := data])
  {
    hide IsIndex;
  }

  lemma CacheEntry(render: Render, tree: Tree, was: map<Control, Entry>, todo: set<Control>,
                   entries: map<Control, Entry>, pending: map<Control, Bytes>, c: Control)
    requires EntriesOk(render, tree, was, todo, entries, pending)
    requires c in todo && c in entries && c.file != Index
    ensures EntriesOk(render, tree, was, todo - {c}, entries[c := Entry(entries[c].was, None, false)], pending)
  {
    hide IsIndex;
  }

  lemma IndexStep(render: Render, before: Data, j: Journal, b: Backup, now: Data, entries: map<Control, Entry>,
                  j': Journal)
    requires UnderWay(render, before, j, b, now) && j.phase == Prepared
    requires forall op | op in j.plan.ops :: op.source in before.sessions
    requires IsRepaired(before.sessions, j.plan.ops, now.sessions) && AssetsPresent(j.plan.ops, now.snapshots)
    requires EntriesOk(render, now.sessions, j.controls, {}, entries, b.pending)
    requires j' == j.(controls := entries, phase := Indexing)
    ensures UnderWay(render, before, j', b.(journal := Some(j')), now)
  {
    hide Planned, SessionsOk, SnapshotsOk, IsRepaired, AssetsPresent;
    SameWrites(before.snapshots, j, j', now.snapshots);
    EntriesFit(render, before, j, b, now, entries);
  }

  lemma EntriesFit(render: Render, before: Data, j: Journal, b: Backup, now: Data, entries: map<Control, Entry>)
    requires BackupOk(before, j, b) && ControlsOk(before.controls, j, now.controls)
    requires forall c | c in j.controls :: !j.controls[c].pending && j.controls[c].will == j.controls[c].was
    requires EntriesOk(render, now.sessions, j.controls, {}, entries, b.pending)
    ensures BackupOk(before, j.(controls := entries, phase := Indexing),
                     b.(journal := Some(j.(controls := entries, phase := Indexing))))
    ensures ControlsOk(before.controls, j.(controls := entries, phase := Indexing), now.controls)
    ensures IndexesOk(render, entries, now.sessions)
  {
  }

  lemma Sources(render: Render, before: Data, j: Journal, b: Backup, now: Data)
    requires UnderWay(render, before, j, b, now)
    ensures AllApart(j.plan.ops)
    ensures forall op | op in j.plan.ops :: op.source in before.sessions
  {
    hide SessionsOk, BackupOk, SnapshotsOk, ControlsOk;
  }

  lemma AllFinalNow(render: Render, before: Data, j: Journal, b: Backup, now: Data)
    requires UnderWay(render, before, j, b, now)
    requires forall op | op in j.plan.ops :: op.source in before.sessions
    requires forall op | op in j.plan.ops :: IsFinal(op, before.sessions[op.source], now.sessions)
    ensures IsRepaired(before.sessions, j.plan.ops, now.sessions)
  {
    hide SessionsOk, BackupOk, SnapshotsOk, ControlsOk, IsFinal, Planned, IsRepaired;
    AllFinal(before.sessions, j.plan.ops, now.sessions);
  }

  lemma AboutControl(render: Render, before: Data, j: Journal, b: Backup, now: Data, c: Control)
    requires UnderWay(render, before, j, b, now) && c in j.controls
    ensures j.controls[c].was.Some? ==> Lookup(b.copies, c) == j.controls[c].was
    ensures j.controls[c].pending ==> c in b.pending && Some(b.pending[c]) == j.controls[c].will
    ensures j.phase in {Indexing, Completed} && !j.controls[c].pending ==> j.controls[c].will == None
  {
    hide SessionsOk, SnapshotsOk, ControlsOk, IsRepaired, AssetsPresent, Planned;
  }

  lemma AboutIndexing(render: Render, before: Data, j: Journal, b: Backup, now: Data)
    requires UnderWay(render, before, j, b, now)
    ensures Planned(before, j.plan) && SessionsOk(before.sessions, j.plan.ops, now.sessions)
    ensures forall op | op in j.plan.ops :: op.source in before.sessions
    ensures j.phase in {Indexing, Completed} ==> IsRepaired(before.sessions, j.plan.ops, now.sessions)
  {
    hide SessionsOk, SnapshotsOk, BackupOk, ControlsOk, ConflictFree, IsRepaired;
  }

  lemma PhaseCompleted(render: Render, before: Data, j: Journal, b: Backup, now: Data)
    requires UnderWay(render, before, j, b, now) && j.phase == Indexing
    requires forall op | op in j.plan.ops :: op.source in before.sessions
    requires forall c | c in j.controls :: Lookup(now.controls, c) == j.controls[c].will
    ensures PhaseOk(render, before, j.(phase := Completed), now)
  {
    hide SessionsOk, SnapshotsOk, BackupOk, Planned, IsRepaired, AssetsPresent, IndexesOk;
  }

  lemma CompletedStep(render: Render, before: Data, j: Journal, b: Backup, now: Data)
    requires UnderWay(render, before, j, b, now) && j.phase == Indexing
    requires forall c | c in j.controls :: Lookup(now.controls, c) == j.controls[c].will
    ensures UnderWay(render, before, j.(phase := Completed), b.(journal := Some(j.(phase := Completed))), now)
  {
    hide UnderWay, PhaseOk, SessionsOk, SnapshotsOk, BackupOk, Planned, IsRepaired, AssetsPresent, IndexesOk;
    AboutIndexing(render, before, j, b, now);
    PhaseCompleted(render, before, j, b, now);
    PhaseStep(render, before, j, b, now, Completed);
  }

  lemma PlannedSizes(before: Data, plan: Plan, op: Operation)
    requires Planned(before, plan) && op in plan.ops
    ensures op.source in before.sessions && PlainSizes(before.sessions[op.source]) == op.sizes
  {
  }

  /** The entries made so far keep what the derived files hold, with a copy of those that exist. */
  ghost predicate CopiesOk(controls: map<Control, Bytes>, entries: map<Control, Entry>, copies: map<Control, Bytes>) {
    forall c | c in entries ::
      && entries[c] == Entry(Lookup(controls, c), Lookup(controls, c), false)
      && (c in controls ==> Lookup(copies, c) == Some(controls[c]))
  }

  ghost predicate SessionsCopied(tree: Tree, ops: seq<Operation>, copies: seq<Dir>) {
    |copies| == |ops| && forall k | 0 <= k < |ops| :: Lookup(tree, ops[k].source) == Some(copies[k])
  }

  lemma JournalStart(render: Render, before: Data, plan: Plan, b: Backup, j: Journal)
    requires Planned(before, plan) && b.plan == Some(plan)
    requires SessionsCopied(before.sessions, plan.ops, b.sessions)
    requires j.controls.Keys == Controls(plan.roots) && CopiesOk(before.controls, j.controls, b.copies)
    requires j.plan == plan && j.phase == Prepared && j.assetWrites == {}
    ensures UnderWay(render, before, j, b.(journal := Some(j)), before)
  {
    hide Controls, SessionsOk, Planned, BackupOk, CopiesOk, ControlsOk;
    PlacedAtStart(before, plan);
    PlannedParts(before, plan);
    BackupAtStart(before, b, j);
  }

  lemma BackupAtStart(before: Data, b: Backup, j: Journal)
    requires b.plan == Some(j.plan) && SessionsCopied(before.sessions, j.plan.ops, b.sessions)
    requires j.controls.Keys == Controls(j.plan.roots) && CopiesOk(before.controls, j.controls, b.copies)
    ensures BackupOk(before, j, b.(journal := Some(j))) && ControlsOk(before.controls, j, before.controls)
    ensures forall c | c in j.controls :: !j.controls[c].pending && j.controls[c].will == j.controls[c].was
  {
    hide Controls;
    forall c: Control
      ensures c in j.controls <==> c.root in j.plan.roots
    {
      InControls(j.plan.roots, c);
    }
  }

  predicate Of(backup: Option<Backup>, plan: Plan) {
    backup.Some? && backup.value.journal.Some? && backup.value.journal.value.plan == plan
  }

  lemma Fit(render: Render, before: Data, plan: Plan, backup: Option<Backup>, now: Data)
    requires Inv(render, before, backup, now) && Validate(plan, now)
    ensures Of(backup, plan) ==> !Blocked(plan.ops, now.snapshots)
  {
    hide UnderWay, Planned, Validate, Blocked;
    if Of(backup, plan) {
      UnderWayIsValid(render, before, backup.value.journal.value, backup.value, now);
    }
  }

  /** Validation fails only when there is neither a first run on fitting data nor a repair under way, or when a copy
      made by that repair is where another of its operations does without. */
  lemma Unfit(render: Render, before: Data, plan: Plan, backup: Option<Backup>, now: Data)
    requires Inv(render, before, backup, now) && !Validate(plan, now)
    ensures Of(backup, plan) ==> Blocked(plan.ops, now.snapshots)
    ensures !Planned(now, plan)
  {
    hide UnderWay, Planned, Validate, Blocked;
    if backup.Some? && backup.value.journal.Some? && backup.value.journal.value.plan == plan {
      UnderWayIsValid(render, before, backup.value.journal.value, backup.value, now);
    }
    if Planned(now, plan) {
      PlannedIsValid(now, plan);
    }
  }

  lemma PlannedIsValid(data: Data, plan: Plan)
    requires Planned(data, plan)
    ensures Validate(plan, data)
  {
    forall op | op in plan.ops
      ensures ValidOp(op, data)
    {
      assert PlannedOp(data, op);
      MixedSizes(op, data.sessions[op.source], data.sessions[op.source]);
    }
    forall i, j | 0 <= i < j < |plan.ops|
      ensures plan.ops[i].source != plan.ops[j].source && plan.ops[i].target != plan.ops[j].target
    {
      assert Apart(plan.ops[i], plan.ops[j]);
    }
  }

  lemma NotIntact(render: Render, before: Data, plan: Plan, backup: Option<Backup>, now: Data)
    requires Inv(render, before, backup, now) && backup.Some? && !Intact(backup.value, plan)
    ensures backup.value.journal.Some? ==> backup.value.journal.value.plan != plan
  {
    hide UnderWay, Intact;
    if backup.value.journal.Some? {
      UnderWayIsIntact(render, before, backup.value.journal.value, backup.value, now);
    }
  }

  lemma IntactHasJournal(b: Backup, plan: Plan)
    requires Intact(b, plan)
    ensures b.journal.Some? && b.journal.value.plan == plan
  {
  }

  lemma AssetsFit(plan: Plan, data: Data)
    ensures Planned(data, plan) ==>
              forall op, a | op in plan.ops && a in op.assets :: (a.target in data.snapshots) == a.existed
  {
    hide ConflictFree;
    if Planned(data, plan) {
      forall op, a | op in plan.ops && a in op.assets
        ensures (a.target in data.snapshots) == a.existed
      {
        assert PlannedOp(data, op);
      }
    }
  }

  lemma AboutCompleted(render: Render, before: Data, j: Journal, b: Backup, now: Data)
    requires UnderWay(render, before, j, b, now)
    ensures ControlsKnown(j, now.controls)
    ensures j.phase == Completed ==>
              && RepairDone(render, before, j.plan, now)
              && (forall op | op in j.plan.ops ::
                    op.target in now.sessions && PlainSizes(now.sessions[op.target]) == op.repairedSizes)
              && (forall c | c in j.controls :: Lookup(now.controls, c) == j.controls[c].will)
              && (forall op, a | op in j.plan.ops && a in op.assets ::
                    Lookup(now.snapshots, a.target) == Some(a.content))
  {
    hide SessionsOk, SnapshotsOk, BackupOk, IsRepaired, IndexesOk, RepairDone, Rewritten, ConflictFree, PlainSizes;
    if j.phase == Completed {
      SettledIsDone(render, before, j, b, now);
      forall op | op in j.plan.ops
        ensures op.target in now.sessions && PlainSizes(now.sessions[op.target]) == op.repairedSizes
      {
        assert PlannedOp(before, op);
        RepairedIsFinal(before, j.plan, now.sessions, op);
      }
    }
  }

  lemma AllOriginalNow(render: Render, before: Data, j: Journal, b: Backup, now: Data)
    requires UnderWay(render, before, j, b, now)
    requires forall op | op in j.plan.ops :: op.source in before.sessions
    requires forall op | op in j.plan.ops :: IsOriginal(op, before.sessions[op.source], now.sessions)
    ensures now.sessions == before.sessions
  {
    hide SessionsOk, BackupOk, SnapshotsOk, ControlsOk, IsOriginal, Planned;
    AllOriginal(before, j.plan, now.sessions);
  }

  lemma PlanIsKept(render: Render, before: Data, backup: Option<Backup>, now: Data)
    requires Inv(render, before, backup, now)
    ensures backup.Some? && backup.value.journal.Some? ==> backup.value.plan == Some(backup.value.journal.value.plan)
  {
    hide Planned, SessionsOk, SnapshotsOk, ControlsOk, PhaseOk;
  }

  lemma CopiesAreGood(render: Render, before: Data, j: Journal, b: Backup, now: Data)
    requires UnderWay(render, before, j, b, now)
    ensures forall op, a | op in j.plan.ops && a in op.assets ::
              Lookup(now.snapshots, a.target) in {None, Some(a.content)}
  {
    hide UnderWay;
    forall op, a | op in j.plan.ops && a in op.assets
      ensures Lookup(now.snapshots, a.target) in {None, Some(a.content)}
    {
      AboutAsset(render, before, j, b, now, op, a);
    }
  }

  lemma RollbackStep(render: Render, before: Data, j: Journal, b: Backup, now: Data)
    requires UnderWay(render, before, j, b, now)
    ensures UnderWay(render, before, j.(phase := RollingBack), b.(journal := Some(j.(phase := RollingBack))), now)
  {
    hide UnderWay;
    Sources(render, before, j, b, now);
    PhaseStep(render, before, j, b, now, RollingBack);
  }

  lemma RolledBackStep(render: Render, before: Data, j: Journal, b: Backup, now: Data)
    requires UnderWay(render, before, j, b, now)
    requires now.sessions == before.sessions
    requires forall c | c in j.controls :: Lookup(now.controls, c) == j.controls[c].was
    requires forall p | p in j.assetWrites :: p !in now.snapshots
    ensures now == before
    ensures UnderWay(render, before, j.(phase := RolledBack), b.(journal := Some(j.(phase := RolledBack))), now)
  {
    hide SessionsOk, Planned, ControlsKnown;
    SameMaps(now.controls, before.controls);
    SameMaps(now.snapshots, before.snapshots);
    assert now == before;
    hide UnderWay;
    Sources(render, before, j, b, now);
    PhaseStep(render, before, j, b, now, RolledBack);
  }

  // ----- the disk -----

  class Disk {
    var sessions: Tree
    var controls: map<Control, Bytes>
    var snapshots: map<string, Bytes>
    var backup: Option<Backup>
    var limit: Option<nat>    // how many more steps the process will live, if not for ever

    function Contents(): Data
      reads this
    {
      Data(sessions, controls, snapshots)
    }

    ghost predicate Holds(render: Render, before: Data)
      reads this
    {
      Inv(render, before, backup, Contents())
    }

    /** The journal in the backup is `j` and the repair is under way. */
    ghost predicate Journaled(render: Render, before: Data, j: Journal)
      reads this
    {
      && backup.Some? && backup.value.journal == Some(j)
      && UnderWay(render, before, j, backup.value, Contents())
    }

    predicate AtAny(phases: set<Phase>)
      reads this
    {
      backup.Some? && backup.value.journal.Some? && backup.value.journal.value.phase in phases
    }

    function Recorded(): Option<Journal>
      reads this
    {
      if backup.Some? then backup.value.journal else None
    }

    /** A copy made by the repair lies where another of its operations does without a snapshot. */
    predicate IsBlocked()
      reads this
    {
      Recorded().Some? && Blocked(Recorded().value.plan.ops, snapshots)
    }

    /** The backup has a journal for this plan, in one of these phases. */
    predicate At(plan: Plan, phases: set<Phase>)
      reads this
    {
      && backup.Some? && backup.value.journal.Some?
      && backup.value.journal.value.plan == plan && backup.value.journal.value.phase in phases
    }

    /** What an application asks for: without a backup, the data the plan was made for; with one, a journal of this
        very plan that is not rolled back or being rolled back, and no copy in the way. */
    ghost predicate Applicable(plan: Plan)
      reads this
    {
      if backup.None? then Planned(Contents(), plan)
      else At(plan, {Prepared, Indexing, Completed}) && !Blocked(plan.ops, snapshots)
    }

    /** One more atomic step, if the process is still there to make it. */
    method Step() returns (go: bool)
      modifies this`limit
      ensures old(limit).None? ==> go && limit.None?
    {
      go := limit != Some(0);
      if go && limit.Some? {
        limit := Some(limit.value - 1);
      }
    }

    // ----- sessions -----

    /** Gives the identity files of the session at `here` their contents after (or before) the repair. */
    method WriteIdentities(op: Operation, here: Loc, after: bool, ghost render: Render, ghost j: Journal,
                           ghost before: Data)
      returns (go: bool)
      requires Journaled(render, before, j) && j.phase in {Prepared, Indexing, RollingBack}
      requires op in j.plan.ops && Locate(op, sessions, true) == Some(here)
      requires after || j.phase == RollingBack
      modifies this`sessions, this`limit
      ensures Journaled(render, before, j)
      ensures SameElsewhere(op, old(sessions), sessions)
      ensures Locate(op, sessions, true) == Some(here)
      ensures go ==> forall n | n in op.updates :: Lookup(sessions[here], n) == Some(Side(op.updates[n], after))
      ensures old(limit).None? ==> go && limit.None?
    {
      hide UnderWay, SessionsOk, PlannedOp, Mixed, Locate, Placed, IsFinal;
      go := true;
      var names := op.updates.Keys;
      while names != {}
        invariant Journaled(render, before, j)
        invariant SameElsewhere(op, old(sessions), sessions)
        invariant here in sessions && Locate(op, sessions, true) == Some(here)
        invariant names <= op.updates.Keys
        invariant forall n | n in op.updates.Keys - names ::
                    Lookup(sessions[here], n) == Some(Side(op.updates[n], after))
        invariant old(limit).None? ==> limit.None?
        decreases |names|
      {
        var n :| n in names;
        names := names - {n};
        About(render, before, j, backup.value, Contents(), op);
        IdentityFileIs(op, before, sessions, here, n);
        var data := Side(op.updates[n], after);
        if sessions[here][n] != data {
          go := Step();
          if !go {
            return;
          }
          ghost var now := Contents();
          sessions := sessions[here := sessions[here][n := data]];
          WriteStep(render, before, j, backup.value, now, op, here, n, data, sessions);
        }
      }
    }

    /** Moves a session and rewrites its identity files, picking up wherever an earlier run stopped. */
    method RepairSession(op: Operation, ghost render: Render, ghost j: Journal, ghost before: Data) returns (go: bool)
      requires Journaled(render, before, j) && j.phase in {Prepared, Indexing}
      requires op in j.plan.ops
      modifies this`sessions, this`limit
      ensures Journaled(render, before, j)
      ensures SameElsewhere(op, old(sessions), sessions)
      ensures go ==> op.source in before.sessions && IsFinal(op, before.sessions[op.source], sessions)
      ensures old(limit).None? ==> go && limit.None?
    {
      hide UnderWay, SessionsOk, PlannedOp, Mixed, Rewritten;
      About(render, before, j, backup.value, Contents(), op);
      if op.source != op.target && op.source in sessions {
        go := Step();
        if !go {
          return;
        }
        ghost var now := Contents();
        sessions := (sessions - {op.source})[op.target := sessions[op.source]];
        RenameStep(render, before, j, backup.value, now, op, op.source, op.target, sessions);
      }
      go := WriteIdentities(op, op.target, true, render, j, before);
      if go {
        About(render, before, j, backup.value, Contents(), op);
        AllRewritten(op, before, sessions[op.target]);
      }
    }

    /** Restores the identity files of a session and moves it back. */
    method RestoreSession(op: Operation, ghost render: Render, ghost j: Journal, ghost before: Data) returns (go: bool)
      requires Journaled(render, before, j) && j.phase == RollingBack
      requires op in j.plan.ops
      modifies this`sessions, this`limit
      ensures Journaled(render, before, j)
      ensures SameElsewhere(op, old(sessions), sessions)
      ensures go ==> op.source in before.sessions && IsOriginal(op, before.sessions[op.source], sessions)
      ensures old(limit).None? ==> go && limit.None?
    {
      hide UnderWay, SessionsOk, PlannedOp, Mixed;
      About(render, before, j, backup.value, Contents(), op);
      var location := if op.target in sessions then op.target else op.source;
      go := WriteIdentities(op, location, false, render, j, before);
      if !go {
        return;
      }
      About(render, before, j, backup.value, Contents(), op);
      AllRestored(op, before, sessions[location]);
      if op.source != op.target && op.target in sessions {
        go := Step();
        if !go {
          return;
        }
        ghost var now := Contents();
        sessions := (sessions - {op.target})[op.source := sessions[op.target]];
        RenameStep(render, before, j, backup.value, now, op, op.target, op.source, sessions);
      }
    }

    // ----- applying -----

    method Save(j: Journal) returns (go: bool)
      requires backup.Some?
      modifies this`backup, this`limit
      ensures backup == if go then Some(old(backup).value.(journal := Some(j))) else old(backup)
      ensures old(limit).None? ==> go && limit.None?
    {
      go := Step();
      if go {
        backup := Some(backup.value.(journal := Some(j)));
      }
    }

    /** Copies a snapshot, after recording in the journal that the copy will be there. */
    method CopyAsset(op: Operation, a: Asset, ghost render: Render, j: Journal, ghost before: Data)
      returns (outcome: Outcome, j': Journal)
      requires Journaled(render, before, j) && j.phase in {Prepared, Indexing}
      requires op in j.plan.ops && a in op.assets
      modifies this`snapshots, this`backup, this`limit
      ensures Journaled(render, before, j') && j' == j.(assetWrites := j'.assetWrites)
      ensures KeepsCopies(j.plan.ops, old(snapshots), snapshots)
      ensures outcome == Done ==> Lookup(snapshots, a.target) == Some(a.content)
      ensures outcome != Refused
      ensures old(limit).None? ==> outcome == Done && limit.None?
    {
      hide UnderWay, Created, KeepsCopies;
      NothingLost(j.plan.ops, snapshots);
      AboutAsset(render, before, j, backup.value, Contents(), op, a);
      j' := j;
      if a.target in snapshots {
        if snapshots[a.target] != a.content || (!a.existed && a.target !in j.assetWrites) {
          outcome := Refused;
        } else {
          outcome := Done;
        }
        return;
      }
      if a.existed {
        outcome := Refused;
        return;
      }
      var go;
      if a.target !in j.assetWrites {
        j' := j.(assetWrites := j.assetWrites + {a.target});
        RecordStep(render, before, j, backup.value, Contents(), a.target);
        go := Save(j');
        if !go {
          j', outcome := j, Stopped;
          return;
        }
      }
      go := Step();
      if !go {
        outcome := Stopped;
        return;
      }
      AboutAsset(render, before, j', backup.value, Contents(), op, a);
      CopyStep(render, before, j', backup.value, Contents(), op, a);
      snapshots := snapshots[a.target := snapshots[a.source]];
      outcome := Done;
    }

    /** Copies the snapshots and repairs the session of every operation. */
    method RepairAll(ghost render: Render, journal: Journal, ghost before: Data) returns (outcome: Outcome, j: Journal)
      requires Journaled(render, before, journal) && journal.phase in {Prepared, Indexing}
      modifies this`sessions, this`snapshots, this`backup, this`limit
      ensures Journaled(render, before, j) && j == journal.(assetWrites := j.assetWrites)
      ensures outcome != Refused
      ensures outcome == Done ==>
                && (forall op | op in j.plan.ops :: op.source in before.sessions)
                && IsRepaired(before.sessions, j.plan.ops, sessions)
                && AssetsPresent(j.plan.ops, snapshots)
      ensures old(limit).None? ==> outcome == Done && limit.None?
    {
      hide UnderWay, IsFinal, AssetsPresent, PresentFor, KeepsCopies, SameElsewhere, Apart;
      j, outcome := journal, Done;
      var ops := j.plan.ops;
      Sources(render, before, j, backup.value, Contents());
      NothingWanted(ops, snapshots);
      for i := 0 to |ops|
        invariant Journaled(render, before, j) && j == journal.(assetWrites := j.assetWrites)
        invariant forall op | op in ops[..i] :: IsFinal(op, before.sessions[op.source], sessions)
        invariant AssetsPresent(ops[..i], snapshots)
        invariant old(limit).None? ==> limit.None?
      {
        var op := ops[i];
        PresentForNone(op, snapshots);
        for k := 0 to |op.assets|
          invariant Journaled(render, before, j) && j == journal.(assetWrites := j.assetWrites)
          invariant forall o | o in ops[..i] :: IsFinal(o, before.sessions[o.source], sessions)
          invariant AssetsPresent(ops[..i], snapshots) && PresentFor(op, k, snapshots)
          invariant old(limit).None? ==> limit.None?
        {
          ghost var was := snapshots;
          outcome, j := CopyAsset(op, op.assets[k], render, j, before);
          if outcome != Done {
            return;
          }
          PresentKeeps(ops, i, k, was, snapshots);
          PresentForNext(op, k, snapshots);
        }
        PresentNext(ops, i, snapshots);
        ghost var was := sessions;
        var go := RepairSession(op, render, j, before);
        if !go {
          outcome := Stopped;
          return;
        }
        FinalsKeep(before.sessions, ops, i, was, sessions);
      }
      assert ops[..|ops|] == ops;
      AllFinalNow(render, before, j, backup.value, Contents());
      outcome := Done;
    }

    /** Makes the new indexes, waiting in the backup, and records them: from here on the repair goes forward. */
    method PrepareIndexes(clock: nat -> nat, render: Render, journal: Journal, ghost before: Data)
      returns (go: bool, j: Journal)
      requires Journaled(render, before, journal) && journal.phase == Prepared
      requires forall op | op in journal.plan.ops :: op.source in before.sessions
      requires IsRepaired(before.sessions, journal.plan.ops, sessions) && AssetsPresent(journal.plan.ops, snapshots)
      modifies this`backup, this`limit
      ensures Journaled(render, before, j)
      ensures j == if go then journal.(controls := j.controls, phase := Indexing) else journal
      ensures old(limit).None? ==> go && limit.None?
    {
      hide UnderWay, IsRepaired, AssetsPresent, IsIndex, EntriesOk;
      j, go := journal, true;
      var entries, todo, made := j.controls, j.controls.Keys, 0;
      NoEntryYet(render, sessions, j.controls, backup.value.pending);
      while todo != {}
        invariant Journaled(render, before, j)
        invariant todo <= j.controls.Keys && entries.Keys == j.controls.Keys
        invariant EntriesOk(render, sessions, j.controls, todo, entries, backup.value.pending)
        invariant old(limit).None? ==> limit.None?
        decreases |todo|
      {
        var c :| c in todo;
        if c.file == Index {
          var data := render(c.root, Catalog(sessions, {c.root}), clock(made));
          go := Step();
          if !go {
            return;
          }
          PendingStep(render, before, j, backup.value, Contents(), c, data);
          MadeIndex(render, c.root, sessions, clock(made));
          IndexEntry(render, sessions, j.controls, todo, entries, backup.value.pending, c, data);
          backup := Some(backup.value.(pending := backup.value.pending[c := data]));
          entries := entries[c := Entry(entries[c].was, Some(data), true)];
        } else {
          CacheEntry(render, sessions, j.controls, todo, entries, backup.value.pending, c);
          entries := entries[c := Entry(entries[c].was, None, false)];
        }
        todo, made := todo - {c}, made + 1;
      }
      var j' := j.(controls := entries, phase := Indexing);
      IndexStep(render, before, j, backup.value, Contents(), entries, j');
      go := Save(j');
      if go {
        j := j';
      }
    }

    /** Writes the indexes from the backup and clears the search caches. */
    method WriteControls(ghost render: Render, j: Journal, ghost before: Data) returns (go: bool)
      requires Journaled(render, before, j) && j.phase == Indexing
      modifies this`controls, this`limit
      ensures Journaled(render, before, j)
      ensures go ==> forall c | c in j.controls :: Lookup(controls, c) == j.controls[c].will
      ensures old(limit).None? ==> go && limit.None?
    {
      hide UnderWay;
      go := true;
      var todo := j.controls.Keys;
      while todo != {}
        invariant Journaled(render, before, j)
        invariant todo <= j.controls.Keys
        invariant forall c | c in j.controls && c !in todo :: Lookup(controls, c) == j.controls[c].will
        invariant old(limit).None? ==> limit.None?
        decreases |todo|
      {
        var c :| c in todo;
        AboutControl(render, before, j, backup.value, Contents(), c);
        if j.controls[c].pending {
          go := Step();
          if !go {
            return;
          }
          ControlStep(render, before, j, backup.value, Contents(), c, Some(backup.value.pending[c]));
          controls := controls[c := backup.value.pending[c]];
        } else if c in controls {
          go := Step();
          if !go {
            return;
          }
          ControlStep(render, before, j, backup.value, Contents(), c, None);
          controls := controls - {c};
        }
        todo := todo - {c};
      }
    }

    /** Checks the repaired catalogs and closes the journal. */
    method Finish(render: Render, journal: Journal, ghost before: Data) returns (outcome: Outcome)
      requires Journaled(render, before, journal) && journal.phase == Indexing
      requires forall c | c in journal.controls :: Lookup(controls, c) == journal.controls[c].will
      modifies this`backup, this`limit
      ensures outcome == Done ==> Journaled(render, before, journal.(phase := Completed))
      ensures outcome != Done ==> Journaled(render, before, journal)
      ensures outcome != Refused
      ensures old(limit).None? ==> outcome == Done && limit.None?
    {
      hide UnderWay, WellMade, Planned, SessionsOk, IsRepaired, Catalog;
      var plan := journal.plan;
      AboutIndexing(render, before, journal, backup.value, Contents());
      PlannedIsWellMade(before, plan);
      var expected := ExpectedCatalogs(plan, before, sessions);
      if Catalog(sessions, plan.roots) != expected {
        return Refused;
      }
      var ok := CheckSessions(plan, true, sessions, before);
      if !ok {
        return Refused;
      }
      CompletedStep(render, before, journal, backup.value, Contents());
      var go := Save(journal.(phase := Completed));
      outcome := if go then Done else Stopped;
    }

    method BackUpSessions(plan: Plan, ghost before: Data) returns (outcome: Outcome)
      requires backup == Some(NO_BACKUP.(plan := Some(plan)))
      requires Planned(before, plan) && before == Contents()
      modifies this`backup, this`limit
      ensures backup.Some? && backup == Some(NO_BACKUP.(plan := Some(plan), sessions := backup.value.sessions))
      ensures outcome == Done ==> SessionsCopied(sessions, plan.ops, backup.value.sessions)
      ensures outcome != Refused
      ensures old(limit).None? ==> outcome == Done && limit.None?
    {
      hide Planned, PlainSizes;
      for i := 0 to |plan.ops|
        invariant backup.Some? && backup == Some(NO_BACKUP.(plan := Some(plan), sessions := backup.value.sessions))
        invariant SessionsCopied(sessions, plan.ops[..i], backup.value.sessions)
        invariant old(limit).None? ==> limit.None?
      {
        PlannedSizes(before, plan, plan.ops[i]);
        var go := Step();
        if !go {
          return Stopped;
        }
        var copied := sessions[plan.ops[i].source];
        backup := Some(backup.value.(sessions := backup.value.sessions + [copied]));
        if PlainSizes(copied) != plan.ops[i].sizes {
          return Refused;
        }
      }
      assert plan.ops[..|plan.ops|] == plan.ops;
      outcome := Done;
    }

    method BackUpControls(plan: Plan) returns (outcome: Outcome, entries: map<Control, Entry>)
      requires backup.Some?
      modifies this`backup, this`limit
      ensures backup.Some? && backup == Some(old(backup).value.(copies := backup.value.copies))
      ensures outcome == Done ==>
                entries.Keys == Controls(plan.roots) && CopiesOk(controls, entries, backup.value.copies)
      ensures outcome != Refused
      ensures old(limit).None? ==> outcome == Done && limit.None?
    {
      hide Controls;
      var todo := Controls(plan.roots);
      entries := map[];
      while todo != {}
        invariant todo <= Controls(plan.roots) && entries.Keys == Controls(plan.roots) - todo
        invariant backup.Some? && backup == Some(old(backup).value.(copies := backup.value.copies))
        invariant CopiesOk(controls, entries, backup.value.copies)
        invariant old(limit).None? ==> limit.None?
        decreases |todo|
      {
        var c :| c in todo;
        var was := Lookup(controls, c);
        if was.Some? {
          var go := Step();
          if !go {
            return Stopped, entries;
          }
          backup := Some(backup.value.(copies := backup.value.copies[c := was.value]));
        }
        entries, todo := entries[c := Entry(was, was, false)], todo - {c};
      }
      outcome := Done;
    }

    /** The backup of a first run. The journal appears last, and until then nothing else has changed. */
    method PrepareBackup(plan: Plan, ghost render: Render, ghost before: Data) returns (outcome: Outcome, j: Journal)
      requires backup.None? && Planned(before, plan) && before == Contents()
      modifies this`backup, this`limit
      ensures Holds(render, before) && outcome != Refused
      ensures outcome == Done ==>
                Journaled(render, before, j) && j.plan == plan && j.phase == Prepared && j.assetWrites == {}
      ensures outcome == Stopped ==> backup.None? || backup.value.journal.None?
      ensures old(limit).None? ==> outcome == Done && limit.None?
    {
      hide UnderWay, Planned, Controls, CopiesOk, SessionsCopied;
      j := Journal(plan, Prepared, map[], {});
      var go := Step();
      if !go {
        return Stopped, j;
      }
      backup := Some(NO_BACKUP);
      go := Step();
      if !go {
        return Stopped, j;
      }
      backup := Some(backup.value.(plan := Some(plan)));
      outcome := BackUpSessions(plan, before);
      if outcome != Done {
        return;
      }
      var entries;
      outcome, entries := BackUpControls(plan);
      if outcome != Done {
        return;
      }
      j := Journal(plan, Prepared, entries, {});
      JournalStart(render, before, plan, backup.value, j);
      go := Save(j);
      outcome := if go then Done else Stopped;
    }

    /** `apply_plan`: a first run, or one that resumes an earlier one. */
    method Apply(plan: Plan, clock: nat -> nat, render: Render, ghost before: Data) returns (outcome: Outcome)
      requires WellMade(plan) && Holds(render, before)
      modifies this
      ensures Holds(render, before)
      ensures outcome == Refused ==> Contents() == old(Contents()) && backup == old(backup)
      ensures outcome == Done ==> RepairDone(render, before, plan, Contents()) && At(plan, {Completed})
      ensures outcome == Refused <==> !old(Applicable(plan))
      ensures old(At(plan, {Prepared, Indexing, Completed})) ==>
                (outcome == Refused <==> old(Blocked(plan.ops, snapshots)))
      ensures old(At(plan, {RollingBack, RolledBack})) ==> outcome == Refused
      ensures old(At(plan, {Completed})) ==>
                outcome != Stopped && Contents() == old(Contents()) && backup == old(backup)
      ensures old(backup).None? && Planned(old(Contents()), plan) ==> outcome != Refused
      ensures old(backup.None? || At(plan, {Prepared, Indexing, Completed})) ==>
                backup.None? || backup.value.journal.None? || At(plan, {Prepared, Indexing, Completed})
      ensures old(backup.Some? && backup.value.journal.None?) ==> outcome == Refused
      ensures Recorded().Some? ==>
                Recorded().value.plan == plan
                || (old(Recorded()).Some? && Recorded().value.plan == old(Recorded()).value.plan)
      ensures old(limit).None? ==> outcome != Stopped
    {
      hide UnderWay, WellMade, Planned, SessionsOk, Validate, Intact, PlannedOp, ControlsKnown, Blocked, RepairDone;
      if !Validate(plan, Contents()) {
        Unfit(render, before, plan, backup, Contents());
        return Refused;
      }
      Fit(render, before, plan, backup, Contents());
      var resume := backup.Some?;
      var j;
      if resume {
        if !Intact(backup.value, plan) {
          NotIntact(render, before, plan, backup, Contents());
          return Refused;
        }
        IntactHasJournal(backup.value, plan);
        j := backup.value.journal.value;
        if j.phase in {RollingBack, RolledBack} {
          return Refused;
        }
        AboutIndexing(render, before, j, backup.value, Contents());
      } else if Planned(before, plan) {
        PlacedAtStart(before, plan);
      }
      var ok := CheckSessions(plan, resume, sessions, before);
      if !ok {
        return Refused;
      }
      if !resume {
        AssetsFit(plan, Contents());
        if exists op, a | op in plan.ops && a in op.assets :: (a.target in snapshots) != a.existed {
          return Refused;
        }
        ChecksMakePlanned(plan, Contents());
        outcome, j := PrepareBackup(plan, render, before);
        if outcome != Done {
          return;
        }
      }
      AboutCompleted(render, before, j, backup.value, Contents());
      if !ControlsKnown(j, controls) {
        return Refused;
      }
      if j.phase == Completed {
        if exists op | op in plan.ops :: op.target !in sessions || PlainSizes(sessions[op.target]) != op.repairedSizes {
          return Refused;
        }
        if exists c | c in j.controls :: Lookup(controls, c) != j.controls[c].will {
          return Refused;
        }
        if exists op, a | op in plan.ops && a in op.assets && a.target in j.assetWrites ::
             Lookup(snapshots, a.target) != Some(a.content) {
          return Refused;
        }
        return Done;
      }
      outcome := Continue(clock, render, j, before);
    }

    /** The part of `apply_plan` after its checks. */
    method Continue(clock: nat -> nat, render: Render, journal: Journal, ghost before: Data) returns (outcome: Outcome)
      requires Journaled(render, before, journal) && journal.phase in {Prepared, Indexing}
      modifies this
      ensures Holds(render, before) && outcome != Refused
      ensures At(journal.plan, {Prepared, Indexing, Completed})
      ensures outcome == Done ==> RepairDone(render, before, journal.plan, Contents()) && At(journal.plan, {Completed})
      ensures old(limit).None? ==> outcome == Done
    {
      hide UnderWay, RepairDone, IsRepaired, AssetsPresent;
      var j, go;
      outcome, j := RepairAll(render, journal, before);
      if outcome != Done {
        return;
      }
      if j.phase == Prepared {
        go, j := PrepareIndexes(clock, render, j, before);
        if !go {
          return Stopped;
        }
      }
      go := WriteControls(render, j, before);
      if !go {
        return Stopped;
      }
      outcome := Finish(render, j, before);
      if outcome == Done {
        AboutCompleted(render, before, j.(phase := Completed), backup.value, Contents());
      }
    }

    // ----- rolling back -----

    method RestoreAll(ghost render: Render, j: Journal, ghost before: Data) returns (go: bool)
      requires Journaled(render, before, j) && j.phase == RollingBack
      modifies this`sessions, this`limit
      ensures Journaled(render, before, j)
      ensures go ==> sessions == before.sessions
      ensures old(limit).None? ==> go && limit.None?
    {
      hide UnderWay, IsOriginal, SameElsewhere, Apart;
      var ops := j.plan.ops;
      Sources(render, before, j, backup.value, Contents());
      for i := |ops| downto 0
        invariant Journaled(render, before, j)
        invariant forall op | op in ops[i..] :: IsOriginal(op, before.sessions[op.source], sessions)
        invariant old(limit).None? ==> limit.None?
      {
        ghost var was := sessions;
        go := RestoreSession(ops[i], render, j, before);
        if !go {
          return;
        }
        OriginalsKeep(before.sessions, ops, i, was, sessions);
      }
      AllOriginalNow(render, before, j, backup.value, Contents());
      go := true;
    }

    method RestoreControls(ghost render: Render, j: Journal, ghost before: Data) returns (go: bool)
      requires Journaled(render, before, j) && j.phase == RollingBack
      modifies this`controls, this`limit
      ensures Journaled(render, before, j)
      ensures go ==> forall c | c in j.controls :: Lookup(controls, c) == j.controls[c].was
      ensures old(limit).None? ==> go && limit.None?
    {
      hide UnderWay;
      go := true;
      var todo := j.controls.Keys;
      while todo != {}
        invariant Journaled(render, before, j)
        invariant todo <= j.controls.Keys
        invariant forall c | c in j.controls && c !in todo :: Lookup(controls, c) == j.controls[c].was
        invariant old(limit).None? ==> limit.None?
        decreases |todo|
      {
        var c :| c in todo;
        AboutControl(render, before, j, backup.value, Contents(), c);
        if j.controls[c].was.Some? {
          go := Step();
          if !go {
            return;
          }
          ControlStep(render, before, j, backup.value, Contents(), c, Some(backup.value.copies[c]));
          controls := controls[c := backup.value.copies[c]];
        } else if c in controls {
          go := Step();
          if !go {
            return;
          }
          ControlStep(render, before, j, backup.value, Contents(), c, None);
          controls := controls - {c};
        }
        todo := todo - {c};
      }
    }

    method RemoveCopies(ghost render: Render, j: Journal, ghost before: Data) returns (go: bool)
      requires Journaled(render, before, j) && j.phase == RollingBack
      modifies this`snapshots, this`limit
      ensures Journaled(render, before, j)
      ensures go ==> forall p | p in j.assetWrites :: p !in snapshots
      ensures old(limit).None? ==> go && limit.None?
    {
      hide UnderWay;
      go := true;
      var todo := j.assetWrites;
      while todo != {}
        invariant Journaled(render, before, j)
        invariant todo <= j.assetWrites
        invariant forall p | p in j.assetWrites && p !in todo :: p !in snapshots
        invariant old(limit).None? ==> limit.None?
        decreases |todo|
      {
        var p :| p in todo;
        if p in snapshots {
          go := Step();
          if !go {
            return;
          }
          RemoveStep(render, before, j, backup.value, Contents(), p);
          snapshots := snapshots - {p};
        }
        todo := todo - {p};
      }
    }

    /** `rollback`, from any point of a repair or of an earlier rollback. */
    method Rollback(ghost render: Render, ghost before: Data) returns (outcome: Outcome)
      requires Holds(render, before)
      modifies this
      ensures Holds(render, before)
      ensures outcome == Refused ==> Contents() == old(Contents()) && backup == old(backup)
      ensures outcome == Done ==> Contents() == before && AtAny({RolledBack})
      ensures outcome == Refused <==> old(Recorded().None? || IsBlocked())
      ensures old(Recorded()).Some? ==> Recorded().Some? && Recorded().value.plan == old(Recorded()).value.plan
      ensures old(Recorded()).None? ==> Recorded().None?
      ensures old(limit).None? ==> outcome != Stopped
    {
      hide UnderWay, WellMade, Planned, SessionsOk, Validate, Intact, ControlsKnown, Blocked;
      if backup.None? || backup.value.plan.None? {
        PlanIsKept(render, before, backup, Contents());
        return Refused;
      }
      var plan := backup.value.plan.value;
      PlanIsKept(render, before, backup, Contents());
      if !Validate(plan, Contents()) {
        Unfit(render, before, plan, backup, Contents());
        return Refused;
      }
      Fit(render, before, plan, backup, Contents());
      if !Intact(backup.value, plan) {
        NotIntact(render, before, plan, backup, Contents());
        return Refused;
      }
      IntactHasJournal(backup.value, plan);
      var j := backup.value.journal.value;
      AboutIndexing(render, before, j, backup.value, Contents());
      PlannedIsWellMade(before, plan);
      var ok := CheckSessions(plan, true, sessions, before);
      if !ok {
        return Refused;
      }
      AboutCompleted(render, before, j, backup.value, Contents());
      if !ControlsKnown(j, controls) {
        return Refused;
      }
      CopiesAreGood(render, before, j, backup.value, Contents());
      if exists op, a | op in plan.ops && a in op.assets && a.target in j.assetWrites ::
           Lookup(snapshots, a.target) !in {None, Some(a.content)} {
        return Refused;
      }
      RollbackStep(render, before, j, backup.value, Contents());
      j := j.(phase := RollingBack);
      var go := Save(j);
      if go {
        go := RestoreAll(render, j, before);
      }
      if go {
        go := RestoreControls(render, j, before);
      }
      if go {
        go := RemoveCopies(render, j, before);
      }
      if !go {
        return Stopped;
      }
      RolledBackStep(render, before, j, backup.value, Contents());
      go := Save(j.(phase := RolledBack));
      outcome := if go then Done else Stopped;
    }
  }

  function Side(update: Update, after: bool): Bytes {
    if after then update.after else update.before
  }

  lemma IdentityFileIs(op: Operation, before: Data, tree: Tree, l: Loc, n: Name)
    requires PlannedOp(before, op) && Placed(op, before.sessions[op.source], tree)
    requires Locate(op, tree, true) == Some(l) && n in op.updates
    ensures n in tree[l] && tree[l][n] in {op.updates[n].before, op.updates[n].after}
    ensures IsFinal(op, before.sessions[op.source], tree) ==> tree[l][n] == op.updates[n].after
  {
  }

  lemma AllRewritten(op: Operation, before: Data, dir: Dir)
    requires PlannedOp(before, op) && Mixed(op, before.sessions[op.source], dir)
    requires forall n | n in op.updates :: Lookup(dir, n) == Some(op.updates[n].after)
    ensures dir == Rewritten(op, before.sessions[op.source])
  {
  }

  lemma AllRestored(op: Operation, before: Data, dir: Dir)
    requires PlannedOp(before, op) && Mixed(op, before.sessions[op.source], dir)
    requires forall n | n in op.updates :: Lookup(dir, n) == Some(op.updates[n].before)
    ensures dir == before.sessions[op.source]
  {
  }
}
