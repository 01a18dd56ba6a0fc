// The backup and journal of a session repair, and what they say about the data at every moment
// (repair-session-storage.py).
module RepairJournal {
  import opened Common
  import opened RepairPlan
  import opened RepairSessions

  datatype Phase = Prepared | Indexing | Completed | RollingBack | RolledBack

  /** A derived file: its content before the repair, after it, and whether that waits in the backup. */
  datatype Entry = Entry(was: Option<Bytes>, will: Option<Bytes>, pending: bool)

  datatype Journal = Journal(plan: Plan, phase: Phase, controls: map<Control, Entry>, assetWrites: set<string>)

  datatype Backup = Backup(plan: Option<Plan>, sessions: seq<Dir>, copies: map<Control, Bytes>,
                           pending: map<Control, Bytes>, journal: Option<Journal>)

  const NO_BACKUP := Backup(None, [], map[], map[], None)

  /** `index_bytes`: an index is made from the root, the metadata of its sessions and the time. */
  type Render = (string, map<Loc, Bytes>, nat) -> Bytes

  function ControlsOf(root: string): set<Control> {
    {Control(root, Index), Control(root, Search), Control(root, SearchWal), Control(root, SearchShm)}
  }

  function Controls(roots: set<string>): set<Control> {
    set root, c | root in roots && c in ControlsOf(root) :: c
  }

  lemma InControls(roots: set<string>, c: Control)
    ensures c in Controls(roots) <==> c.root in roots
  {
    match c.file {
      case Index =>
      case Search =>
      case SearchWal =>
      case SearchShm =>
    }
    assert c in ControlsOf(c.root);
  }

  lemma KeysAreControls(keys: set<Control>, roots: set<string>)
    requires forall c :: c in keys <==> c.root in roots
    ensures keys == Controls(roots)
  {
    hide Controls;
    forall c
      ensures c in keys <==> c in Controls(roots)
    {
      InControls(roots, c);
    }
  }

  // ----- the checks that start every run -----

  /** Where the validation looks for the session's documents. */
  function Evidence(op: Operation, tree: Tree): Loc {
    if op.source in tree then op.source else op.target
  }

  predicate ValidOp(op: Operation, data: Data) {
    var l := Evidence(op, data.sessions);
    && l in data.sessions
    && var dir := data.sessions[l];
    && METADATA in dir
    && (forall n | n in op.updates :: n in {METADATA, STATE} && n in dir)
    && (op.source == op.target ==> op.updates != map[])
    && SizesBefore(op, dir) == op.sizes
    && SizesAfter(op, dir) == op.repairedSizes
    && (forall a | a in op.assets ::
          && Lookup(data.snapshots, a.source) == Some(a.content)
          && Lookup(data.snapshots, a.target) in {None, Some(a.content)})
    && (forall place | place in op.absent :: !Exists(data.snapshots, place))
  }

  /** `validate_plan`, but for the workspace registry and the identities inferred from it. The list of dependencies is
      made again and has to be the one in the plan: nothing listed may be missing, and nothing else be there. */
  predicate Validate(plan: Plan, data: Data) {
    && (forall i, j | 0 <= i < j < |plan.ops| ::
          plan.ops[i].source != plan.ops[j].source && plan.ops[i].target != plan.ops[j].target)
    && plan.roots == Affected(plan.ops)
    && (forall op | op in plan.ops :: ValidOp(op, data))
  }

  predicate Created(ops: seq<Operation>, p: string) {
    exists op, a | op in ops && a in op.assets :: a.target == p && !a.existed
  }

  /** `load_backup`. */
  predicate Intact(b: Backup, plan: Plan) {
    && b.journal.Some?
    && var j := b.journal.value;
    && j.plan == plan
    && |b.sessions| == |plan.ops|
    && (forall i | 0 <= i < |plan.ops| :: PlainSizes(b.sessions[i]) == plan.ops[i].sizes)
    && j.controls.Keys == Controls(plan.roots)
    && (forall c | c in j.controls ::
          && (j.controls[c].was.Some? ==> Lookup(b.copies, c) == j.controls[c].was)
          && (j.controls[c].pending ==> c in b.pending && Some(b.pending[c]) == j.controls[c].will))
    && (forall p | p in j.assetWrites :: Created(plan.ops, p))
  }

  /** `check_controls`. */
  predicate ControlsKnown(j: Journal, controls: map<Control, Bytes>) {
    forall c | c in j.controls :: Lookup(controls, c) in {j.controls[c].was, j.controls[c].will}
  }

  // ----- the invariant -----

  ghost predicate BackupOk(before: Data, j: Journal, b: Backup) {
    && b.plan == Some(j.plan)
    && |b.sessions| == |j.plan.ops|
    && (forall i | 0 <= i < |j.plan.ops| :: Lookup(before.sessions, j.plan.ops[i].source) == Some(b.sessions[i]))
    && (forall c: Control :: c in j.controls <==> c.root in j.plan.roots)
    && (forall c | c in j.controls ::
          && j.controls[c].was == Lookup(before.controls, c)
          && (j.controls[c].was.Some? ==> Lookup(b.copies, c) == j.controls[c].was)
          && (j.controls[c].pending ==> c in b.pending && Some(b.pending[c]) == j.controls[c].will))
  }

  /** A snapshot file is as it was, or is a copy made by the repair and recorded before it was made. */
  ghost predicate SnapshotsOk(before: map<string, Bytes>, j: Journal, snapshots: map<string, Bytes>) {
    && (forall p | p in j.assetWrites :: Created(j.plan.ops, p))
    && (forall p ::
          || Lookup(snapshots, p) == Lookup(before, p)
          || (p in j.assetWrites && p in snapshots && Wants(j.plan.ops, p, snapshots[p])))
  }

  ghost predicate ControlsOk(before: map<Control, Bytes>, j: Journal, controls: map<Control, Bytes>) {
    && ControlsKnown(j, controls)
    && (forall c | c !in j.controls :: Lookup(controls, c) == Lookup(before, c))
  }

  ghost predicate IsIndex(render: Render, root: string, tree: Tree, index: Option<Bytes>) {
    exists now :: index == Some(render(root, Catalog(tree, {root}), now))
  }

  ghost predicate IndexesOk(render: Render, controls: map<Control, Entry>, tree: Tree) {
    forall c | c in controls ::
      if c.file == Index then controls[c].pending && IsIndex(render, c.root, tree, controls[c].will)
      else !controls[c].pending && controls[c].will == None
  }

  ghost predicate AssetsPresent(ops: seq<Operation>, snapshots: map<string, Bytes>) {
    forall op, a | op in ops && a in op.assets :: Lookup(snapshots, a.target) == Some(a.content)
  }

  /** The sessions and snapshots are repaired and the new indexes are settled. */
  ghost predicate Settled(render: Render, before: Data, j: Journal, now: Data)
    requires forall op | op in j.plan.ops :: op.source in before.sessions
  {
    && IsRepaired(before.sessions, j.plan.ops, now.sessions)
    && AssetsPresent(j.plan.ops, now.snapshots)
    && IndexesOk(render, j.controls, now.sessions)
  }

  ghost predicate PhaseOk(render: Render, before: Data, j: Journal, now: Data)
    requires forall op | op in j.plan.ops :: op.source in before.sessions
  {
    match j.phase
    case Prepared => forall c | c in j.controls :: !j.controls[c].pending && j.controls[c].will == j.controls[c].was
    case Indexing => Settled(render, before, j, now)
    case Completed => Settled(render, before, j, now) &&
                      forall c | c in j.controls :: Lookup(now.controls, c) == j.controls[c].will
    case RollingBack => true
    case RolledBack => now == before
  }

  /** What holds of the data while a repair with journal `j` is under way. */
  ghost predicate UnderWay(render: Render, before: Data, j: Journal, b: Backup, now: Data) {
    && Planned(before, j.plan)
    && BackupOk(before, j, b)
    && SessionsOk(before.sessions, j.plan.ops, now.sessions)
    && SnapshotsOk(before.snapshots, j, now.snapshots)
    && ControlsOk(before.controls, j, now.controls)
    && PhaseOk(render, before, j, now)
  }

  /** The invariant of the data and the backup: nothing happens to the data before there is a journal. */
  ghost predicate Inv(render: Render, before: Data, backup: Option<Backup>, now: Data) {
    if backup.Some? && backup.value.journal.Some?
    then UnderWay(render, before, backup.value.journal.value, backup.value, now)
    else now == before
  }

  /** The result of a repair, in terms of the data before it alone. */
  ghost predicate RepairDone(render: Render, before: Data, plan: Plan, now: Data) {
    && (forall op | op in plan.ops :: op.source in before.sessions)
    && IsRepaired(before.sessions, plan.ops, now.sessions)
    && IsCopied(before.snapshots, plan.ops, now.snapshots)
    && (forall c: Control :: if c.root !in plan.roots then Lookup(now.controls, c) == Lookup(before.controls, c)
                    else if c.file == Index then IsIndex(render, c.root, now.sessions, Lookup(now.controls, c))
                    else c !in now.controls)
  }

  // ----- consequences -----

  /** A first run that gets past all checks has found the data the plan was made for. */
  lemma ChecksMakePlanned(plan: Plan, data: Data)
    requires WellMade(plan) && Validate(plan, data)
    requires plan.catalog == Catalog(data.sessions, plan.roots)
    requires forall op | op in plan.ops ::
               && Locate(op, data.sessions, false) == Some(op.source)
               && IdentityOk(op, data.sessions[op.source], false)
               && SizesBefore(op, data.sessions[op.source]) == op.sizes
    requires forall op, a | op in plan.ops && a in op.assets :: (a.target in data.snapshots) == a.existed
    ensures Planned(data, plan)
  {
    forall op | op in plan.ops
      ensures PlannedOp(data, op)
    {
      assert ValidOp(op, data);
      var dir := data.sessions[op.source];
      assert Mixed(op, dir, dir);
      MixedSizes(op, dir, dir);
    }
    forall i, j | 0 <= i < j < |plan.ops|
      ensures Apart(plan.ops[i], plan.ops[j])
    {
      assert plan.ops[i] in plan.ops && plan.ops[j] in plan.ops;
    }
  }

  /** Validation rejects a repair in progress exactly when a copy it made lies where another of its operations does
      without a snapshot. */
  lemma UnderWayIsValid(render: Render, before: Data, j: Journal, b: Backup, now: Data)
    requires UnderWay(render, before, j, b, now)
    ensures Validate(j.plan, now) <==> !Blocked(j.plan.ops, now.snapshots)
  {
    hide Blocked, Exists, ValidOp;
    if Blocked(j.plan.ops, now.snapshots) {
      BlockedIsInvalid(j.plan, now);
    } else {
      UnblockedIsValid(render, before, j, b, now);
    }
  }

  lemma DisturbedAt(ops: seq<Operation>, p: string) returns (op: Operation, place: string)
    requires Disturbs(ops, p)
    ensures op in ops && place in op.absent && Within(p, place)
  {
    op :| op in ops && DoesWithout(op, p);
    place :| place in op.absent && Within(p, place);
  }

  lemma BlockedIsInvalid(plan: Plan, now: Data)
    requires Blocked(plan.ops, now.snapshots)
    ensures !Validate(plan, now)
  {
    var op, a :| op in plan.ops && a in op.assets && a.target in now.snapshots && Disturbs(plan.ops, a.target);
    var op', place := DisturbedAt(plan.ops, a.target);
    assert Exists(now.snapshots, place);
    assert !ValidOp(op', now);
  }

  lemma CreatedThere(ops: seq<Operation>, snapshots: map<string, Bytes>, p: string)
    requires Created(ops, p) && p in snapshots && Disturbs(ops, p)
    ensures Blocked(ops, snapshots)
  {
  }

  /** Without such a copy, what was not there before is not there now. */
  lemma StillAbsent(before: Data, j: Journal, snapshots: map<string, Bytes>, op: Operation, place: string)
    requires Planned(before, j.plan) && SnapshotsOk(before.snapshots, j, snapshots)
    requires op in j.plan.ops && place in op.absent && !Blocked(j.plan.ops, snapshots)
    ensures !Exists(snapshots, place)
  {
    if p :| p in snapshots && Within(p, place) {
      assert PlannedOp(before, op) && !Exists(before.snapshots, place);
      assert p !in before.snapshots;
      assert Lookup(snapshots, p) != Lookup(before.snapshots, p);
      assert Created(j.plan.ops, p) && DoesWithout(op, p);
      CreatedThere(j.plan.ops, snapshots, p);
      assert false;
    }
  }

  lemma UnblockedIsValid(render: Render, before: Data, j: Journal, b: Backup, now: Data)
    requires UnderWay(render, before, j, b, now) && !Blocked(j.plan.ops, now.snapshots)
    ensures Validate(j.plan, now)
  {
    hide Blocked, Exists, BackupOk, PhaseOk, ControlsOk;
    var ops := j.plan.ops;
    forall op | op in ops
      ensures ValidOp(op, now)
    {
      forall place | place in op.absent
        ensures !Exists(now.snapshots, place)
      {
        StillAbsent(before, j, now.snapshots, op, place);
      }
      assert PlannedOp(before, op) && Placed(op, before.sessions[op.source], now.sessions);
      var dir := now.sessions[Evidence(op, now.sessions)];
      MixedSizes(op, before.sessions[op.source], dir);
      forall a | a in op.assets
        ensures Lookup(now.snapshots, a.source) == Some(a.content)
        ensures Lookup(now.snapshots, a.target) in {None, Some(a.content)}
      {
        SnapshotIs(before, j, now.snapshots, op, a);
      }
    }
    forall i, j | 0 <= i < j < |ops|
      ensures ops[i].source != ops[j].source && ops[i].target != ops[j].target
    {
      assert Apart(ops[i], ops[j]);
    }
  }

  /** Snapshot sources never change, and a destination is empty or holds what is wanted there. */
  lemma SnapshotIs(before: Data, j: Journal, snapshots: map<string, Bytes>, op: Operation, a: Asset)
    requires Planned(before, j.plan) && SnapshotsOk(before.snapshots, j, snapshots)
    requires op in j.plan.ops && a in op.assets
    ensures Lookup(snapshots, a.source) == Some(a.content)
    ensures Lookup(snapshots, a.target) in {None, Some(a.content)}
    ensures a.target in snapshots ==> a.existed || a.target in j.assetWrites
    ensures a.existed ==> a.target in snapshots
  {
    assert PlannedOp(before, op);
    CreatedIsNew(before, j, a.source);
    CreatedIsNew(before, j, a.target);
    assert Wants(j.plan.ops, a.target, a.content);
    assert SameContent(j.plan.ops, a.target);
    assert Lookup(snapshots, a.source) == Lookup(before.snapshots, a.source);
    if Lookup(snapshots, a.target) != Lookup(before.snapshots, a.target) {
      assert Wants(j.plan.ops, a.target, snapshots[a.target]);
    }
  }

  lemma CreatedIsNew(before: Data, j: Journal, p: string)
    requires Planned(before, j.plan)
    ensures Created(j.plan.ops, p) ==> p !in before.snapshots
  {
    if Created(j.plan.ops, p) {
      var op, a :| op in j.plan.ops && a in op.assets && a.target == p && !a.existed;
      assert PlannedOp(before, op);
    }
  }

  lemma UnderWayIsIntact(render: Render, before: Data, j: Journal, b: Backup, now: Data)
    requires UnderWay(render, before, j, b, now) && b.journal == Some(j)
    ensures Intact(b, j.plan)
  {
    hide SessionsOk, PhaseOk, ControlsOk, ConflictFree, Controls;
    forall i | 0 <= i < |j.plan.ops|
      ensures PlainSizes(b.sessions[i]) == j.plan.ops[i].sizes
    {
      assert PlannedOp(before, j.plan.ops[i]);
    }
    KeysAreControls(j.controls.Keys, j.plan.roots);
  }

  lemma PresentIsCopied(before: map<string, Bytes>, j: Journal, snapshots: map<string, Bytes>)
    requires SnapshotsOk(before, j, snapshots) && AssetsPresent(j.plan.ops, snapshots)
    ensures IsCopied(before, j.plan.ops, snapshots)
  {
    forall p | (forall c :: !Wants(j.plan.ops, p, c))
      ensures Lookup(snapshots, p) == Lookup(before, p)
    {
    }
  }

  lemma SettledControls(render: Render, before: map<Control, Bytes>, j: Journal, now: Data, c: Control)
    requires ControlsOk(before, j, now.controls) && IndexesOk(render, j.controls, now.sessions)
    requires forall c: Control :: c in j.controls <==> c.root in j.plan.roots
    requires forall c | c in j.controls :: Lookup(now.controls, c) == j.controls[c].will
    ensures if c.root !in j.plan.roots then Lookup(now.controls, c) == Lookup(before, c)
            else if c.file == Index then IsIndex(render, c.root, now.sessions, Lookup(now.controls, c))
            else c !in now.controls
  {
    hide IsIndex;
  }

  lemma SettledIsDone(render: Render, before: Data, j: Journal, b: Backup, now: Data)
    requires UnderWay(render, before, j, b, now) && Settled(render, before, j, now)
    requires forall c | c in j.controls :: Lookup(now.controls, c) == j.controls[c].will
    ensures RepairDone(render, before, j.plan, now)
  {
    hide SessionsOk, Planned, IsRepaired, IsIndex, IsCopied, PhaseOk, SnapshotsOk, ControlsOk, IndexesOk;
    hide AssetsPresent;
    PresentIsCopied(before.snapshots, j, now.snapshots);
    forall c: Control
      ensures if c.root !in j.plan.roots then Lookup(now.controls, c) == Lookup(before.controls, c)
              else if c.file == Index then IsIndex(render, c.root, now.sessions, Lookup(now.controls, c))
              else c !in now.controls
    {
      SettledControls(render, before.controls, j, now, c);
    }
  }

  /** At every moment of a repair or a rollback a session to be moved is at exactly one of its two places, and it has
      all its files: every one as it was, or an identity file as it will be. */
  lemma ExactlyOnePlace(render: Render, before: Data, j: Journal, b: Backup, now: Data, op: Operation)
    requires UnderWay(render, before, j, b, now) && op in j.plan.ops
    ensures op.source in before.sessions
    ensures op.source != op.target ==> (op.source in now.sessions) != (op.target in now.sessions)
    ensures var l := if op.source in now.sessions then op.source else op.target;
            && l in now.sessions
            && now.sessions[l].Keys == before.sessions[op.source].Keys
            && forall n | n in now.sessions[l] ::
              || now.sessions[l][n] == before.sessions[op.source][n]
              || (n in op.updates && now.sessions[l][n] == op.updates[n].after)
  {
    hide BackupOk, SnapshotsOk, ControlsOk, PhaseOk;
    assert Placed(op, before.sessions[op.source], now.sessions) && PlannedOp(before, op);
  }
}
