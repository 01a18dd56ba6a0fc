// Where the sessions of a repair may be while it is applied or undone, and the check of session locations,
// identities and catalogs that every run starts with (repair-session-storage.py).
module RepairSessions {
  import opened Common
  import opened RepairPlan

  // ----- a plan that fits the data it was made for -----

  predicate PlannedOp(data: Data, op: Operation) {
    && op.source in data.sessions
    && (op.target != op.source ==> op.target !in data.sessions)
    && var dir := data.sessions[op.source];
    && METADATA in dir
    && (op.source == op.target ==> op.updates != map[])
    && (forall n | n in op.updates :: n in {METADATA, STATE} && Lookup(dir, n) == Some(op.updates[n].before))
    && op.sizes == PlainSizes(dir)
    && op.repairedSizes == PlainSizes(Rewritten(op, dir))
    && (forall a | a in op.assets ::
          && Lookup(data.snapshots, a.source) == Some(a.content)
          && Lookup(data.snapshots, a.target) == if a.existed then Some(a.content) else None)
    && (forall place | place in op.absent :: !Exists(data.snapshots, place))
  }

  function Affected(ops: seq<Operation>): set<string> {
    (set op | op in ops :: op.source.root) + (set op | op in ops :: op.target.root)
  }

  ghost predicate Planned(data: Data, plan: Plan) {
    && ConflictFree(plan.ops)
    && (forall op | op in plan.ops :: PlannedOp(data, op))
    && plan.roots == Affected(plan.ops)
    && plan.catalog == Catalog(data.sessions, plan.roots)
  }

  /** What the planner guarantees of the plan itself and no later step looks at again. */
  ghost predicate WellMade(plan: Plan) {
    && AssetsAgree(plan.ops)
    && (forall op | op in plan.ops && METADATA in op.updates ::
          Lookup(plan.catalog, op.source) == Some(op.updates[METADATA].before))
  }

  /** The plan the planner makes of what its scan found fits the data it scanned. */
  lemma AcceptedFits(data: Data, found: seq<Operation>)
    requires Scanned(data.sessions, found)
    requires forall op | op in found :: PlannedOp(data, op)
    ensures var ops := Accepted(found, |found|);
            Planned(data, Plan(ops, Affected(ops), Catalog(data.sessions, Affected(ops))))
  {
    AcceptedIsConflictFree(data.sessions, found);
    forall op | op in Accepted(found, |found|)
      ensures op in found
    {
      AcceptedExactly(found, op);
    }
  }

  lemma PlannedIsWellMade(data: Data, plan: Plan)
    requires Planned(data, plan)
    ensures WellMade(plan)
  {
    forall op | op in plan.ops
      ensures op.source.root in plan.roots && op.target.root in plan.roots
    {
    }
  }

  // ----- where a session is -----

  /** The location `check_sessions` settles on, if it accepts one. */
  function Locate(op: Operation, tree: Tree, resume: bool): (l: Option<Loc>)
    ensures l.Some? ==> l.value in tree && l.value in {op.source, op.target}
  {
    if op.source == op.target && op.source in tree then Some(op.source)
    else if op.source in tree && op.target !in tree then Some(op.source)
    else if resume && op.target in tree && op.source !in tree then Some(op.target)
    else None
  }

  /** A directory whose identity files are each before or after their rewrite, all else being as it was. */
  ghost predicate Mixed(op: Operation, was: Dir, dir: Dir) {
    && dir.Keys == was.Keys
    && (forall n | n in dir :: dir[n] == was[n] || (n in op.updates && dir[n] == op.updates[n].after))
  }

  /** The session of `op` is at exactly one of its two places, in some mixture of old and new identity files. */
  ghost predicate Placed(op: Operation, was: Dir, tree: Tree) {
    && Locate(op, tree, true).Some?
    && Mixed(op, was, tree[Locate(op, tree, true).value])
  }

  ghost predicate SessionsOk(before: Tree, ops: seq<Operation>, tree: Tree) {
    && (forall op | op in ops :: op.source in before && Placed(op, before[op.source], tree))
    && (forall l | !Touched(ops, l) :: Lookup(tree, l) == Lookup(before, l))
  }

  ghost predicate IsFinal(op: Operation, was: Dir, tree: Tree) {
    && Locate(op, tree, true) == Some(op.target)
    && tree[op.target] == Rewritten(op, was)
  }

  ghost predicate IsOriginal(op: Operation, was: Dir, tree: Tree) {
    && Locate(op, tree, true) == Some(op.source)
    && tree[op.source] == was
  }

  lemma PlacedAtStart(data: Data, plan: Plan)
    requires Planned(data, plan)
    ensures SessionsOk(data.sessions, plan.ops, data.sessions)
  {
  }

  lemma AllFinal(before: Tree, ops: seq<Operation>, tree: Tree)
    requires SessionsOk(before, ops, tree)
    requires forall op | op in ops :: IsFinal(op, before[op.source], tree)
    ensures IsRepaired(before, ops, tree)
  {
  }

  lemma RepairedIsFinal(data: Data, plan: Plan, tree: Tree, op: Operation)
    requires Planned(data, plan) && op in plan.ops
    requires IsRepaired(data.sessions, plan.ops, tree)
    ensures IsFinal(op, data.sessions[op.source], tree)
  {
  }

  lemma AllOriginal(data: Data, plan: Plan, tree: Tree)
    requires Planned(data, plan)
    requires SessionsOk(data.sessions, plan.ops, tree)
    requires forall op | op in plan.ops :: IsOriginal(op, data.sessions[op.source], tree)
    ensures tree == data.sessions
  {
    forall l
      ensures Lookup(tree, l) == Lookup(data.sessions, l)
    {
      if Touched(plan.ops, l) {
        var op :| op in plan.ops && (op.source == l || op.target == l);
        assert PlannedOp(data, op) && IsOriginal(op, data.sessions[op.source], tree);
      }
    }
    SameMaps(tree, data.sessions);
  }

  /** The trees agree outside the two places of `op`. */
  ghost predicate SameElsewhere(op: Operation, tree: Tree, tree': Tree) {
    forall l | l != op.source && l != op.target :: Lookup(tree, l) == Lookup(tree', l)
  }

  lemma OthersKeep(op: Operation, op': Operation, was: Dir, tree: Tree, tree': Tree)
    requires Apart(op, op') && SameElsewhere(op, tree, tree')
    ensures Locate(op', tree, true) == Locate(op', tree', true)
    ensures Placed(op', was, tree) <==> Placed(op', was, tree')
    ensures IsFinal(op', was, tree) <==> IsFinal(op', was, tree')
    ensures IsOriginal(op', was, tree) <==> IsOriginal(op', was, tree')
  {
    assert Lookup(tree, op'.source) == Lookup(tree', op'.source);
    assert Lookup(tree, op'.target) == Lookup(tree', op'.target);
  }

  lemma OthersAreApart(ops: seq<Operation>, op: Operation, op': Operation)
    requires AllApart(ops) && op in ops && op' in ops && op != op'
    ensures Apart(op, op')
  {
    var i, j :| 0 <= i < |ops| && 0 <= j < |ops| && ops[i] == op && ops[j] == op';
    if i < j {
      assert Apart(ops[i], ops[j]);
    } else {
      assert Apart(ops[j], ops[i]);
    }
  }

  /** A step on one session keeps all the others where and how they are. */
  lemma StepKeeps(before: Tree, ops: seq<Operation>, op: Operation, tree: Tree, tree': Tree)
    requires AllApart(ops) && op in ops
    requires SessionsOk(before, ops, tree)
    requires SameElsewhere(op, tree, tree') && Placed(op, before[op.source], tree')
    ensures SessionsOk(before, ops, tree')
  {
    forall op' | op' in ops
      ensures Placed(op', before[op'.source], tree')
    {
      if op' != op {
        OthersAreApart(ops, op, op');
        OthersKeep(op, op', before[op'.source], tree, tree');
      }
    }
    forall l | !Touched(ops, l)
      ensures Lookup(tree', l) == Lookup(before, l)
    {
      assert l != op.source && l != op.target;
      assert Lookup(tree, l) == Lookup(before, l);
    }
  }

  lemma MixedSizes(op: Operation, was: Dir, dir: Dir)
    requires Mixed(op, was, dir)
    requires forall n | n in op.updates :: Lookup(was, n) == Some(op.updates[n].before)
    ensures SizesBefore(op, dir) == PlainSizes(was)
    ensures SizesAfter(op, dir) == PlainSizes(Rewritten(op, was))
  {
    assert forall n | n in dir && n !in op.updates :: dir[n] == was[n];
  }

  // ----- the expected catalogs -----

  ghost predicate TouchedBy(ops: seq<Operation>, i: nat, l: Loc)
    requires i <= |ops|
  {
    exists k | 0 <= k < i :: ops[k].source == l || ops[k].target == l
  }

  /** After `i` operations, `expected` holds the metadata of `tree` where those were, and of `before` elsewhere. */
  ghost predicate Tracks(expected: map<Loc, Bytes>, before: Tree, ops: seq<Operation>, roots: set<string>,
                         tree: Tree, i: nat)
    requires i <= |ops|
  {
    forall l :: Lookup(expected, l) ==
                if l.root !in roots then None else if TouchedBy(ops, i, l) then Meta(tree, l) else Meta(before, l)
  }

  /** The bookkeeping of `check_sessions` for one operation found at `l`. */
  function NextExpected(expected: map<Loc, Bytes>, op: Operation, l: Loc, meta: Option<Bytes>): map<Loc, Bytes> {
    var moved := if l != op.source && op.source in expected
                 then (expected - {op.source})[op.target := expected[op.source]]
                 else expected;
    if METADATA in op.updates && meta.Some? then moved[l := meta.value] else moved
  }

  /** The metadata of one operation's session: at `here` and nowhere else. */
  ghost predicate OpMeta(op: Operation, before: Tree, tree: Tree, here: Loc) {
    && here in {op.source, op.target}
    && Meta(before, op.source).Some? && Meta(tree, here).Some?
    && (op.source != op.target ==>
          Meta(before, op.target) == None && Meta(tree, if here == op.source then op.target else op.source) == None)
    && (METADATA !in op.updates ==> Meta(tree, here) == Meta(before, op.source))
  }

  lemma OpMetaHolds(data: Data, plan: Plan, tree: Tree, op: Operation)
    requires Planned(data, plan) && SessionsOk(data.sessions, plan.ops, tree) && op in plan.ops
    ensures Locate(op, tree, true).Some?
    ensures OpMeta(op, data.sessions, tree, Locate(op, tree, true).value)
    ensures op.source.root in plan.roots && op.target.root in plan.roots
  {
    hide ConflictFree;
    assert PlannedOp(data, op) && Placed(op, data.sessions[op.source], tree);
  }

  lemma TracksNext(data: Data, plan: Plan, tree: Tree, expected: map<Loc, Bytes>, i: nat)
    requires Planned(data, plan) && SessionsOk(data.sessions, plan.ops, tree)
    requires i < |plan.ops|
    requires Tracks(expected, data.sessions, plan.ops, plan.roots, tree, i)
    ensures var op := plan.ops[i];
            var l := Locate(op, tree, true);
            && l.Some?
            && op.source in expected
            && Tracks(NextExpected(expected, op, l.value, Meta(tree, l.value)), data.sessions, plan.ops, plan.roots,
                      tree, i + 1)
  {
    hide PlannedOp, Affected, Placed, Meta, Locate, SessionsOk, AssetsAgree;
    var ops, op := plan.ops, plan.ops[i];
    OpMetaHolds(data, plan, tree, op);
    NotYetTouched(ops, i);
    var here := Locate(op, tree, true).value;
    TracksStep(data.sessions, plan, tree, expected, i, here);
  }

  lemma TracksStep(before: Tree, plan: Plan, tree: Tree, expected: map<Loc, Bytes>, i: nat, here: Loc)
    requires i < |plan.ops|
    requires var op := plan.ops[i];
             && OpMeta(op, before, tree, here)
             && op.source.root in plan.roots && op.target.root in plan.roots
             && !TouchedBy(plan.ops, i, op.source) && !TouchedBy(plan.ops, i, op.target)
    requires Tracks(expected, before, plan.ops, plan.roots, tree, i)
    ensures plan.ops[i].source in expected
    ensures Tracks(NextExpected(expected, plan.ops[i], here, Meta(tree, here)), before, plan.ops, plan.roots, tree,
                   i + 1)
  {
    hide Meta;
    var ops, op := plan.ops, plan.ops[i];
    var next := NextExpected(expected, op, here, Meta(tree, here));
    assert Lookup(expected, op.source) == Meta(before, op.source);
    assert Lookup(expected, op.target) == Meta(before, op.target);
    assert Lookup(next, op.source) == Meta(tree, op.source);
    assert Lookup(next, op.target) == Meta(tree, op.target);
    forall l
      ensures Lookup(next, l) == if l.root !in plan.roots then None
                                 else if TouchedBy(ops, i + 1, l) then Meta(tree, l) else Meta(before, l)
    {
      if l == op.source || l == op.target {
        assert TouchedBy(ops, i + 1, l);
      } else {
        assert Lookup(next, l) == Lookup(expected, l);
        assert TouchedBy(ops, i + 1, l) <==> TouchedBy(ops, i, l);
      }
    }
  }

  lemma NotYetTouched(ops: seq<Operation>, i: nat)
    requires AllApart(ops) && i < |ops|
    ensures !TouchedBy(ops, i, ops[i].source) && !TouchedBy(ops, i, ops[i].target)
  {
    forall k | 0 <= k < i
      ensures Apart(ops[k], ops[i])
    {
    }
  }

  lemma TracksAll(data: Data, plan: Plan, tree: Tree, expected: map<Loc, Bytes>)
    requires Planned(data, plan) && SessionsOk(data.sessions, plan.ops, tree)
    requires Tracks(expected, data.sessions, plan.ops, plan.roots, tree, |plan.ops|)
    ensures Catalog(tree, plan.roots) == expected
  {
    hide PlannedOp, Placed, ConflictFree, Affected;
    forall l
      ensures Lookup(Catalog(tree, plan.roots), l) == Lookup(expected, l)
    {
      assert Lookup(Catalog(tree, plan.roots), l) == if l.root in plan.roots then Meta(tree, l) else None;
      if Touched(plan.ops, l) {
        var op :| op in plan.ops && (op.source == l || op.target == l);
        var k :| 0 <= k < |plan.ops| && plan.ops[k] == op;
        assert TouchedBy(plan.ops, |plan.ops|, l);
      } else {
        assert Lookup(tree, l) == Lookup(data.sessions, l);
      }
    }
    SameMaps(Catalog(tree, plan.roots), expected);
  }

  lemma TracksNothing(data: Data, plan: Plan, tree: Tree)
    requires Planned(data, plan)
    ensures Tracks(plan.catalog, data.sessions, plan.ops, plan.roots, tree, 0)
  {
  }

  /** `expected_catalogs`: what the catalogs of the affected roots are once every operation is done. */
  method ExpectedCatalogs(plan: Plan, ghost data: Data, ghost tree: Tree) returns (expected: map<Loc, Bytes>)
    requires Planned(data, plan) && SessionsOk(data.sessions, plan.ops, tree)
    requires IsRepaired(data.sessions, plan.ops, tree)
    ensures expected == Catalog(tree, plan.roots)
  {
    hide Planned, SessionsOk, Tracks, Catalog, IsRepaired;
    expected := plan.catalog;
    TracksNothing(data, plan, tree);
    for i := 0 to |plan.ops|
      invariant Tracks(expected, data.sessions, plan.ops, plan.roots, tree, i)
    {
      var op := plan.ops[i];
      TracksNext(data, plan, tree, expected, i);
      FinalMeta(data, plan, tree, op);
      var meta := if METADATA in op.updates then op.updates[METADATA].after else expected[op.source];
      ghost var next := NextExpected(expected, op, op.target, Meta(tree, op.target));
      expected := (expected - {op.source})[op.target := meta];
      assert expected == next;
    }
    TracksAll(data, plan, tree, expected);
  }

  lemma FinalMeta(data: Data, plan: Plan, tree: Tree, op: Operation)
    requires Planned(data, plan) && op in plan.ops
    requires IsRepaired(data.sessions, plan.ops, tree)
    ensures Locate(op, tree, true) == Some(op.target)
    ensures METADATA in op.updates ==> Meta(tree, op.target) == Some(op.updates[METADATA].after)
  {
    RepairedIsFinal(data, plan, tree, op);
    assert PlannedOp(data, op);
  }

  // ----- check_sessions -----

  predicate IdentityOk(op: Operation, dir: Dir, resume: bool) {
    forall n | n in op.updates ::
      n in dir && (dir[n] == op.updates[n].before || (resume && dir[n] == op.updates[n].after))
  }

  /** The session is where it may be, has the identity and the layout the plan says, and the catalog listed it. */
  predicate SessionFits(op: Operation, tree: Tree, resume: bool, expected: map<Loc, Bytes>) {
    var location := Locate(op, tree, resume);
    && location.Some? && (location.value == op.source || op.source in expected)
    && IdentityOk(op, tree[location.value], resume) && SizesBefore(op, tree[location.value]) == op.sizes
  }

  /** The catalogs to be expected once the first `n` sessions have been found to fit; none if one of them does not. */
  function Expected(plan: Plan, tree: Tree, resume: bool, n: nat): Option<map<Loc, Bytes>>
    requires n <= |plan.ops|
  {
    if n == 0 then Some(plan.catalog)
    else
      var expected :- Expected(plan, tree, resume, n - 1);
      var op := plan.ops[n - 1];
      if !SessionFits(op, tree, resume, expected) then None
      else
        var l := Locate(op, tree, resume).value;
        Some(NextExpected(expected, op, l, Lookup(tree[l], METADATA)))
  }

  lemma {:induction false} ExpectedMeans(plan: Plan, tree: Tree, resume: bool, n: nat)
    requires n <= |plan.ops| && Expected(plan, tree, resume, n).Some?
    ensures forall k | 0 <= k < n ::
              var location := Locate(plan.ops[k], tree, resume);
              && location.Some? && IdentityOk(plan.ops[k], tree[location.value], resume)
              && SizesBefore(plan.ops[k], tree[location.value]) == plan.ops[k].sizes
    ensures WellMade(plan) && !resume ==> Expected(plan, tree, resume, n).value == plan.catalog
  {
    hide SizesBefore, IdentityOk, WellMade, NextExpected, Locate;
    if n > 0 {
      ExpectedMeans(plan, tree, resume, n - 1);
      if WellMade(plan) && !resume {
        var op := plan.ops[n - 1];
        Unmoved(op, tree);
        NothingNew(plan, op, tree[op.source]);
      }
    }
  }

  lemma {:induction false} ExpectedStops(plan: Plan, tree: Tree, resume: bool, m: nat, n: nat)
    requires m <= n <= |plan.ops| && Expected(plan, tree, resume, m).None?
    ensures Expected(plan, tree, resume, n).None?
  {
    hide SessionFits, NextExpected;
    if m < n {
      ExpectedStops(plan, tree, resume, m, n - 1);
    }
  }

  lemma Unmoved(op: Operation, tree: Tree)
    ensures Locate(op, tree, false).Some? ==> Locate(op, tree, false).value == op.source
  {
  }

  /** `check_sessions`: every session is found to fit and the catalogs are those to be expected then. A repair in
      progress always passes it again, and a first run that passes it finds every session unmoved, unchanged, and in
      the catalogs the plan lists. */
  method CheckSessions(plan: Plan, resume: bool, tree: Tree, ghost data: Data) returns (ok: bool)
    requires WellMade(plan)
    ensures ok <==> Expected(plan, tree, resume, |plan.ops|) == Some(Catalog(tree, plan.roots))
    ensures Planned(data, plan) && SessionsOk(data.sessions, plan.ops, tree) && (resume || tree == data.sessions) ==> ok
    ensures ok ==> forall op | op in plan.ops ::
              var location := Locate(op, tree, resume);
              && location.Some? && IdentityOk(op, tree[location.value], resume)
              && SizesBefore(op, tree[location.value]) == op.sizes
    ensures ok && !resume ==>
              && plan.catalog == Catalog(tree, plan.roots)
              && forall op | op in plan.ops ::
                && Locate(op, tree, false) == Some(op.source)
                && IdentityOk(op, tree[op.source], false)
                && SizesBefore(op, tree[op.source]) == op.sizes
  {
    hide Planned, SessionsOk, WellMade, Tracks, SizesBefore, Catalog, IdentityOk;
    ghost var good := Planned(data, plan) && SessionsOk(data.sessions, plan.ops, tree)
    && (resume || tree == data.sessions);
    var expected := plan.catalog;
    if good {
      TracksNothing(data, plan, tree);
    }
    for i := 0 to |plan.ops|
      invariant Expected(plan, tree, resume, i) == Some(expected)
      invariant good ==> Tracks(expected, data.sessions, plan.ops, plan.roots, tree, i)
    {
      var op := plan.ops[i];
      if good {
        GoodOp(data, plan, tree, resume, op);
        TracksNext(data, plan, tree, expected, i);
      }
      var location := Locate(op, tree, resume);
      if location == None || (location.value != op.source && op.source !in expected) {
        ExpectedStops(plan, tree, resume, i + 1, |plan.ops|);
        return false;
      }
      var dir := tree[location.value];
      if !IdentityOk(op, dir, resume) || SizesBefore(op, dir) != op.sizes {
        ExpectedStops(plan, tree, resume, i + 1, |plan.ops|);
        return false;
      }
      expected := NextExpected(expected, op, location.value, Lookup(dir, METADATA));
    }
    if good {
      TracksAll(data, plan, tree, expected);
    }
    ok := Catalog(tree, plan.roots) == expected;
    ExpectedMeans(plan, tree, resume, |plan.ops|);
    forall op | op in plan.ops
      ensures exists k :: 0 <= k < |plan.ops| && plan.ops[k] == op
    {
    }
    if !resume {
      forall op | op in plan.ops
        ensures Locate(op, tree, false).Some? ==> Locate(op, tree, false).value == op.source
      {
        Unmoved(op, tree);
      }
    }
  }

  lemma GoodOp(data: Data, plan: Plan, tree: Tree, resume: bool, op: Operation)
    requires Planned(data, plan) && SessionsOk(data.sessions, plan.ops, tree) && (resume || tree == data.sessions)
    requires op in plan.ops
    ensures Locate(op, tree, resume).Some? && Locate(op, tree, resume) == Locate(op, tree, true)
    ensures IdentityOk(op, tree[Locate(op, tree, true).value], resume)
    ensures SizesBefore(op, tree[Locate(op, tree, true).value]) == op.sizes
  {
    assert PlannedOp(data, op);
    MixedSizes(op, data.sessions[op.source], tree[Locate(op, tree, true).value]);
  }

  lemma NothingNew(plan: Plan, op: Operation, dir: Dir)
    requires WellMade(plan) && op in plan.ops && IdentityOk(op, dir, false)
    ensures NextExpected(plan.catalog, op, op.source, Lookup(dir, METADATA)) == plan.catalog
  {
  }
}
