// Plans of the session repair (repair-session-storage.py): what a plan is, how the planner drops conflicting
// operations, and why the accepted ones can be applied in any order.
module RepairPlan {
  import opened Common

  type Name = string
  type Bytes = seq<byte>

  const METADATA: Name := "metadata.json"
  const STATE: Name := "state.json"

  /** A session directory is named by its sessions root and its own name. */
  datatype Loc = Loc(root: string, name: Name)

  /** All files of a session directory, by relative path. */
  type Dir = map<Name, Bytes>

  type Tree = map<Loc, Dir>

  /** The derived files of a sessions root: its index and the three files of its search cache. */
  datatype ControlName = Index | Search | SearchWal | SearchShm
  datatype Control = Control(root: string, file: ControlName)

  /** Everything a repair may change. Snapshot files are named by their paths. */
  datatype Data = Data(sessions: Tree, controls: map<Control, Bytes>, snapshots: map<string, Bytes>)

  datatype Update = Update(before: Bytes, after: Bytes)

  /** A snapshot to copy; `existed` says whether the destination was already there. Digests are taken to be
      injective, so contents stand for digests throughout. */
  datatype Asset = Asset(source: string, target: string, content: Bytes, existed: bool)

  /** `assets` are the snapshots the session depends on and `absent` the optional ones it does without: the places
      below its source runtime where the search for dependencies looks and the plan lists nothing. */
  datatype Operation = Operation(source: Loc, target: Loc, updates: map<Name, Update>, sizes: map<Name, nat>,
                                 repairedSizes: map<Name, nat>, assets: seq<Asset>, absent: set<string>)

  /** `roots` are the affected sessions roots and `catalog` the metadata of every session in them. */
  datatype Plan = Plan(ops: seq<Operation>, roots: set<string>, catalog: map<Loc, Bytes>)

  // ----- directories -----

  /** A directory after the identity rewrites of an operation. */
  function Rewritten(op: Operation, dir: Dir): Dir {
    map n | n in dir :: if n in op.updates then op.updates[n].after else dir[n]
  }

  /** The fingerprint of a directory is its layout: names and sizes. */
  function PlainSizes(dir: Dir): map<Name, nat> {
    map n | n in dir :: |dir[n]|
  }

  /** The same, with identity files counted at their size before (or after) the repair. */
  function SizesBefore(op: Operation, dir: Dir): map<Name, nat> {
    map n | n in dir :: if n in op.updates then |op.updates[n].before| else |dir[n]|
  }

  function SizesAfter(op: Operation, dir: Dir): map<Name, nat> {
    map n | n in dir :: if n in op.updates then |op.updates[n].after| else |dir[n]|
  }

  function Meta(tree: Tree, l: Loc): Option<Bytes> {
    if l in tree then Lookup(tree[l], METADATA) else None
  }

  /** The metadata of every session below some roots. */
  function Catalog(tree: Tree, roots: set<string>): map<Loc, Bytes> {
    map l | l in tree && l.root in roots && METADATA in tree[l] :: tree[l][METADATA]
  }

  // ----- snapshot dependencies -----

  /** The path is `place`, or lies below it. */
  predicate Within(p: string, place: string) {
    p == place || place + "/" <= p
  }

  predicate Exists(snapshots: map<string, Bytes>, place: string) {
    exists p | p in snapshots :: Within(p, place)
  }

  predicate DoesWithout(op: Operation, p: string) {
    exists place | place in op.absent :: Within(p, place)
  }

  /** `p` is where some operation does without a snapshot. */
  predicate Disturbs(ops: seq<Operation>, p: string) {
    exists op | op in ops :: DoesWithout(op, p)
  }

  /** Some operation makes a copy where another one does without. */
  predicate Clash(ops: seq<Operation>) {
    exists op, a | op in ops && a in op.assets :: !a.existed && Disturbs(ops, a.target)
  }

  /** Such a copy has been made. */
  predicate Blocked(ops: seq<Operation>, snapshots: map<string, Bytes>) {
    exists op, a | op in ops && a in op.assets :: !a.existed && a.target in snapshots && Disturbs(ops, a.target)
  }

  // ----- the planner's last pass -----

  /** What the scan of the sessions guarantees of its candidates: every source is a session and is listed once, and
      a move goes to a place where nothing is. */
  predicate Scanned(tree: Tree, ops: seq<Operation>) {
    && (forall op | op in ops :: op.source in tree && (op.target == op.source || op.target !in tree))
    && (forall i, j | 0 <= i < j < |ops| :: ops[i].source != ops[j].source)
  }

  predicate UniqueTarget(ops: seq<Operation>, l: Loc) {
    forall i, j | 0 <= i < |ops| && 0 <= j < |ops| && ops[i].target == l && ops[j].target == l :: i == j
  }

  /** Some operation wants content `c` at the snapshot path `p`. */
  predicate Wants(ops: seq<Operation>, p: string, c: Bytes) {
    exists op, a | op in ops && a in op.assets :: a.target == p && a.content == c
  }

  ghost predicate SameContent(ops: seq<Operation>, p: string) {
    forall c, c' | Wants(ops, p, c) && Wants(ops, p, c') :: c == c'
  }

  ghost predicate Acceptable(ops: seq<Operation>, op: Operation) {
    UniqueTarget(ops, op.target) && forall a | a in op.assets :: SameContent(ops, a.target)
  }

  ghost function Accepted(ops: seq<Operation>, n: nat): (r: seq<Operation>)
    requires n <= |ops|
    ensures forall op | op in r :: op in ops[..n] && Acceptable(ops, op)
  {
    if n == 0 then []
    else if Acceptable(ops, ops[n - 1]) then Accepted(ops, n - 1) + [ops[n - 1]]
    else Accepted(ops, n - 1)
  }

  /** Two operations that touch different directories. */
  predicate Apart(op: Operation, op': Operation) {
    op.source != op'.source && op.target != op'.target && op.source != op'.target && op.target != op'.source
  }

  predicate AllApart(ops: seq<Operation>) {
    forall i, j | 0 <= i < j < |ops| :: Apart(ops[i], ops[j])
  }

  /** Every snapshot path is wanted with one content. */
  ghost predicate AssetsAgree(ops: seq<Operation>) {
    forall p :: SameContent(ops, p)
  }

  /** Accepted operations do not get in each other's way. */
  ghost predicate ConflictFree(ops: seq<Operation>) {
    AllApart(ops) && AssetsAgree(ops)
  }

  lemma {:induction false} AcceptedAreApart(tree: Tree, ops: seq<Operation>, n: nat)
    requires n <= |ops|
    requires Scanned(tree, ops)
    ensures AllApart(Accepted(ops, n))
  {
    if n > 0 {
      AcceptedAreApart(tree, ops, n - 1);
      var kept, op := Accepted(ops, n - 1), ops[n - 1];
      if Acceptable(ops, op) {
        forall op' | op' in kept
          ensures Apart(op', op)
        {
          var k :| 0 <= k < n - 1 && ops[k] == op';
          assert ops[k].source != ops[n - 1].source;
        }
      }
    }
  }

  /** What the planner accepts is free of conflicts, whatever the scan found. */
  lemma AcceptedIsConflictFree(tree: Tree, ops: seq<Operation>)
    requires Scanned(tree, ops)
    ensures ConflictFree(Accepted(ops, |ops|))
  {
    AcceptedAreApart(tree, ops, |ops|);
    var kept := Accepted(ops, |ops|);
    forall p, c, c' | Wants(kept, p, c) && Wants(kept, p, c')
      ensures c == c'
    {
      var op, a :| op in kept && a in op.assets && a.target == p && a.content == c;
      assert SameContent(ops, a.target);
      assert Wants(ops, p, c) && Wants(ops, p, c');
    }
  }

  lemma {:induction false} AcceptedKeeps(ops: seq<Operation>, n: nat, op: Operation)
    requires n <= |ops|
    requires op in ops[..n] && Acceptable(ops, op)
    ensures op in Accepted(ops, n)
  {
    if ops[n - 1] != op {
      assert op in ops[..n - 1];
      AcceptedKeeps(ops, n - 1, op);
    }
  }

  /** Only conflicts are dropped: an operation is accepted exactly when it is a candidate, no other candidate claims
      its target and no snapshot it needs is wanted with another content. */
  lemma AcceptedExactly(ops: seq<Operation>, op: Operation)
    ensures op in Accepted(ops, |ops|) <==> op in ops && Acceptable(ops, op)
  {
    assert ops[..|ops|] == ops;
    if op in ops && Acceptable(ops, op) {
      AcceptedKeeps(ops, |ops|, op);
    }
  }

  predicate Holds<K, V>(m: map<K, set<V>>, k: K, v: V) {
    k in m && v in m[k]
  }

  function OneMore<K(!new), V(!new)>(m: map<K, set<V>>, k: K, v: V): (r: map<K, set<V>>)
    ensures forall k', v' :: Holds(r, k', v') <==> Holds(m, k', v') || (k' == k && v' == v)
  {
    m[k := (if k in m then m[k] else {}) + {v}]
  }

  ghost predicate Claims(claims: map<Loc, set<int>>, ops: seq<Operation>, n: nat)
    requires n <= |ops|
  {
    forall l, k :: Holds(claims, l, k) <==> (0 <= k < n && ops[k].target == l)
  }

  predicate Lists(assets: seq<Asset>, p: string, c: Bytes) {
    exists a | a in assets :: a.target == p && a.content == c
  }

  ghost predicate Contents(contents: map<string, set<Bytes>>, ops: seq<Operation>, more: seq<Asset>) {
    forall p, c :: Holds(contents, p, c) <==> Wants(ops, p, c) || Lists(more, p, c)
  }

  lemma WantsMore(ops: seq<Operation>, op: Operation, p: string, c: Bytes)
    ensures Wants(ops + [op], p, c) <==> Wants(ops, p, c) || Lists(op.assets, p, c)
  {
    if Wants(ops, p, c) {
      var o, a :| o in ops && a in o.assets && a.target == p && a.content == c;
      assert o in ops + [op];
    }
    if Lists(op.assets, p, c) {
      assert op in ops + [op];
    }
  }

  lemma TwoOf<T>(s: set<T>) returns (x: T, y: T)
    requires |s| > 1
    ensures x in s && y in s && x != y
  {
    x :| x in s;
    assert |s - {x}| > 0;
    y :| y in s - {x};
  }

  lemma AtLeastTwo<T>(s: set<T>, x: T, y: T)
    requires x in s && y in s && x != y
    ensures |s| > 1
  {
    assert s == {x, y} + (s - {x, y});
  }

  /** The conflict pass of `make_plan`. */
  method Accept(ops: seq<Operation>) returns (accepted: seq<Operation>)
    ensures accepted == Accepted(ops, |ops|)
  {
    hide Wants, Lists, Holds, UniqueTarget, SameContent;
    var duplicates: map<Loc, set<int>> := map[];
    var assetTargets: map<string, set<Bytes>> := map[];
    NothingYet(duplicates, assetTargets, ops);
    for i := 0 to |ops|
      invariant Claims(duplicates, ops, i)
      invariant Contents(assetTargets, ops[..i], [])
    {
      duplicates := OneMore(duplicates, ops[i].target, i);
      assetTargets := AddAssets(assetTargets, ops, i);
    }
    assert ops[..|ops|] == ops;
    accepted := [];
    for i := 0 to |ops|
      invariant accepted == Accepted(ops, i)
    {
      var op := ops[i];
      UniqueByCount(ops, duplicates, op);
      forall a | a in op.assets
        ensures a.target in assetTargets && (|assetTargets[a.target]| > 1 <==> !SameContent(ops, a.target))
      {
        SameByCount(ops, assetTargets, op, a);
      }
      if |duplicates[op.target]| <= 1 && forall a | a in op.assets :: |assetTargets[a.target]| <= 1 {
        accepted := accepted + [op];
      }
    }
  }

  lemma NothingYet(claims: map<Loc, set<int>>, contents: map<string, set<Bytes>>, ops: seq<Operation>)
    requires claims == map[] && contents == map[]
    ensures Claims(claims, ops, 0) && Contents(contents, ops[..0], [])
  {
  }

  /** The inner loop: the contents wanted by operation `i`. */
  method AddAssets(before: map<string, set<Bytes>>, ops: seq<Operation>, i: nat)
    returns (assetTargets: map<string, set<Bytes>>)
    requires i < |ops|
    requires Contents(before, ops[..i], [])
    ensures Contents(assetTargets, ops[..i + 1], [])
  {
    var assets := ops[i].assets;
    assetTargets := before;
    for k := 0 to |assets|
      invariant Contents(assetTargets, ops[..i], assets[..k])
    {
      assetTargets := OneMore(assetTargets, assets[k].target, assets[k].content);
      assert assets[..k + 1] == assets[..k] + [assets[k]];
    }
    assert assets[..|assets|] == assets;
    assert ops[..i + 1] == ops[..i] + [ops[i]];
    forall p, c
      ensures Wants(ops[..i + 1], p, c) <==> Wants(ops[..i], p, c) || Lists(assets, p, c)
    {
      WantsMore(ops[..i], ops[i], p, c);
    }
  }

  lemma UniqueByCount(ops: seq<Operation>, claims: map<Loc, set<int>>, op: Operation)
    requires Claims(claims, ops, |ops|)
    requires op in ops
    ensures op.target in claims && (|claims[op.target]| > 1 <==> !UniqueTarget(ops, op.target))
  {
    var l := op.target;
    var k :| 0 <= k < |ops| && ops[k] == op;
    assert Holds(claims, l, k);
    if !UniqueTarget(ops, l) {
      var i, j :| 0 <= i < |ops| && 0 <= j < |ops| && ops[i].target == l && ops[j].target == l && i != j;
      assert Holds(claims, l, i) && Holds(claims, l, j);
      AtLeastTwo(claims[l], i, j);
    }
    if |claims[l]| > 1 {
      var i, j := TwoOf(claims[l]);
      assert Holds(claims, l, i) && Holds(claims, l, j);
    }
  }

  lemma SameByCount(ops: seq<Operation>, contents: map<string, set<Bytes>>, op: Operation, a: Asset)
    requires Contents(contents, ops, [])
    requires op in ops && a in op.assets
    ensures a.target in contents && (|contents[a.target]| > 1 <==> !SameContent(ops, a.target))
  {
    var p := a.target;
    assert Wants(ops, p, a.content);
    hide Wants;
    assert Holds(contents, p, a.content);
    if !SameContent(ops, p) {
      var c, c' :| Wants(ops, p, c) && Wants(ops, p, c') && c != c';
      assert Holds(contents, p, c) && Holds(contents, p, c');
      AtLeastTwo(contents[p], c, c');
    }
    if |contents[p]| > 1 {
      var c, c' := TwoOf(contents[p]);
      assert Holds(contents, p, c) && Holds(contents, p, c');
    }
  }

  // ----- what a plan does, and that its order does not matter -----

  ghost predicate Touched(ops: seq<Operation>, l: Loc) {
    exists op | op in ops :: op.source == l || op.target == l
  }

  /** `after` is `before` with every operation carried out: moved and rewritten directories at their targets,
      nothing left at the sources of moves, and everything else as it was. */
  ghost predicate IsRepaired(before: Tree, ops: seq<Operation>, after: Tree)
    requires forall op | op in ops :: op.source in before
  {
    && (forall op | op in ops :: op.target in after && after[op.target] == Rewritten(op, before[op.source]))
    && (forall op | op in ops && op.source != op.target :: op.source !in after)
    && (forall l | !Touched(ops, l) :: Lookup(after, l) == Lookup(before, l))
  }

  ghost predicate IsCopied(before: map<string, Bytes>, ops: seq<Operation>, after: map<string, Bytes>) {
    && (forall op, a | op in ops && a in op.assets :: Lookup(after, a.target) == Some(a.content))
    && (forall p | (forall c :: !Wants(ops, p, c)) :: Lookup(after, p) == Lookup(before, p))
  }

  function Moved(tree: Tree, op: Operation): Tree {
    if op.source in tree then (tree - {op.source})[op.target := Rewritten(op, tree[op.source])] else tree
  }

  function WithAssets(snapshots: map<string, Bytes>, assets: seq<Asset>): map<string, Bytes> {
    if assets == [] then snapshots
    else WithAssets(snapshots, assets[..|assets| - 1])[assets[|assets| - 1].target := assets[|assets| - 1].content]
  }

  /** Operations one after the other. */
  function Performed(data: Data, ops: seq<Operation>): Data {
    if ops == [] then data
    else
      var done, op := Performed(data, ops[..|ops| - 1]), ops[|ops| - 1];
      done.(sessions := Moved(done.sessions, op), snapshots := WithAssets(done.snapshots, op.assets))
  }

  lemma RepairedIsUnique(before: Tree, ops: seq<Operation>, after: Tree, after': Tree)
    requires forall op | op in ops :: op.source in before
    requires IsRepaired(before, ops, after) && IsRepaired(before, ops, after')
    ensures after == after'
  {
    forall l
      ensures Lookup(after, l) == Lookup(after', l)
    {
      if Touched(ops, l) {
        var op :| op in ops && (op.source == l || op.target == l);
      }
    }
    SameMaps(after, after');
  }

  lemma CopiedIsUnique(before: map<string, Bytes>, ops: seq<Operation>, after: map<string, Bytes>,
                       after': map<string, Bytes>)
    requires IsCopied(before, ops, after) && IsCopied(before, ops, after')
    ensures after == after'
  {
    forall p
      ensures Lookup(after, p) == Lookup(after', p)
    {
      if c :| Wants(ops, p, c) {
        var op, a :| op in ops && a in op.assets && a.target == p;
      }
    }
    SameMaps(after, after');
  }

  lemma SameMaps<K, V>(m: map<K, V>, m': map<K, V>)
    requires forall k :: Lookup(m, k) == Lookup(m', k)
    ensures m == m'
  {
    forall k
      ensures k in m <==> k in m'
      ensures k in m ==> m[k] == m'[k]
    {
      assert Lookup(m, k) == Lookup(m', k);
    }
  }

  lemma {:induction false} WithAssetsIs(snapshots: map<string, Bytes>, assets: seq<Asset>, p: string)
    ensures (forall a | a in assets :: a.target != p) ==>
              Lookup(WithAssets(snapshots, assets), p) == Lookup(snapshots, p)
    ensures (exists a | a in assets :: a.target == p)
      ==> exists a | a in assets :: a.target == p && Lookup(WithAssets(snapshots, assets), p) == Some(a.content)
  {
    if assets != [] {
      var n := |assets| - 1;
      WithAssetsIs(snapshots, assets[..n], p);
      assert assets == assets[..n] + [assets[n]];
    }
  }

  lemma {:induction false} PerformedIsRepaired(data: Data, ops: seq<Operation>)
    requires ConflictFree(ops)
    requires forall op | op in ops :: op.source in data.sessions
    ensures IsRepaired(data.sessions, ops, Performed(data, ops).sessions)
    ensures IsCopied(data.snapshots, ops, Performed(data, ops).snapshots)
    ensures Performed(data, ops).controls == data.controls
  {
    if ops != [] {
      var n := |ops| - 1;
      var front, op := ops[..n], ops[n];
      assert ops == front + [op];
      FrontIsConflictFree(front, op);
      PerformedIsRepaired(data, front);
      RepairedStep(data.sessions, front, op, Performed(data, front).sessions);
      CopiedStep(data.snapshots, front, op, Performed(data, front).snapshots);
    }
  }

  lemma FrontIsConflictFree(front: seq<Operation>, op: Operation)
    requires ConflictFree(front + [op])
    ensures ConflictFree(front)
  {
    var ops := front + [op];
    forall i, j | 0 <= i < j < |front|
      ensures Apart(front[i], front[j])
    {
      assert ops[i] == front[i] && ops[j] == front[j];
    }
    forall p, c, c' | Wants(front, p, c) && Wants(front, p, c')
      ensures c == c'
    {
      WantsMore(front, op, p, c);
      WantsMore(front, op, p, c');
      assert SameContent(ops, p);
    }
  }

  lemma RepairedStep(before: Tree, front: seq<Operation>, op: Operation, done: Tree)
    requires AllApart(front + [op])
    requires forall o | o in front + [op] :: o.source in before
    requires IsRepaired(before, front, done)
    ensures IsRepaired(before, front + [op], Moved(done, op))
  {
    var ops := front + [op];
    forall o | o in front
      ensures o in ops && Apart(o, op)
    {
      var k :| 0 <= k < |front| && front[k] == o;
      assert ops[k] == o && ops[|front|] == op;
    }
    assert !Touched(front, op.source) && !Touched(front, op.target);
    assert Lookup(done, op.source) == Lookup(before, op.source);
    forall l | !Touched(ops, l)
      ensures Lookup(Moved(done, op), l) == Lookup(before, l)
    {
      assert op in ops;
      assert !Touched(front, l);
    }
  }

  lemma CopiedStep(before: map<string, Bytes>, front: seq<Operation>, op: Operation, done: map<string, Bytes>)
    requires AssetsAgree(front + [op])
    requires IsCopied(before, front, done)
    ensures IsCopied(before, front + [op], WithAssets(done, op.assets))
  {
    var ops, after := front + [op], WithAssets(done, op.assets);
    assert op in ops && forall o | o in front :: o in ops;
    forall o, a | o in ops && a in o.assets
      ensures Lookup(after, a.target) == Some(a.content)
    {
      WithAssetsIs(done, op.assets, a.target);
      if a' :| a' in op.assets && a'.target == a.target {
        var b :| b in op.assets && b.target == a.target && Lookup(after, a.target) == Some(b.content);
        assert SameContent(ops, a.target) && Wants(ops, a.target, a.content) && Wants(ops, a.target, b.content);
      }
    }
    forall p | (forall c :: !Wants(ops, p, c))
      ensures Lookup(after, p) == Lookup(before, p)
    {
      WithAssetsIs(done, op.assets, p);
      forall a | a in op.assets
        ensures a.target != p
      {
        assert !Wants(ops, p, a.content);
      }
      forall c
        ensures !Wants(front, p, c)
      {
        assert !Wants(ops, p, c);
      }
    }
  }

  /** Accepted operations may be applied in any order. */
  lemma OrderIsIrrelevant(data: Data, ops: seq<Operation>, ops': seq<Operation>)
    requires ConflictFree(ops) && ConflictFree(ops')
    requires forall op | op in ops :: op.source in data.sessions
    requires forall op :: op in ops <==> op in ops'
    ensures Performed(data, ops) == Performed(data, ops')
  {
    PerformedIsRepaired(data, ops);
    PerformedIsRepaired(data, ops');
    var d, d' := Performed(data, ops), Performed(data, ops');
    forall l
      ensures Touched(ops, l) <==> Touched(ops', l)
    {
    }
    forall p, c
      ensures Wants(ops, p, c) <==> Wants(ops', p, c)
    {
    }
    assert IsRepaired(data.sessions, ops, d'.sessions);
    assert IsCopied(data.snapshots, ops, d'.snapshots);
    RepairedIsUnique(data.sessions, ops, d.sessions, d'.sessions);
    CopiedIsUnique(data.snapshots, ops, d.snapshots, d'.snapshots);
  }
}
