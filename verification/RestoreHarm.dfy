// The promise of `prepareRestore` in HostDialogQueue.ts: once the intent to restore a message is stored, nothing in the
// background takes the record away. Here is what can do it harm.
module RestoreHarm {
  import opened Common
  import opened Outbox

  predicate Kept(s: State, key: Key) {
    key in s.storage && s.storage[key].restoreIntent
  }

  /** The caller asks to send the message again from a copy without the intent, which is also what sending an equal
      message means while the page lists such a copy; or to use its id for another message; or to dismiss the record. */
  predicate GivesUp(s: State, a: Action, key: Key) {
    || (a.CallRetry? && Stale(a.record, key))
    || (a.CallSubmit? && (a.key == key || Picks(s.page, a.body, key)))
    || (a.Dismiss? && a.record.key == key)
  }

  /** A copy of the record without the intent. */
  predicate Stale(r: Record, key: Key) {
    r.key == key && !r.restoreIntent
  }

  /** A submission of this message would go on with a pending copy of the record. */
  predicate Picks(page: Page, body: string, key: Key) {
    FirstMatch(page.pending, body).Some? && Stale(FirstMatch(page.pending, body).value, key)
  }

  /** The host's definite refusal of the message takes effect. */
  predicate Refuses(s: State, a: Action, key: Key) {
    a.WithdrawDone? && s.mutation.Withdrawing? && s.mutation.record.key == key
  }

  predicate Background(s: State, a: Action, key: Key) {
    Enabled(s, a) && !GivesUp(s, a, key) && !Refuses(s, a, key)
  }

  /** A run in which the caller does not ask to give the record up and the host does not refuse the message. What was
      asked before may still happen in it. */
  predicate Quiet(s: State, actions: seq<Action>, key: Key): (r: bool)
    ensures r ==> CanRun(s, actions)
    decreases |actions|
  {
    actions == [] || (Background(s, actions[0], key) && Quiet(Next(s, actions[0]), actions[1..], key))
  }

  // ----- what can do harm -----

  /** The collection loop does something about this copy. */
  predicate ActedOn(r: Record, current: Snapshot) {
    r.accepted.Some? && (r.epoch != current.epoch || r.key !in current.items)
  }

  predicate HarmIn(rest: seq<Record>, current: Snapshot, key: Key) {
    exists r | r in rest :: Stale(r, key) && ActedOn(r, current)
  }

  /** A snapshot that would replace the published one, and does not list the message. */
  predicate Drops(s: Snapshot, view: Snapshot, key: Key) {
    s.epoch == view.epoch && view.revision <= s.revision && key !in s.items
  }

  predicate ReplyDrops(mutation: Mutation, view: Snapshot, key: Key) {
    && (mutation.Queried? || mutation.Replied?)
    && mutation.reply.Receipt? && Drops(mutation.reply.snapshot, view, key)
  }

  /** The published snapshot can become one that does not list the message before the loop looks at it: the host is
      still in its epoch, or an answer of that epoch is on its way. */
  predicate MayDrop(s: State, key: Key)
    requires s.view.Some?
  {
    || s.host.now.epoch == s.view.value.epoch
    || (exists snapshot | snapshot in s.receipts :: Drops(snapshot, s.view.value, key))
    || ReplyDrops(s.mutation, s.view.value, key)
  }

  predicate HarmInCopy(s: State, r: Record, key: Key)
    requires s.view.Some?
  {
    Stale(r, key) && r.accepted.Some? && (ActedOn(r, s.view.value) || MayDrop(s, key))
  }

  /** A refresh that has read the storage before. */
  predicate RefreshHarms(s: State, key: Key) {
    match s.refresh
    case Listed(records) => s.view.Some? && exists r | r in records :: HarmInCopy(s, r, key)
    case Collecting(rest, current) => HarmIn(rest, current, key)
    case Flagging(record, rest, current) => record.key == key || HarmIn(rest, current, key)
    case Removing(record, rest, current) => record.key == key || HarmIn(rest, current, key)
    case _ => false
  }

  /** A mutation that started from an earlier copy and will or may still store it. */
  predicate MutationHarms(s: State, key: Key) {
    match s.mutation
    case NoMutation => false
    case Querying(r) => Stale(r, key) && r.epoch == s.host.now.epoch
    case Queried(r, reply) => Stale(r, key) && !reply.Failure?
    case Marking(r) => Stale(r, key)
    case Storing(r) => Stale(r, key)
    case Sending(r) => Stale(r, key) && r.epoch == s.host.now.epoch
    case Replied(r, reply) => Stale(r, key) && reply.Receipt?
    case Noting(r) => Stale(r, key)
    case Withdrawing(r) => false
  }

  /** The page's snapshot is of this epoch at some time, if the host stays in its own. */
  predicate CanSee(s: State, epoch: nat) {
    || epoch == s.host.now.epoch
    || (s.view.Some? && epoch == s.view.value.epoch)
    || (s.refresh.Answered? && epoch == s.refresh.snapshot.epoch)
  }

  /** A call that has not begun will or may still store a copy without the intent. */
  predicate CallHarms(s: State, call: Call, key: Key) {
    match call
    case Retry(r) => Stale(r, key) && r.epoch == s.host.now.epoch
    case Submit(own, body, prepared) =>
      || (own == key && (prepared.Some? ==> CanSee(s, prepared.value)))
      || (&& Picks(s.page, body, key) && FirstMatch(s.page.pending, body).value.epoch == s.host.now.epoch
          && (prepared.Some? ==> prepared.value == s.host.now.epoch))
    case Other(_, _) => false
  }

  /** The epoch of the snapshot with which the refresh under way will end, if the host stays in its own. */
  function EndsWith(s: State): nat {
    match s.refresh
    case Answered(snapshot) => snapshot.epoch
    case Collecting(_, current) => current.epoch
    case Flagging(_, _, current) => current.epoch
    case Removing(_, _, current) => current.epoch
    case Publishing(current) => current.epoch
    case _ => if s.refresh.Asked? || s.view.None? then s.host.now.epoch else s.view.value.epoch
  }

  predicate WaitHarms(s: State, call: Call, key: Key) {
    CallHarms(s, call, key) && ((call.Submit? && call.key == key) || EndsWith(s) == s.host.now.epoch)
  }

  /** A call that was made before and has to wait, or a dismissal that has not come into effect. */
  predicate PageHarms(s: State, key: Key) {
    || key in s.page.dismissing
    || (exists call | call in s.page.calls :: CallHarms(s, call, key))
    || (s.page.waits.Some? && WaitHarms(s, s.page.waits.value, key))
  }

  predicate Harms(s: State, key: Key) {
    RefreshHarms(s, key) || MutationHarms(s, key) || PageHarms(s, key)
  }
}
