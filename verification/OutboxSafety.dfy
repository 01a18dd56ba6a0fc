// What the outbox keeps over all interleavings of its calls (HostDialogQueue.ts).
module OutboxSafety {
  import opened Common
  import opened Outbox

  // ----- the invariant -----

  predicate NotNewerThan(a: Snapshot, b: Snapshot) {
    NotNewer(a.epoch, a.revision, b)
  }

  /** An acknowledged message was taken over by the host, no later than `bound`. */
  predicate AckOk(r: Record, taken: set<Key>, bound: Snapshot) {
    r.accepted.Some? ==> r.Submits() && r.key in taken && NotNewer(r.epoch, r.accepted.value, bound)
  }

  predicate AcksOk(records: set<Record>, taken: set<Key>, bound: Snapshot) {
    forall r | r in records :: AckOk(r, taken, bound)
  }

  /** What the client has seen, or will see when it has seen nothing yet. */
  function Bound(s: State): Snapshot {
    if s.view.Some? then s.view.value else s.host.now
  }

  predicate CopiesOk(s: State) {
    && AcksOk(s.copies, s.host.taken, Bound(s))
    && (s.view.None? && s.refresh.Answered? ==> AcksOk(s.copies, s.host.taken, s.refresh.snapshot))
  }

  predicate ViewOk(view: Option<Snapshot>, receipts: set<Snapshot>, now: Snapshot) {
    && (view.Some? ==> NotNewerThan(view.value, now))
    && (forall snapshot | snapshot in receipts :: NotNewerThan(snapshot, now))
    && (receipts != {} ==> view.Some?)
  }

  predicate StorageOk(storage: map<Key, Record>, copies: set<Record>) {
    forall key | key in storage :: storage[key] in copies && storage[key].key == key
  }

  predicate Seen(r: Record, current: Snapshot) {
    r.accepted.Some? ==> NotNewer(r.epoch, r.accepted.value, current)
  }

  predicate AllSeen(rest: seq<Record>, copies: set<Record>, current: Snapshot) {
    forall r | r in rest :: r in copies && Seen(r, current)
  }

  /** A record that may be collected: acknowledged by the same owner no later than `current`, which has it no more. */
  predicate Collectable(r: Record, current: Snapshot) {
    && r.Submits() && !r.restoreIntent
    && r.accepted.Some? && r.epoch == current.epoch && r.accepted.value <= current.revision
    && r.key !in current.items
  }

  predicate OfView(current: Snapshot, view: Option<Snapshot>) {
    view.Some? && current.epoch == view.value.epoch
  }

  /** What refresh holds was read from the storage, and what it is about to remove may go. */
  predicate RefreshOk(refresh: Refresh, copies: set<Record>, view: Option<Snapshot>, now: Snapshot) {
    match refresh
    case Answered(snapshot) => NotNewerThan(snapshot, now) && (view.Some? ==> view.value.epoch <= snapshot.epoch)
    case Listing => view.Some?
    case Listed(records) => view.Some? && forall r | r in records :: r in copies
    case Collecting(rest, current) => OfView(current, view) && AllSeen(rest, copies, current)
    case Flagging(record, rest, current) =>
      OfView(current, view) && record in copies && !record.restoreIntent && AllSeen(rest, copies, current)
    case Removing(record, rest, current) =>
      OfView(current, view) && record in copies && Collectable(record, current) && AllSeen(rest, copies, current)
    case Publishing(current) => OfView(current, view)
    case _ => true
  }

  predicate ReplyOk(r: Record, reply: Reply, host: Host) {
    reply.Receipt? ==>
      && reply.snapshot.epoch == r.epoch && NotNewerThan(reply.snapshot, host.now)
      && (r.Submits() ==> r.key in host.taken)
  }

  predicate MutationOk(mutation: Mutation, view: Option<Snapshot>, host: Host) {
    !mutation.NoMutation? ==>
      var r := mutation.record;
      && view.Some? && r.epoch <= view.value.epoch
      && AckOk(r, host.taken, view.value)
      && (mutation.Replied? || mutation.Queried? ==> ReplyOk(r, mutation.reply, host))
      && (mutation.Noting? && r.Submits() ==> r.accepted.Some?)
      && (mutation.Queried? || mutation.Querying? ==> r.Submits())
  }

  /** Only the record that is being transmitted is in flight. */
  predicate InFlightOk(inFlight: set<Key>, mutation: Mutation) {
    forall key | key in inFlight :: Transmitting(mutation) && mutation.record.key == key
  }

  /** Every message that was stored before it was sent is still stored, or the host has it, or has refused it, or the
      user has dismissed it. */
  predicate NothingLost(s: State) {
    forall key | key in s.sent ::
      key.Turn? && (key in s.storage || key in s.host.taken || key in s.refused || key in s.dismissed)
  }

  /** A call was made with what the page knew. */
  predicate CallOk(call: Call, view: Option<Snapshot>, copies: set<Record>) {
    match call
    case Retry(r) => r in copies
    case Submit(key, _, prepared) =>
      key.Turn? && (prepared.Some? ==> view.Some? && prepared.value <= view.value.epoch)
    case Other(key, epoch) => key.Operation? && view.Some? && epoch <= view.value.epoch
  }

  predicate CallsOk(page: Page, view: Option<Snapshot>, copies: set<Record>) {
    && (forall call | call in page.calls :: CallOk(call, view, copies))
    && (page.waits.Some? ==> CallOk(page.waits.value, view, copies))
  }

  /** A call that waits for a refresh is at the head of the chain, and there is one. */
  predicate WaitsOk(page: Page, refresh: Refresh, mutation: Mutation) {
    page.waits.Some? ==>
      && mutation.NoMutation? && !refresh.NoRefresh?
      && (page.waits.value.Retry? || (page.waits.value.Submit? && page.waits.value.prepared.None?))
  }

  predicate ListsOk(page: Page, copies: set<Record>) {
    && (forall r | r in page.pending :: r in copies)
    && (page.reading.Got? ==> forall r | r in page.reading.records :: r in copies)
  }

  /** What was read of the pending list is no older than a stored intent. */
  predicate ReadingOk(reading: Reading, storage: map<Key, Record>) {
    reading.Got? ==>
      forall r | r in reading.records && r.key in storage && storage[r.key].restoreIntent :: r.restoreIntent
  }

  predicate EpochsOk(copies: set<Record>, now: Snapshot) {
    forall r | r in copies :: r.epoch <= now.epoch
  }

  predicate PageOk(s: State) {
    && CallsOk(s.page, s.view, s.copies)
    && WaitsOk(s.page, s.refresh, s.mutation)
    && ListsOk(s.page, s.copies)
    && ReadingOk(s.page.reading, s.storage)
  }

  predicate Inv(s: State) {
    && ViewOk(s.view, s.receipts, s.host.now)
    && StorageOk(s.storage, s.copies)
    && CopiesOk(s)
    && RefreshOk(s.refresh, s.copies, s.view, s.host.now)
    && MutationOk(s.mutation, s.view, s.host)
    && InFlightOk(s.inFlight, s.mutation)
    && NothingLost(s)
    && EpochsOk(s.copies, s.host.now)
    && PageOk(s)
  }

  /** A page that has just been opened, on a storage that earlier pages left behind. */
  predicate Opened(s: State) {
    && s.view.None? && s.refresh.NoRefresh? && s.mutation.NoMutation? && s.inFlight == {} && s.receipts == {}
    && s.page == NEW_PAGE
    && StorageOk(s.storage, s.copies)
    && AcksOk(s.copies, s.host.taken, s.host.now)
    && EpochsOk(s.copies, s.host.now)
    && NothingLost(s)
  }

  lemma OpenedIsInv(s: State)
    requires Opened(s)
    ensures Inv(s)
  {
  }

  // Each part of the invariant is kept by each kind of step.

  lemma SeenMore(copies: set<Record>, more: set<Record>)
    requires copies <= more
    ensures forall rest, current | AllSeen(rest, copies, current) :: AllSeen(rest, more, current)
  {
  }

  lemma SeenInLoop(s: State, a: Action)
    requires Inv(s) && Enabled(s, a) && OfRefresh(a)
    ensures a.NextRecord? && s.refresh.rest != [] ==>
              var rest, current := s.refresh.rest, s.refresh.current;
              rest[0] in s.copies && Seen(rest[0], current) && AllSeen(rest[1..], s.copies, current)
    ensures a.TakeCurrent? ==> AllSeen(s.refresh.records, s.copies, s.view.value)
    ensures forall rest, current | AllSeen(rest, s.copies, current) :: AllSeen(rest, AfterRefresh(s, a).copies, current)
  {
    hide InFlightOk, NothingLost, StorageOk, MutationOk, CallsOk, ListsOk, ReadingOk, EpochsOk;
  }

  lemma RefreshKeepsView(s: State, a: Action)
    requires Enabled(s, a) && OfRefresh(a)
    requires ViewOk(s.view, s.receipts, s.host.now) && RefreshOk(s.refresh, s.copies, s.view, s.host.now)
    ensures var s' := AfterRefresh(s, a); ViewOk(s'.view, s'.receipts, s'.host.now)
  {
    hide AllSeen;
  }

  lemma RefreshKeepsStorage(s: State, a: Action)
    requires Enabled(s, a) && OfRefresh(a)
    requires StorageOk(s.storage, s.copies) && RefreshOk(s.refresh, s.copies, s.view, s.host.now)
    ensures var s' := AfterRefresh(s, a); StorageOk(s'.storage, s'.copies)
  {
    hide AllSeen;
  }

  lemma RefreshKeepsCopies(s: State, a: Action)
    requires Enabled(s, a) && OfRefresh(a)
    requires ViewOk(s.view, s.receipts, s.host.now) && CopiesOk(s)
    requires RefreshOk(s.refresh, s.copies, s.view, s.host.now)
    ensures var s' := AfterRefresh(s, a); CopiesOk(s')
  {
    hide AllSeen;
  }

  lemma RefreshKeepsRefresh(s: State, a: Action)
    requires Inv(s) && Enabled(s, a) && OfRefresh(a)
    ensures var s' := AfterRefresh(s, a); RefreshOk(s'.refresh, s'.copies, s'.view, s'.host.now)
  {
    hide CopiesOk, MutationOk, InFlightOk, NothingLost, EpochsOk, CallsOk, WaitsOk, ListsOk, ReadingOk, AllSeen;
    SeenInLoop(s, a);
  }

  lemma RefreshKeepsMutation(s: State, a: Action)
    requires Enabled(s, a) && OfRefresh(a)
    requires ViewOk(s.view, s.receipts, s.host.now) && RefreshOk(s.refresh, s.copies, s.view, s.host.now)
    requires MutationOk(s.mutation, s.view, s.host) && InFlightOk(s.inFlight, s.mutation)
    ensures var s' := AfterRefresh(s, a);
            && MutationOk(s'.mutation, s'.view, s'.host)
            && InFlightOk(s'.inFlight, s'.mutation)
  {
    hide AllSeen;
  }

  lemma RefreshKeepsMessages(s: State, a: Action)
    requires Enabled(s, a) && OfRefresh(a)
    requires StorageOk(s.storage, s.copies) && CopiesOk(s) && RefreshOk(s.refresh, s.copies, s.view, s.host.now)
    requires NothingLost(s)
    ensures var s' := AfterRefresh(s, a); NothingLost(s')
  {
    hide AllSeen;
  }

  lemma RefreshKeepsEpochs(s: State, a: Action)
    requires Enabled(s, a) && OfRefresh(a)
    requires RefreshOk(s.refresh, s.copies, s.view, s.host.now) && EpochsOk(s.copies, s.host.now)
    requires ListsOk(s.page, s.copies)
    ensures var s' := AfterRefresh(s, a); EpochsOk(s'.copies, s'.host.now)
  {
    hide AllSeen;
  }

  lemma RefreshKeepsCalls(s: State, a: Action)
    requires Enabled(s, a) && OfRefresh(a)
    requires ViewOk(s.view, s.receipts, s.host.now) && RefreshOk(s.refresh, s.copies, s.view, s.host.now)
    requires CallsOk(s.page, s.view, s.copies) && WaitsOk(s.page, s.refresh, s.mutation)
    ensures var s' := AfterRefresh(s, a);
            && CallsOk(s'.page, s'.view, s'.copies)
            && WaitsOk(s'.page, s'.refresh, s'.mutation)
  {
    hide AllSeen;
  }

  lemma RefreshKeepsLists(s: State, a: Action)
    requires Enabled(s, a) && OfRefresh(a)
    requires ListsOk(s.page, s.copies)
    ensures var s' := AfterRefresh(s, a); ListsOk(s'.page, s'.copies)
  {
    hide AllSeen;
  }

  lemma RefreshKeepsReading(s: State, a: Action)
    requires Enabled(s, a) && OfRefresh(a)
    requires StorageOk(s.storage, s.copies) && RefreshOk(s.refresh, s.copies, s.view, s.host.now)
    requires ReadingOk(s.page.reading, s.storage)
    ensures var s' := AfterRefresh(s, a); ReadingOk(s'.page.reading, s'.storage)
  {
    hide AllSeen;
  }

  lemma MutationKeepsView(s: State, a: Action)
    requires Enabled(s, a) && OfMutation(a)
    requires ViewOk(s.view, s.receipts, s.host.now) && MutationOk(s.mutation, s.view, s.host)
    ensures var s' := AfterMutation(s, a); ViewOk(s'.view, s'.receipts, s'.host.now)
  {
  }

  lemma MutationKeepsStorage(s: State, a: Action)
    requires Enabled(s, a) && OfMutation(a)
    requires StorageOk(s.storage, s.copies)
    ensures var s' := AfterMutation(s, a); StorageOk(s'.storage, s'.copies)
  {
  }

  lemma HandlingKeepsCopies(s: State, a: Action)
    requires Enabled(s, a) && OfMutation(a) && (a.HandleGet? || a.HandleReply?)
    requires ViewOk(s.view, s.receipts, s.host.now) && CopiesOk(s) && MutationOk(s.mutation, s.view, s.host)
    ensures var s' := AfterMutation(s, a); CopiesOk(s')
  {
  }

  lemma StoringKeepsCopies(s: State, a: Action)
    requires Enabled(s, a) && OfMutation(a) && !a.HandleGet? && !a.HandleReply?
    requires ViewOk(s.view, s.receipts, s.host.now) && CopiesOk(s) && MutationOk(s.mutation, s.view, s.host)
    ensures var s' := AfterMutation(s, a); CopiesOk(s')
  {
  }

  lemma MutationKeepsRefresh(s: State, a: Action)
    requires Enabled(s, a) && OfMutation(a)
    requires ViewOk(s.view, s.receipts, s.host.now) && RefreshOk(s.refresh, s.copies, s.view, s.host.now)
    requires MutationOk(s.mutation, s.view, s.host)
    ensures var s' := AfterMutation(s, a); RefreshOk(s'.refresh, s'.copies, s'.view, s'.host.now)
  {
    hide AllSeen;
    SeenMore(s.copies, AfterMutation(s, a).copies);
  }

  lemma HandlingKeepsMutation(s: State, a: Action)
    requires Enabled(s, a) && OfMutation(a) && (a.HandleGet? || a.HandleReply?)
    requires ViewOk(s.view, s.receipts, s.host.now) && MutationOk(s.mutation, s.view, s.host)
    ensures var s' := AfterMutation(s, a); MutationOk(s'.mutation, s'.view, s'.host)
  {
  }

  lemma StoringKeepsMutation(s: State, a: Action)
    requires Enabled(s, a) && OfMutation(a) && !a.HandleGet? && !a.HandleReply?
    requires ViewOk(s.view, s.receipts, s.host.now) && MutationOk(s.mutation, s.view, s.host)
    ensures var s' := AfterMutation(s, a); MutationOk(s'.mutation, s'.view, s'.host)
  {
  }

  lemma MutationKeepsInFlight(s: State, a: Action)
    requires Enabled(s, a) && OfMutation(a)
    requires InFlightOk(s.inFlight, s.mutation)
    ensures var s' := AfterMutation(s, a); InFlightOk(s'.inFlight, s'.mutation)
  {
  }

  lemma MutationKeepsMessages(s: State, a: Action)
    requires Enabled(s, a) && OfMutation(a)
    requires StorageOk(s.storage, s.copies) && CopiesOk(s) && MutationOk(s.mutation, s.view, s.host) && NothingLost(s)
    ensures var s' := AfterMutation(s, a); NothingLost(s')
  {
  }

  lemma MutationKeepsEpochs(s: State, a: Action)
    requires Enabled(s, a) && OfMutation(a)
    requires ViewOk(s.view, s.receipts, s.host.now) && MutationOk(s.mutation, s.view, s.host)
    requires EpochsOk(s.copies, s.host.now)
    ensures var s' := AfterMutation(s, a); EpochsOk(s'.copies, s'.host.now)
  {
  }

  lemma MutationKeepsCalls(s: State, a: Action)
    requires Enabled(s, a) && OfMutation(a)
    requires ViewOk(s.view, s.receipts, s.host.now) && MutationOk(s.mutation, s.view, s.host)
    requires CallsOk(s.page, s.view, s.copies)
    ensures var s' := AfterMutation(s, a); CallsOk(s'.page, s'.view, s'.copies)
  {
  }

  lemma MutationKeepsWaits(s: State, a: Action)
    requires Enabled(s, a) && OfMutation(a)
    requires WaitsOk(s.page, s.refresh, s.mutation)
    ensures var s' := AfterMutation(s, a); WaitsOk(s'.page, s'.refresh, s'.mutation)
  {
  }

  lemma MutationKeepsLists(s: State, a: Action)
    requires Enabled(s, a) && OfMutation(a)
    requires ListsOk(s.page, s.copies)
    ensures var s' := AfterMutation(s, a); ListsOk(s'.page, s'.copies)
  {
  }

  lemma MutationKeepsReading(s: State, a: Action)
    requires Enabled(s, a) && OfMutation(a)
    requires ReadingOk(s.page.reading, s.storage)
    ensures var s' := AfterMutation(s, a); ReadingOk(s'.page.reading, s'.storage)
  {
  }

  lemma ChainKeepsRest(s: State, a: Action)
    requires Enabled(s, a) && OfChain(a)
    requires ViewOk(s.view, s.receipts, s.host.now) && StorageOk(s.storage, s.copies)
    requires EpochsOk(s.copies, s.host.now) && ReadingOk(s.page.reading, s.storage)
    ensures var s' := AfterChain(s, a);
            && ViewOk(s'.view, s'.receipts, s'.host.now) && StorageOk(s'.storage, s'.copies)
            && EpochsOk(s'.copies, s'.host.now) && ReadingOk(s'.page.reading, s'.storage)
  {
    hide AllSeen, Proceed, RetryRecord, FirstMatch, PendingOf, BeginCall, EndRefresh;
  }

  lemma ChainKeepsCopies(s: State, a: Action)
    requires Enabled(s, a) && OfChain(a)
    requires CopiesOk(s) && WaitsOk(s.page, s.refresh, s.mutation)
    ensures var s' := AfterChain(s, a); CopiesOk(s')
  {
    hide AllSeen, Proceed, RetryRecord, FirstMatch, PendingOf, EndRefresh;
  }

  lemma ChainKeepsRefresh(s: State, a: Action)
    requires Enabled(s, a) && OfChain(a)
    requires RefreshOk(s.refresh, s.copies, s.view, s.host.now)
    ensures var s' := AfterChain(s, a); RefreshOk(s'.refresh, s'.copies, s'.view, s'.host.now)
  {
    hide AllSeen, Proceed, RetryRecord, FirstMatch, PendingOf, EndRefresh;
  }

  /** What a call takes up is a record the page may send. */
  lemma TakenIsOk(s: State, page: Page, call: Call, r: Record)
    requires CopiesOk(s) && ListsOk(page, s.copies) && CallOk(call, s.view, s.copies)
    requires s.view.Some? && r.epoch <= s.view.value.epoch && Takes(page, call, r)
    ensures MutationOk(Storing(r), s.view, s.host) && (r.Submits() ==> MutationOk(Querying(r), s.view, s.host))
  {
    hide RefreshOk;
  }

  lemma BeginKeepsMutation(s: State, previous: Option<Record>)
    requires Inv(s) && Enabled(s, Begin(previous))
    ensures MutationOk(BeginCall(s, previous).mutation, s.view, s.host)
  {
    hide CopiesOk, InFlightOk, NothingLost, EpochsOk, RefreshOk, Proceed, RetryRecord, MutationOk, ReadingOk;
    var call, s' := s.page.calls[0], BeginCall(s, previous);
    assert CallOk(call, s.view, s.copies);
    if s'.mutation != s.mutation {
      var r := s'.mutation.record;
      if call.Other? && previous.Some? {
        TakenIsOk(s, s.page, Retry(r), r);
      } else {
        TakenIsOk(s, s.page, call, r);
      }
    }
  }

  lemma DoneKeepsMutation(s: State)
    requires Inv(s) && Enabled(s, RefreshDone)
    ensures MutationOk(EndRefresh(s).mutation, s.view, s.host)
  {
    hide CopiesOk, InFlightOk, NothingLost, EpochsOk, Proceed, RetryRecord, MutationOk, ReadingOk, Takes;
    var s' := EndRefresh(s);
    if s'.mutation != s.mutation {
      TakenIsOk(s, s'.page, s.page.waits.value, s'.mutation.record);
    }
  }

  lemma ChainKeepsMutation(s: State, a: Action)
    requires Inv(s) && Enabled(s, a) && OfChain(a)
    ensures var s' := AfterChain(s, a); MutationOk(s'.mutation, s'.view, s'.host)
  {
    hide Inv, MutationOk, BeginCall, EndRefresh;
    if a.Begin? {
      BeginKeepsMutation(s, a.previous);
    } else {
      DoneKeepsMutation(s);
    }
  }

  lemma ChainKeepsInFlight(s: State, a: Action)
    requires Enabled(s, a) && OfChain(a)
    requires InFlightOk(s.inFlight, s.mutation) && WaitsOk(s.page, s.refresh, s.mutation)
    ensures var s' := AfterChain(s, a); InFlightOk(s'.inFlight, s'.mutation)
  {
    hide AllSeen, Proceed, RetryRecord, FirstMatch, PendingOf;
  }

  lemma ChainKeepsMessages(s: State, a: Action)
    requires Enabled(s, a) && OfChain(a)
    requires NothingLost(s)
    ensures var s' := AfterChain(s, a); NothingLost(s')
  {
    hide AllSeen, Proceed, RetryRecord, FirstMatch, PendingOf, BeginCall, EndRefresh;
  }

  lemma ChainKeepsCalls(s: State, a: Action)
    requires Enabled(s, a) && OfChain(a)
    requires CallsOk(s.page, s.view, s.copies)
    ensures var s' := AfterChain(s, a); CallsOk(s'.page, s'.view, s'.copies)
  {
    hide AllSeen, Proceed, RetryRecord, FirstMatch, PendingOf, BeginCall, EndRefresh;
  }

  lemma ChainKeepsWaits(s: State, a: Action)
    requires Enabled(s, a) && OfChain(a)
    requires WaitsOk(s.page, s.refresh, s.mutation)
    ensures var s' := AfterChain(s, a); WaitsOk(s'.page, s'.refresh, s'.mutation)
  {
    hide AllSeen, Proceed, RetryRecord, FirstMatch, PendingOf;
  }

  lemma ChainKeepsLists(s: State, a: Action)
    requires Enabled(s, a) && OfChain(a)
    requires ListsOk(s.page, s.copies)
    ensures var s' := AfterChain(s, a); ListsOk(s'.page, s'.copies)
  {
    hide AllSeen, Proceed, RetryRecord, FirstMatch;
  }

  lemma PageKeepsRest(s: State, a: Action)
    requires Enabled(s, a) && OfPage(a)
    requires ViewOk(s.view, s.receipts, s.host.now) && MutationOk(s.mutation, s.view, s.host)
    requires InFlightOk(s.inFlight, s.mutation) && WaitsOk(s.page, s.refresh, s.mutation)
    ensures var s' := AfterPage(s, a);
            && ViewOk(s'.view, s'.receipts, s'.host.now) && MutationOk(s'.mutation, s'.view, s'.host)
            && InFlightOk(s'.inFlight, s'.mutation)
            && WaitsOk(s'.page, s'.refresh, s'.mutation)
  {
  }

  lemma PageKeepsStorage(s: State, a: Action)
    requires Enabled(s, a) && OfPage(a)
    requires StorageOk(s.storage, s.copies)
    ensures var s' := AfterPage(s, a); StorageOk(s'.storage, s'.copies)
  {
  }

  lemma PageKeepsCopies(s: State, a: Action)
    requires Enabled(s, a) && OfPage(a)
    requires CopiesOk(s)
    ensures var s' := AfterPage(s, a); CopiesOk(s')
  {
  }

  lemma PageKeepsRefresh(s: State, a: Action)
    requires Enabled(s, a) && OfPage(a)
    requires RefreshOk(s.refresh, s.copies, s.view, s.host.now)
    ensures var s' := AfterPage(s, a); RefreshOk(s'.refresh, s'.copies, s'.view, s'.host.now)
  {
    hide AllSeen;
    SeenMore(s.copies, AfterPage(s, a).copies);
  }

  lemma PageKeepsMessages(s: State, a: Action)
    requires Enabled(s, a) && OfPage(a)
    requires StorageOk(s.storage, s.copies) && NothingLost(s)
    ensures var s' := AfterPage(s, a); NothingLost(s')
  {
  }

  lemma PageKeepsEpochs(s: State, a: Action)
    requires Enabled(s, a) && OfPage(a)
    requires EpochsOk(s.copies, s.host.now)
    ensures var s' := AfterPage(s, a); EpochsOk(s'.copies, s'.host.now)
  {
  }

  lemma PageKeepsCalls(s: State, a: Action)
    requires Enabled(s, a) && OfPage(a)
    requires CallsOk(s.page, s.view, s.copies)
    ensures var s' := AfterPage(s, a); CallsOk(s'.page, s'.view, s'.copies)
  {
  }

  lemma PageKeepsLists(s: State, a: Action)
    requires Enabled(s, a) && OfPage(a)
    requires StorageOk(s.storage, s.copies) && ListsOk(s.page, s.copies)
    ensures var s' := AfterPage(s, a); ListsOk(s'.page, s'.copies)
  {
  }

  lemma PageKeepsReading(s: State, a: Action)
    requires Enabled(s, a) && OfPage(a)
    requires StorageOk(s.storage, s.copies) && ReadingOk(s.page.reading, s.storage)
    ensures var s' := AfterPage(s, a); ReadingOk(s'.page.reading, s'.storage)
  {
  }

  lemma HostKeepsView(s: State, a: Action)
    requires Enabled(s, a) && OfHost(a)
    requires ViewOk(s.view, s.receipts, s.host.now)
    ensures var s' := AfterHost(s, a); ViewOk(s'.view, s'.receipts, s'.host.now)
  {
  }

  lemma HostKeepsCopies(s: State, a: Action)
    requires Enabled(s, a) && OfHost(a)
    requires ViewOk(s.view, s.receipts, s.host.now) && CopiesOk(s)
    ensures var s' := AfterHost(s, a); CopiesOk(s')
  {
  }

  lemma HostKeepsRefresh(s: State, a: Action)
    requires Enabled(s, a) && OfHost(a)
    requires ViewOk(s.view, s.receipts, s.host.now) && CopiesOk(s)
    requires RefreshOk(s.refresh, s.copies, s.view, s.host.now) && MutationOk(s.mutation, s.view, s.host)
    ensures var s' := AfterHost(s, a);
            && RefreshOk(s'.refresh, s'.copies, s'.view, s'.host.now)
            && MutationOk(s'.mutation, s'.view, s'.host)
  {
    hide AllSeen;
  }

  lemma HostKeepsCalls(s: State, a: Action)
    requires Enabled(s, a) && OfHost(a)
    requires ViewOk(s.view, s.receipts, s.host.now) && CallsOk(s.page, s.view, s.copies)
    ensures var s' := AfterHost(s, a); CallsOk(s'.page, s'.view, s'.copies)
  {
  }

  lemma HostKeepsRest(s: State, a: Action)
    requires Enabled(s, a) && OfHost(a)
    requires StorageOk(s.storage, s.copies) && InFlightOk(s.inFlight, s.mutation) && NothingLost(s)
    requires EpochsOk(s.copies, s.host.now) && WaitsOk(s.page, s.refresh, s.mutation) && ListsOk(s.page, s.copies)
    requires ReadingOk(s.page.reading, s.storage)
    ensures var s' := AfterHost(s, a);
            && StorageOk(s'.storage, s'.copies) && InFlightOk(s'.inFlight, s'.mutation) && NothingLost(s')
            && EpochsOk(s'.copies, s'.host.now) && WaitsOk(s'.page, s'.refresh, s'.mutation)
            && ListsOk(s'.page, s'.copies)
            && ReadingOk(s'.page.reading, s'.storage)
  {
  }

  lemma Assembled(s: State)
    requires ViewOk(s.view, s.receipts, s.host.now) && StorageOk(s.storage, s.copies) && CopiesOk(s)
    requires RefreshOk(s.refresh, s.copies, s.view, s.host.now) && MutationOk(s.mutation, s.view, s.host)
    requires InFlightOk(s.inFlight, s.mutation) && NothingLost(s) && EpochsOk(s.copies, s.host.now)
    requires CallsOk(s.page, s.view, s.copies) && WaitsOk(s.page, s.refresh, s.mutation)
    requires ListsOk(s.page, s.copies) && ReadingOk(s.page.reading, s.storage)
    ensures Inv(s)
  {
  }

  lemma RefreshKeepsInv(s: State, a: Action)
    requires Inv(s) && Enabled(s, a) && OfRefresh(a)
    ensures Inv(AfterRefresh(s, a))
  {
    hide Enabled, AfterRefresh, ViewOk, StorageOk, CopiesOk, RefreshOk, MutationOk, InFlightOk, NothingLost;
    hide EpochsOk, CallsOk, WaitsOk, ListsOk, ReadingOk;
    RefreshKeepsView(s, a);
    RefreshKeepsStorage(s, a);
    RefreshKeepsCopies(s, a);
    RefreshKeepsRefresh(s, a);
    RefreshKeepsMutation(s, a);
    RefreshKeepsMessages(s, a);
    RefreshKeepsEpochs(s, a);
    RefreshKeepsCalls(s, a);
    RefreshKeepsLists(s, a);
    RefreshKeepsReading(s, a);
    Assembled(AfterRefresh(s, a));
  }

  lemma MutationKeepsInv(s: State, a: Action)
    requires Inv(s) && Enabled(s, a) && OfMutation(a)
    ensures Inv(AfterMutation(s, a))
  {
    hide Enabled, AfterMutation, ViewOk, StorageOk, CopiesOk, RefreshOk, MutationOk, InFlightOk, NothingLost;
    hide EpochsOk, CallsOk, WaitsOk, ListsOk, ReadingOk;
    MutationKeepsView(s, a);
    MutationKeepsStorage(s, a);
    if a.HandleGet? || a.HandleReply? {
      HandlingKeepsCopies(s, a);
      HandlingKeepsMutation(s, a);
    } else {
      StoringKeepsCopies(s, a);
      StoringKeepsMutation(s, a);
    }
    MutationKeepsRefresh(s, a);
    MutationKeepsInFlight(s, a);
    MutationKeepsMessages(s, a);
    MutationKeepsEpochs(s, a);
    MutationKeepsCalls(s, a);
    MutationKeepsWaits(s, a);
    MutationKeepsLists(s, a);
    MutationKeepsReading(s, a);
    Assembled(AfterMutation(s, a));
  }

  lemma ChainKeepsInv(s: State, a: Action)
    requires Inv(s) && Enabled(s, a) && OfChain(a)
    ensures Inv(AfterChain(s, a))
  {
    hide Enabled, AfterChain, ViewOk, StorageOk, CopiesOk, RefreshOk, MutationOk, InFlightOk, NothingLost;
    hide EpochsOk, CallsOk, WaitsOk, ListsOk, ReadingOk;
    ChainKeepsRest(s, a);
    ChainKeepsCopies(s, a);
    ChainKeepsRefresh(s, a);
    ChainKeepsMutation(s, a);
    ChainKeepsInFlight(s, a);
    ChainKeepsMessages(s, a);
    ChainKeepsCalls(s, a);
    ChainKeepsWaits(s, a);
    ChainKeepsLists(s, a);
    Assembled(AfterChain(s, a));
  }

  lemma PageKeepsInv(s: State, a: Action)
    requires Inv(s) && Enabled(s, a) && OfPage(a)
    ensures Inv(AfterPage(s, a))
  {
    hide Enabled, AfterPage, ViewOk, StorageOk, CopiesOk, RefreshOk, MutationOk, InFlightOk, NothingLost;
    hide EpochsOk, CallsOk, WaitsOk, ListsOk, ReadingOk;
    PageKeepsRest(s, a);
    PageKeepsStorage(s, a);
    PageKeepsCopies(s, a);
    PageKeepsRefresh(s, a);
    PageKeepsMessages(s, a);
    PageKeepsEpochs(s, a);
    PageKeepsCalls(s, a);
    PageKeepsLists(s, a);
    PageKeepsReading(s, a);
    Assembled(AfterPage(s, a));
  }

  lemma HostKeepsInv(s: State, a: Action)
    requires Inv(s) && Enabled(s, a) && OfHost(a)
    ensures Inv(AfterHost(s, a))
  {
    hide Enabled, AfterHost, ViewOk, StorageOk, CopiesOk, RefreshOk, MutationOk, InFlightOk, NothingLost;
    hide EpochsOk, CallsOk, WaitsOk, ListsOk, ReadingOk;
    HostKeepsView(s, a);
    HostKeepsCopies(s, a);
    HostKeepsRefresh(s, a);
    HostKeepsCalls(s, a);
    HostKeepsRest(s, a);
    Assembled(AfterHost(s, a));
  }

  lemma InvNext(s: State, a: Action)
    requires Inv(s) && Enabled(s, a)
    ensures Inv(Next(s, a))
  {
    hide Inv, AfterRefresh, AfterMutation, AfterChain, AfterPage, AfterHost, Enabled;
    if OfRefresh(a) {
      RefreshKeepsInv(s, a);
    } else if OfMutation(a) {
      MutationKeepsInv(s, a);
    } else if OfChain(a) {
      ChainKeepsInv(s, a);
    } else if OfPage(a) {
      PageKeepsInv(s, a);
    } else {
      HostKeepsInv(s, a);
    }
  }

  // ----- runs -----

  lemma {:induction false} RunKeepsInv(s: State, actions: seq<Action>)
    requires Inv(s) && CanRun(s, actions)
    ensures Inv(Run(s, actions))
    decreases |actions|
  {
    if actions != [] {
      InvNext(s, actions[0]);
      RunKeepsInv(Next(s, actions[0]), actions[1..]);
    }
  }

  /** However the calls interleave, and wherever pages are closed and opened again, a message that was stored before
      it was sent stays stored until the host has taken it over, has refused it, or the user has dismissed it. */
  lemma NeverLost(s: State, actions: seq<Action>, key: Key)
    requires Opened(s) && CanRun(s, actions)
    requires key in Run(s, actions).sent
    ensures var e := Run(s, actions);
            key in e.storage || key in e.host.taken || key in e.refused || key in e.dismissed
  {
    hide Opened;
    OpenedIsInv(s);
    RunKeepsInv(s, actions);
  }

  /** A submission's record leaves the storage in one of three steps only. */
  lemma LeavesOnly(s: State, a: Action, key: Key)
    requires Inv(s) && Enabled(s, a)
    requires key in s.storage && s.storage[key].Submits() && key !in Next(s, a).storage
    ensures || (a.RemoveDone? && s.refresh.record.key == key && Collectable(s.refresh.record, s.refresh.current)
                && key in s.host.taken)
            || (a.WithdrawDone? && s.mutation.record.key == key)
            || (a.DismissDone? && a.key == key)
  {
    hide Inv, Enabled, AfterRefresh, AfterMutation, BeginCall, EndRefresh, AfterPage, Collectable;
    if OfRefresh(a) {
      RefreshRemoves(s, a, key);
    } else if OfMutation(a) {
      MutationRemoves(s, a, key);
    } else if OfPage(a) {
      PageRemoves(s, a, key);
    }
  }

  lemma RefreshRemoves(s: State, a: Action, key: Key)
    requires Inv(s) && Enabled(s, a) && OfRefresh(a) && key in s.storage && key !in AfterRefresh(s, a).storage
    ensures a.RemoveDone? && s.refresh.record.key == key && Collectable(s.refresh.record, s.refresh.current)
    ensures key in s.host.taken
  {
    hide MutationOk, InFlightOk, NothingLost, EpochsOk, CallsOk, ListsOk, ReadingOk;
  }

  lemma MutationRemoves(s: State, a: Action, key: Key)
    requires Inv(s) && Enabled(s, a) && OfMutation(a)
    requires key in s.storage && s.storage[key].Submits() && key !in AfterMutation(s, a).storage
    ensures a.WithdrawDone? && s.mutation.record.key == key
  {
    hide ViewOk, CopiesOk, RefreshOk, InFlightOk, NothingLost, EpochsOk, CallsOk, ListsOk, ReadingOk, WaitsOk;
  }

  lemma PageRemoves(s: State, a: Action, key: Key)
    requires Enabled(s, a) && OfPage(a) && key in s.storage && key !in AfterPage(s, a).storage
    ensures a.DismissDone? && a.key == key
  {
  }

  /** What the refresh compares records with is no older than the acknowledgement of any record it has read. */
  lemma CurrentIsFresh(s: State, r: Record)
    requires Inv(s) && s.refresh.Collecting? && r in s.refresh.rest && r.accepted.Some?
    ensures r.key in s.host.taken
    ensures r.epoch == s.refresh.current.epoch ==> r.accepted.value <= s.refresh.current.revision
  {
  }

  /** Within a page, the published snapshot never goes back: not to an earlier epoch, nor to a lower revision. */
  lemma ViewGrows(s: State, a: Action)
    requires Inv(s) && Enabled(s, a) && s.view.Some? && !a.Reopen?
    ensures Next(s, a).view.Some? && NotNewerThan(s.view.value, Next(s, a).view.value)
  {
    hide CopiesOk, StorageOk, InFlightOk, NothingLost, EpochsOk, CallsOk, ListsOk, ReadingOk, Proceed;
    hide AfterMutation, BeginCall, EndRefresh, AfterPage;
    if OfMutation(a) {
      MutationGrowsView(s, a);
    }
  }

  lemma MutationGrowsView(s: State, a: Action)
    requires Inv(s) && Enabled(s, a) && OfMutation(a) && s.view.Some?
    ensures AfterMutation(s, a).view.Some? && NotNewerThan(s.view.value, AfterMutation(s, a).view.value)
  {
    hide CopiesOk, StorageOk, InFlightOk, NothingLost, EpochsOk, CallsOk, ListsOk, ReadingOk, RefreshOk;
  }

  lemma {:induction false} ViewNeverDecreases(s: State, actions: seq<Action>)
    requires Inv(s) && CanRun(s, actions) && s.view.Some? && Reopen !in actions
    ensures Run(s, actions).view.Some? && NotNewerThan(s.view.value, Run(s, actions).view.value)
    decreases |actions|
  {
    hide Inv, Next, Enabled;
    if actions != [] {
      assert actions[0] in actions;
      ViewGrows(s, actions[0]);
      InvNext(s, actions[0]);
      ViewNeverDecreases(Next(s, actions[0]), actions[1..]);
    }
  }
}
