// The outbox of a host dialog queue (HostDialogQueue.ts) as a state machine: one action is one piece of code between
// two waits, one effect in the storage, or something that happens at the host. Calls that may overlap do.
module Outbox {
  import opened Common

  /** What a request is about and is stored under: the turn of a submitted message, or the operation of another
      request. Both kinds of ids are random, so that no id is of both kinds. */
  datatype Key = Turn(id: string) | Operation(id: string)

  /** A stored request. `accepted` is the revision at which the host acknowledged it; the code keeps only whether
      there was one. Epochs are numbered in the order the host used them; the code only compares them for equality.
      `body` is what `messageIdentity` makes of the message. */
  datatype Record = Record(key: Key, epoch: nat, accepted: Option<nat>, restoreIntent: bool, body: string)
  {
    predicate Submits() {
      key.Turn?
    }
  }

  /** The queue as the host reports it: what is queued, and its epoch and revision. */
  datatype Snapshot = Snapshot(epoch: nat, revision: nat, items: set<Key>)

  /** The host, with every message it ever took over. */
  datatype Host = Host(now: Snapshot, taken: set<Key>)

  /** `refresh`: asked the host, has its answer, reads the storage, has read it, goes through what it read, and reads
      the pending list again. */
  datatype Refresh =
    | NoRefresh
    | Asked
    | Answered(snapshot: Snapshot)
    | Listing
    | Listed(records: seq<Record>)
    | Collecting(rest: seq<Record>, current: Snapshot)
    | Flagging(record: Record, rest: seq<Record>, current: Snapshot)
    | Removing(record: Record, rest: seq<Record>, current: Snapshot)
    | Publishing(current: Snapshot)

  datatype Reply = Receipt(snapshot: Snapshot) | Refusal | Failure

  /** The mutation at the head of the serialized chain: `retryRecord` asking for a receipt and marking it, then
      `transmit` storing, sending, having an answer, noting or withdrawing, and its end. */
  datatype Mutation =
    | NoMutation
    | Querying(record: Record)
    | Queried(record: Record, reply: Reply)
    | Marking(record: Record)
    | Storing(record: Record)
    | Sending(record: Record)
    | Replied(record: Record, reply: Reply)
    | Noting(record: Record)
    | Withdrawing(record: Record)

  /** A call of `retry`, of `submit` (with the epoch of the snapshot the caller prepared, if any), or of `act` or
      `reorder`. What it was called with is what it works with, however long it has to wait. */
  datatype Call =
    | Retry(record: Record)
    | Submit(key: Key, body: string, prepared: Option<nat>)
    | Other(key: Key, epoch: nat)

  /** The latest `publishPending`, with which a refresh ends or not: reading, or with what it read. Earlier ones
      publish nothing. */
  datatype Reading = NotReading | Issued(ofRefresh: bool) | Got(records: seq<Record>, ofRefresh: bool)

  /** What else the page holds: the calls waiting for their turn in the chain of mutations, the one at its head that
      waits for a refresh, the published pending list, its latest reading, and the records being dismissed. */
  datatype Page = Page(calls: seq<Call>, waits: Option<Call>, pending: seq<Record>, reading: Reading,
                       dismissing: set<Key>)

  const NEW_PAGE := Page([], None, [], NotReading, {})

  /** `copies` are all record values that were ever stored: callers may hold on to any of them. `sent` are the
      messages whose record was stored before sending; `receipts` are answers to `receipt` on their way; `refused`
      and `dismissed` are what became of some. */
  datatype State = State(storage: map<Key, Record>, view: Option<Snapshot>, inFlight: set<Key>,
                         refresh: Refresh, mutation: Mutation, page: Page, host: Host,
                         receipts: set<Snapshot>, copies: set<Record>, sent: set<Key>, refused: set<Key>,
                         dismissed: set<Key>)

  datatype Action =
    | HostMoves(next: Snapshot, took: set<Key>)
    | Reopen
    | StartRefresh | AnswerList | AcceptList | RefreshFails
    | ReadStorage(records: seq<Record>) | TakeCurrent | NextRecord | FlagDone | RemoveDone | RefreshDone
    | CallRetry(record: Record) | CallSubmit(key: Key, body: string, prepared: Option<nat>)
    | CallOther(key: Key, epoch: nat)
    | Begin(previous: Option<Record>) | DropCall
    | AnswerGet(receipt: bool) | HandleGet | MarkDone
    | StoreDone | AnswerSend(reply: bool, refused: bool) | HandleReply | NoteDone | WithdrawDone | MutationFails
    | AnswerReceipt | HandleReceipt(snapshot: Snapshot)
    | ReadPending(records: seq<Record>) | PublishPending | ReadingFails
    | PrepareRestore(record: Record) | Dismiss(record: Record) | DismissDone(key: Key) | DismissFails(key: Key)

  // ----- order -----

  /** No older, as far as a client can tell: an earlier epoch, or the same one at no higher revision. */
  predicate NotNewer(epoch: nat, revision: nat, s: Snapshot) {
    epoch < s.epoch || (epoch == s.epoch && revision <= s.revision)
  }

  // ----- the code -----

  /** `accept`. */
  function Accept(view: Option<Snapshot>, s: Snapshot, authoritative: bool): Option<Snapshot> {
    if view.Some? && s.epoch != view.value.epoch && !authoritative then view
    else if view.Some? && s.epoch == view.value.epoch && s.revision < view.value.revision then view
    else Some(s)
  }

  function Put(s: State, r: Record): State {
    s.(storage := s.storage[r.key := r], copies := s.copies + {r})
  }

  function Remove(s: State, key: Key): State {
    s.(storage := s.storage - {key})
  }

  // The pending list.

  /** `publishPending` begins; what an earlier one reads will not be published. */
  function StartReading(s: State): State {
    s.(page := s.page.(reading := Issued(false)))
  }

  /** A refresh waits for the latest reading. */
  predicate OfRefreshing(reading: Reading) {
    !reading.NotReading? && reading.ofRefresh
  }

  predicate IsPending(r: Record, inFlight: set<Key>) {
    r.key !in inFlight && (r.accepted.None? || r.restoreIntent)
  }

  function PendingOf(records: seq<Record>, inFlight: set<Key>): (pending: seq<Record>)
    ensures forall r :: r in pending <==> r in records && IsPending(r, inFlight)
  {
    if records == [] then []
    else (if IsPending(records[0], inFlight) then [records[0]] else []) + PendingOf(records[1..], inFlight)
  }

  function Publish(s: State): State
    requires s.page.reading.Got?
  {
    s.(page := s.page.(pending := PendingOf(s.page.reading.records, s.inFlight), reading := NotReading))
  }

  predicate Matches(r: Record, body: string) {
    !r.restoreIntent && r.Submits() && r.body == body
  }

  /** The pending record a submission takes for itself: the first one of an equal message. */
  function FirstMatch(pending: seq<Record>, body: string): (r: Option<Record>)
    ensures r.Some? ==> r.value in pending && Matches(r.value, body)
    ensures r.None? ==> forall p | p in pending :: !Matches(p, body)
  {
    if pending == [] then None
    else if Matches(pending[0], body) then Some(pending[0])
    else FirstMatch(pending[1..], body)
  }

  // Mutations.

  /** `transmit` has begun: the record is in flight and its storage is under way. */
  function Transmit(s: State, r: Record): State {
    s.(mutation := Storing(r), inFlight := s.inFlight + {r.key})
  }

  function EndTransmit(s: State, key: Key): State {
    StartReading(s.(mutation := NoMutation, inFlight := s.inFlight - {key}))
  }

  /** The step starts a mutation, or none. */
  predicate Starts(s: State, s': State) {
    && s' == s.(mutation := s'.mutation, inFlight := s'.inFlight)
    && (|| (s'.mutation == s.mutation && s'.inFlight == s.inFlight)
        || (s'.mutation.Querying? && s'.mutation.record.Submits() && s'.inFlight == s.inFlight)
        || (s'.mutation.Storing? && s'.inFlight == s.inFlight + {s'.mutation.record.key}))
  }

  /** A call can take this record: its own, a pending one, or a new one. */
  predicate Takes(page: Page, call: Call, r: Record) {
    || (call.Retry? && r == call.record)
    || r in page.pending
    || (!call.Retry? && r.key == call.key && r.accepted.None?)
  }

  /** `retryRecord` */
  function RetryRecord(s: State, r: Record, epoch: nat): (s': State)
    ensures Starts(s, s') && (s'.mutation == s.mutation || (s'.mutation.record == r && r.epoch == epoch))
  {
    if r.epoch != epoch then s
    else if r.Submits() then s.(mutation := Querying(r))
    else Transmit(s, r)
  }

  /** The rest of `retry` or `submit`, once there is a snapshot. */
  function Proceed(s: State, call: Call, epoch: nat): (s': State)
    ensures Starts(s, s')
    ensures s'.mutation == s.mutation || (Takes(s.page, call, s'.mutation.record) && s'.mutation.record.epoch == epoch)
  {
    match call
    case Retry(r) => RetryRecord(s, r, epoch)
    case Submit(key, body, _) =>
      (match FirstMatch(s.page.pending, body)
       case Some(previous) => RetryRecord(s, previous, epoch)
       case None => Transmit(s, Record(key, epoch, None, false, body)))
    case Other(key, _) => Transmit(s, Record(key, epoch, None, false, ""))
  }

  /** The next call of the chain begins. `act` may find a `previous` request of its own among the pending ones. */
  function BeginCall(s: State, previous: Option<Record>): (s': State)
    requires s.page.calls != []
    ensures s' == s.(mutation := s'.mutation, inFlight := s'.inFlight, refresh := s'.refresh, page := s'.page)
    ensures s'.page == s.page.(calls := s.page.calls[1..], waits := s'.page.waits)
    ensures s'.page.waits in {s.page.waits, Some(s.page.calls[0])}
  {
    var s' := s.(page := s.page.(calls := s.page.calls[1..]));
    match s.page.calls[0]
    case Other(key, epoch) =>
      if previous.Some? then RetryRecord(s', previous.value, epoch) else Proceed(s', s.page.calls[0], epoch)
    case Submit(_, _, Some(epoch)) =>
      if s.view.Some? && s.view.value.epoch == epoch then Proceed(s', s.page.calls[0], epoch) else s'
    case call =>
      s'.(page := s'.page.(waits := Some(call)), refresh := if s.refresh.NoRefresh? then Asked else s.refresh)
  }

  /** The end of a refresh; a call that waits for it goes on. */
  function EndRefresh(s: State): (s': State)
    requires s.refresh.Publishing? && (OfRefreshing(s.page.reading) ==> s.page.reading.Got?)
    ensures s' == s.(mutation := s'.mutation, inFlight := s'.inFlight, refresh := NoRefresh, page := s'.page)
    ensures s'.page == s.page.(waits := None, pending := s'.page.pending, reading := s'.page.reading)
    ensures s'.page.reading in {s.page.reading, NotReading}
  {
    var published := if OfRefreshing(s.page.reading) then Publish(s) else s;
    var s' := published.(refresh := NoRefresh, page := published.page.(waits := None));
    if s.page.waits.Some? then Proceed(s', s.page.waits.value, s.refresh.current.epoch) else s'
  }

  function FailRefresh(s: State): State {
    var reading := if OfRefreshing(s.page.reading) then NotReading else s.page.reading;
    s.(refresh := NoRefresh, page := s.page.(waits := None, reading := reading))
  }

  function Acknowledged(r: Record, s: Snapshot): Record {
    if r.Submits() then r.(accepted := Some(s.revision)) else r
  }

  /** One iteration of the collection loop. */
  function Collect(s: State, rest: seq<Record>, current: Snapshot): State
    requires rest != []
  {
    var r := rest[0];
    if r.key in s.inFlight || r.accepted.None? || r.restoreIntent || !r.Submits() then
      s.(refresh := Collecting(rest[1..], current))
    else if r.epoch != current.epoch then s.(refresh := Flagging(r, rest[1..], current))
    else if r.key !in current.items then s.(refresh := Removing(r, rest[1..], current))
    else s.(refresh := Collecting(rest[1..], current))
  }

  /** What the host makes of a request that reaches it. Requests of another epoch fail. */
  function Deliver(host: Host, r: Record, refused: bool): Host {
    if r.epoch != host.now.epoch || refused then host
    else if !r.Submits() then host.(now := host.now.(revision := host.now.revision + 1))
    else Host(host.now.(revision := host.now.revision + 1, items := host.now.items + {r.key}), host.taken + {r.key})
  }

  function ReplyTo(host: Host, r: Record, reply: bool, refused: bool): Reply {
    if !reply || r.epoch != host.now.epoch then Failure
    else if refused then Refusal
    else Receipt(Deliver(host, r, refused).now)
  }

  predicate Transmitting(mutation: Mutation) {
    mutation.Storing? || mutation.Sending? || mutation.Replied? || mutation.Noting? || mutation.Withdrawing?
  }

  /** When an action can happen. */
  predicate Enabled(s: State, a: Action) {
    match a
    case HostMoves(next, _) => NotNewer(s.host.now.epoch, s.host.now.revision, next)
    case Reopen => true
    case StartRefresh => s.refresh.NoRefresh?
    case AnswerList => s.refresh.Asked?
    case AcceptList => s.refresh.Answered?
    case ReadStorage(records) =>
      && s.refresh.Listing?
      && (forall r | r in records :: Lookup(s.storage, r.key) == Some(r))
      && (forall key | key in s.storage :: s.storage[key] in records)
    case TakeCurrent => s.refresh.Listed? && s.view.Some?
    case NextRecord => s.refresh.Collecting?
    case FlagDone => s.refresh.Flagging?
    case RemoveDone => s.refresh.Removing?
    case RefreshDone => s.refresh.Publishing? && (OfRefreshing(s.page.reading) ==> s.page.reading.Got?)
    case RefreshFails => !s.refresh.NoRefresh?
    case CallRetry(r) => r in s.copies
    case CallSubmit(key, _, prepared) =>
      key.Turn? && (prepared.Some? ==> s.view.Some? && prepared.value <= s.view.value.epoch)
    case CallOther(key, epoch) => key.Operation? && s.view.Some? && epoch <= s.view.value.epoch
    case Begin(previous) =>
      && s.mutation.NoMutation? && s.page.waits.None? && s.page.calls != []
      && (previous.Some? ==> s.page.calls[0].Other? && previous.value in s.page.pending && !previous.value.Submits())
    case DropCall => s.mutation.NoMutation? && s.page.waits.None? && s.page.calls != [] && s.page.calls[0].Other?
    case AnswerGet(receipt) => s.mutation.Querying? && (receipt ==> s.mutation.record.key in s.host.taken)
    case HandleGet => s.mutation.Queried?
    case MarkDone => s.mutation.Marking?
    case StoreDone => s.mutation.Storing?
    case AnswerSend(_, _) => s.mutation.Sending?
    case HandleReply => s.mutation.Replied?
    case NoteDone => s.mutation.Noting?
    case WithdrawDone => s.mutation.Withdrawing?
    case MutationFails => !s.mutation.NoMutation?
    case AnswerReceipt => s.view.Some?
    case HandleReceipt(snapshot) => snapshot in s.receipts
    case ReadPending(records) =>
      && s.page.reading.Issued?
      && (forall r | r in records :: Lookup(s.storage, r.key) == Some(r))
      && (forall key | key in s.storage :: s.storage[key] in records)
    case PublishPending => s.page.reading.Got? && !s.page.reading.ofRefresh
    case ReadingFails => !OfRefreshing(s.page.reading)
    case PrepareRestore(r) => r in s.copies
    case Dismiss(r) => r in s.copies
    case DismissDone(key) => key in s.page.dismissing
    case DismissFails(key) => key in s.page.dismissing
  }

  predicate OfRefresh(a: Action) {
    || a.StartRefresh? || a.AnswerList? || a.AcceptList? || a.ReadStorage? || a.TakeCurrent? || a.NextRecord?
    || a.FlagDone? || a.RemoveDone? || a.RefreshFails?
  }

  predicate OfMutation(a: Action) {
    || a.AnswerGet? || a.HandleGet? || a.MarkDone? || a.StoreDone? || a.AnswerSend? || a.HandleReply?
    || a.NoteDone? || a.WithdrawDone? || a.MutationFails?
  }

  predicate OfChain(a: Action) {
    a.Begin? || a.RefreshDone?
  }

  predicate OfPage(a: Action) {
    || a.CallRetry? || a.CallSubmit? || a.CallOther? || a.DropCall? || a.ReadPending? || a.PublishPending?
    || a.ReadingFails? || a.PrepareRestore? || a.Dismiss? || a.DismissDone? || a.DismissFails?
  }

  predicate OfHost(a: Action) {
    a.HostMoves? || a.Reopen? || a.AnswerReceipt? || a.HandleReceipt?
  }

  /** The steps of `refresh`. */
  function AfterRefresh(s: State, a: Action): (s': State)
    requires Enabled(s, a) && OfRefresh(a)
    ensures s' == s.(storage := s'.storage, view := s'.view, refresh := s'.refresh, page := s'.page,
                     copies := s'.copies)
    ensures s'.page == s.page.(waits := s'.page.waits, reading := s'.page.reading)
    ensures s'.page.waits in {s.page.waits, None}
  {
    match a
    case StartRefresh => s.(refresh := Asked)
    case AnswerList => s.(refresh := Answered(s.host.now))
    case AcceptList => s.(view := Accept(s.view, s.refresh.snapshot, true), refresh := Listing)
    case ReadStorage(records) => s.(refresh := Listed(records))
    case TakeCurrent => s.(refresh := Collecting(s.refresh.records, s.view.value))
    case NextRecord =>
      if s.refresh.rest == [] then
        s.(refresh := Publishing(s.refresh.current), page := s.page.(reading := Issued(true)))
      else Collect(s, s.refresh.rest, s.refresh.current)
    case FlagDone =>
      Put(s, s.refresh.record.(accepted := None)).(refresh := Collecting(s.refresh.rest, s.refresh.current))
    case RemoveDone =>
      Remove(s, s.refresh.record.key).(refresh := Collecting(s.refresh.rest, s.refresh.current))
    case RefreshFails => FailRefresh(s)
  }

  /** The steps of the mutation at the head of the chain. */
  function AfterMutation(s: State, a: Action): (s': State)
    requires Enabled(s, a) && OfMutation(a)
    ensures s' == s.(storage := s'.storage, view := s'.view, inFlight := s'.inFlight, mutation := s'.mutation,
                     page := s'.page, host := s'.host, copies := s'.copies, sent := s'.sent, refused := s'.refused)
    ensures s'.page == s.page.(reading := s'.page.reading) && s'.host.now.epoch == s.host.now.epoch
  {
    match a
    case AnswerGet(receipt) =>
      var r := s.mutation.record;
      s.(mutation := Queried(r, if r.epoch == s.host.now.epoch && receipt then Receipt(s.host.now)
                                else if r.epoch == s.host.now.epoch then Refusal else Failure))
    case HandleGet =>
      var r := s.mutation.record;
      (match s.mutation.reply
       case Receipt(snapshot) =>
         s.(view := Accept(s.view, snapshot, false), mutation := Marking(Acknowledged(r, snapshot)))
       case Refusal => Transmit(s, r)
       case Failure => s.(mutation := NoMutation))
    case MarkDone => StartReading(Put(s, s.mutation.record).(mutation := NoMutation))
    case StoreDone =>
      var r := s.mutation.record;
      StartReading(Put(s, r).(mutation := Sending(r), sent := if r.Submits() then s.sent + {r.key} else s.sent))
    case AnswerSend(reply, refused) =>
      var r := s.mutation.record;
      s.(host := Deliver(s.host, r, refused), mutation := Replied(r, ReplyTo(s.host, r, reply, refused)))
    case HandleReply =>
      var r := s.mutation.record;
      (match s.mutation.reply
       case Receipt(snapshot) =>
         s.(view := Accept(s.view, snapshot, false), mutation := Noting(Acknowledged(r, snapshot)))
       case Refusal => s.(mutation := Withdrawing(r))
       case Failure => EndTransmit(s, r.key))
    case NoteDone =>
      var r := s.mutation.record;
      EndTransmit(if r.Submits() then Put(s, r) else Remove(s, r.key), r.key)
    case WithdrawDone =>
      var r := s.mutation.record;
      EndTransmit(Remove(s, r.key), r.key).(refused := s.refused + {r.key})
    case MutationFails =>
      if Transmitting(s.mutation) then EndTransmit(s, s.mutation.record.key) else s.(mutation := NoMutation)
  }

  /** The chain takes up a call, at once or when the refresh it waited for is done. */
  function AfterChain(s: State, a: Action): (s': State)
    requires Enabled(s, a) && OfChain(a)
    ensures s' == s.(inFlight := s'.inFlight, refresh := s'.refresh, mutation := s'.mutation, page := s'.page)
    ensures s'.page.dismissing == s.page.dismissing && s'.refresh in {s.refresh, NoRefresh, Asked}
    ensures s'.mutation == s.mutation || s'.mutation.Querying? || s'.mutation.Storing?
  {
    match a
    case Begin(previous) => BeginCall(s, previous)
    case RefreshDone => EndRefresh(s)
  }

  /** What callers ask for, and the pending list. */
  function AfterPage(s: State, a: Action): (s': State)
    requires Enabled(s, a) && OfPage(a)
    ensures s' == s.(storage := s'.storage, page := s'.page, copies := s'.copies, dismissed := s'.dismissed)
    ensures s'.page.waits == s.page.waits
  {
    match a
    case CallRetry(r) => s.(page := s.page.(calls := s.page.calls + [Retry(r)]))
    case CallSubmit(key, body, prepared) => s.(page := s.page.(calls := s.page.calls + [Submit(key, body, prepared)]))
    case CallOther(key, epoch) => s.(page := s.page.(calls := s.page.calls + [Other(key, epoch)]))
    case DropCall => s.(page := s.page.(calls := s.page.calls[1..]))
    case ReadPending(records) => s.(page := s.page.(reading := Got(records, s.page.reading.ofRefresh)))
    case PublishPending => Publish(s)
    case ReadingFails => s.(page := s.page.(reading := NotReading))
    case PrepareRestore(r) => StartReading(Put(s, r.(restoreIntent := true)))
    case Dismiss(r) => s.(page := s.page.(dismissing := s.page.dismissing + {r.key}))
    case DismissDone(key) =>
      StartReading(Remove(s, key).(dismissed := s.dismissed + {key},
                                   page := s.page.(dismissing := s.page.dismissing - {key})))
    case DismissFails(key) => s.(page := s.page.(dismissing := s.page.dismissing - {key}))
  }

  /** The host, receipts, and a page closed and opened again. */
  function AfterHost(s: State, a: Action): (s': State)
    requires Enabled(s, a) && OfHost(a)
    ensures if a.Reopen? then
              s' == s.(view := None, inFlight := {}, refresh := NoRefresh, mutation := NoMutation, page := NEW_PAGE,
                       receipts := {})
            else
              s' == s.(view := s'.view, host := s'.host, receipts := s'.receipts)
              && s.host.now.epoch <= s'.host.now.epoch
  {
    match a
    case HostMoves(next, took) => s.(host := Host(next, s.host.taken + took))
    case Reopen =>
      s.(view := None, inFlight := {}, refresh := NoRefresh, mutation := NoMutation, page := NEW_PAGE, receipts := {})
    case AnswerReceipt => s.(receipts := s.receipts + {s.host.now})
    case HandleReceipt(snapshot) => s.(view := Accept(s.view, snapshot, false))
  }

  function Next(s: State, a: Action): State
    requires Enabled(s, a)
  {
    if OfRefresh(a) then AfterRefresh(s, a)
    else if OfMutation(a) then AfterMutation(s, a)
    else if OfChain(a) then AfterChain(s, a)
    else if OfPage(a) then AfterPage(s, a)
    else AfterHost(s, a)
  }

  // ----- runs -----

  function Run(s: State, actions: seq<Action>): State
    requires CanRun(s, actions)
    decreases |actions|
  {
    if actions == [] then s else Run(Next(s, actions[0]), actions[1..])
  }

  predicate CanRun(s: State, actions: seq<Action>)
    decreases |actions|
  {
    actions == [] || (Enabled(s, actions[0]) && CanRun(Next(s, actions[0]), actions[1..]))
  }
}
