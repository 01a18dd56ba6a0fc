// With something harmful under way or waiting, there is a run in which a stored restore intent is lost.
module RestoreLost {
  import opened Common
  import opened Outbox
  import opened OutboxSafety
  import opened RestoreHarm

  predicate Loses(s: State, actions: seq<Action>, key: Key) {
    Quiet(s, actions, key) && !Kept(Run(s, actions), key)
  }

  /** A quiet run can end without the intent. */
  ghost predicate Losable(s: State, key: Key) {
    exists actions :: Loses(s, actions, key)
  }

  lemma LosesNow(s: State, a: Action, key: Key)
    requires Background(s, a, key) && !Kept(Next(s, a), key)
    ensures Losable(s, key)
  {
    hide Enabled, Next;
    var actions := [a];
    assert actions[1..] == [] && Quiet(Next(s, a), [], key);
    assert Quiet(s, actions, key);
    assert Run(s, actions) == Run(Next(s, a), []) == Next(s, a);
    assert Loses(s, actions, key);
  }

  lemma LosesLater(s: State, a: Action, key: Key)
    requires Background(s, a, key) && Losable(Next(s, a), key)
    ensures Losable(s, key)
  {
    hide Enabled, Next;
    var rest :| Loses(Next(s, a), rest, key);
    var actions := [a] + rest;
    assert actions[0] == a && actions[1..] == rest;
    assert Quiet(s, actions, key);
    assert Run(s, actions) == Run(Next(s, a), rest);
    assert Loses(s, actions, key);
  }

  /** A step that is neither a call about a message nor a refusal leads only where the intent can be lost from here. */
  lemma Later(s: State, a: Action, key: Key)
    requires Inv(s) && Enabled(s, a) && !a.CallRetry? && !a.CallSubmit? && !a.WithdrawDone?
    requires a.Dismiss? ==> a.record.key != key
    ensures Inv(Next(s, a)) && (Losable(Next(s, a), key) ==> Losable(s, key))
  {
    hide Inv, Next, Enabled, Losable;
    InvNext(s, a);
    if Losable(Next(s, a), key) {
      LosesLater(s, a, key);
    }
  }

  lemma StoringLoses(s: State, key: Key)
    requires s.mutation.Storing? && Stale(s.mutation.record, key)
    ensures Losable(s, key)
  {
    LosesNow(s, StoreDone, key);
  }

  lemma MarkingLoses(s: State, key: Key)
    requires s.mutation.Marking? && Stale(s.mutation.record, key)
    ensures Losable(s, key)
  {
    LosesNow(s, MarkDone, key);
  }

  lemma NotingLoses(s: State, key: Key)
    requires s.mutation.Noting? && Stale(s.mutation.record, key) && key.Turn?
    ensures Losable(s, key)
  {
    LosesNow(s, NoteDone, key);
  }

  lemma QueriedLoses(s: State, key: Key)
    requires s.mutation.Queried? && Stale(s.mutation.record, key) && !s.mutation.reply.Failure?
    ensures Losable(s, key)
  {
    var s' := Next(s, HandleGet);
    if s.mutation.reply.Receipt? {
      MarkingLoses(s', key);
    } else {
      StoringLoses(s', key);
    }
    LosesLater(s, HandleGet, key);
  }

  lemma RepliedLoses(s: State, key: Key)
    requires s.mutation.Replied? && Stale(s.mutation.record, key) && s.mutation.reply.Receipt? && key.Turn?
    ensures Losable(s, key)
  {
    NotingLoses(Next(s, HandleReply), key);
    LosesLater(s, HandleReply, key);
  }

  lemma MutationLoses(s: State, key: Key)
    requires MutationHarms(s, key) && key.Turn?
    ensures Losable(s, key)
  {
    hide Losable;
    match s.mutation {
      case Querying(r) =>
        QueriedLoses(Next(s, AnswerGet(false)), key);
        LosesLater(s, AnswerGet(false), key);
      case Queried(r, reply) => QueriedLoses(s, key);
      case Marking(r) => MarkingLoses(s, key);
      case Storing(r) => StoringLoses(s, key);
      case Sending(r) =>
        RepliedLoses(Next(s, AnswerSend(true, false)), key);
        LosesLater(s, AnswerSend(true, false), key);
      case Replied(r, reply) => RepliedLoses(s, key);
      case Noting(r) => NotingLoses(s, key);
      case _ =>
    }
  }

  /** A transmission of the record can fail, and then the loop passes over it no more. */
  lemma AfterFailure(s: State, key: Key)
    requires Inv(s) && key in s.inFlight
    ensures Background(s, MutationFails, key)
    ensures var s' := Next(s, MutationFails);
            && key !in s'.inFlight && s'.refresh == s.refresh && s'.view == s.view
  {
    hide CopiesOk, StorageOk, NothingLost, RefreshOk, MutationOk;
  }

  lemma ActingLoses(s: State, key: Key)
    requires Inv(s)
    requires (s.refresh.Flagging? || s.refresh.Removing?) && s.refresh.record.key == key
    ensures Losable(s, key)
  {
    hide CopiesOk, StorageOk, NothingLost, ViewOk, MutationOk, AllSeen;
    if s.refresh.Flagging? {
      LosesNow(s, FlagDone, key);
    } else {
      LosesNow(s, RemoveDone, key);
    }
  }

  lemma {:induction false} LoopLoses(s: State, key: Key)
    requires Inv(s) && s.refresh.Collecting? && HarmIn(s.refresh.rest, s.refresh.current, key)
    requires key !in s.inFlight && key.Turn?
    ensures Losable(s, key)
    decreases |s.refresh.rest|
  {
    hide Inv, Losable;
    var rest, current := s.refresh.rest, s.refresh.current;
    var s' := Next(s, NextRecord);
    InvNext(s, NextRecord);
    if Stale(rest[0], key) && ActedOn(rest[0], current) {
      ActingLoses(s', key);
    } else {
      HarmInRest(rest, current, key);
      if s'.refresh.Collecting? {
        LoopLoses(s', key);
      } else {
        var done := if s'.refresh.Flagging? then FlagDone else RemoveDone;
        InvNext(s', done);
        LoopLoses(Next(s', done), key);
        LosesLater(s', done, key);
      }
    }
    LosesLater(s, NextRecord, key);
  }

  lemma HarmInRest(rest: seq<Record>, current: Snapshot, key: Key)
    requires HarmIn(rest, current, key) && !(Stale(rest[0], key) && ActedOn(rest[0], current))
    ensures HarmIn(rest[1..], current, key)
  {
    var r :| r in rest && Stale(r, key) && ActedOn(r, current);
    assert rest == [rest[0]] + rest[1..];
  }

  lemma CollectingLoses(s: State, key: Key)
    requires Inv(s) && s.refresh.Collecting? && HarmIn(s.refresh.rest, s.refresh.current, key) && key.Turn?
    ensures Losable(s, key)
  {
    hide Inv, Losable, Next, Enabled, HarmIn;
    if key in s.inFlight {
      AfterFailure(s, key);
      InvNext(s, MutationFails);
      LoopLoses(Next(s, MutationFails), key);
      LosesLater(s, MutationFails, key);
    } else {
      LoopLoses(s, key);
    }
  }

  lemma FlaggingLoses(s: State, key: Key)
    requires Inv(s) && (s.refresh.Flagging? || s.refresh.Removing?) && RefreshHarms(s, key) && key.Turn?
    ensures Losable(s, key)
  {
    hide Inv, Losable, HarmIn;
    if s.refresh.record.key == key {
      ActingLoses(s, key);
    } else {
      var done := if s.refresh.Flagging? then FlagDone else RemoveDone;
      InvNext(s, done);
      CollectingLoses(Next(s, done), key);
      LosesLater(s, done, key);
    }
  }

  /** The loop starts with a snapshot that does not list the message. */
  lemma TakingLoses(s: State, r: Record, key: Key)
    requires Inv(s) && s.refresh.Listed? && s.view.Some? && key.Turn?
    requires r in s.refresh.records && Stale(r, key) && ActedOn(r, s.view.value)
    ensures Losable(s, key)
  {
    hide Inv, Losable;
    InvNext(s, TakeCurrent);
    assert HarmIn(s.refresh.records, s.view.value, key);
    CollectingLoses(Next(s, TakeCurrent), key);
    LosesLater(s, TakeCurrent, key);
  }

  lemma ReceiptLoses(s: State, r: Record, key: Key, snapshot: Snapshot)
    requires Inv(s) && s.refresh.Listed? && s.view.Some? && key.Turn?
    requires r in s.refresh.records && Stale(r, key) && r.accepted.Some?
    requires snapshot in s.receipts && Drops(snapshot, s.view.value, key)
    ensures Losable(s, key)
  {
    hide Inv, Losable;
    InvNext(s, HandleReceipt(snapshot));
    TakingLoses(Next(s, HandleReceipt(snapshot)), r, key);
    LosesLater(s, HandleReceipt(snapshot), key);
  }

  lemma ReplyLoses(s: State, r: Record, key: Key)
    requires Inv(s) && s.refresh.Listed? && s.view.Some? && key.Turn?
    requires r in s.refresh.records && Stale(r, key) && r.accepted.Some?
    requires ReplyDrops(s.mutation, s.view.value, key)
    ensures Losable(s, key)
  {
    hide Inv, Losable;
    var handle := if s.mutation.Queried? then HandleGet else HandleReply;
    InvNext(s, handle);
    TakingLoses(Next(s, handle), r, key);
    LosesLater(s, handle, key);
  }

  lemma AnsweredLoses(s: State, key: Key, snapshot: Snapshot) returns (s': State)
    requires Inv(s) && s.view.Some? && snapshot == s.host.now.(items := {})
    ensures Inv(s') && (Losable(s', key) ==> Losable(s, key))
    ensures s' == s.(host := s.host.(now := snapshot), receipts := s.receipts + {snapshot})
  {
    hide Inv, Losable, Next, Enabled;
    var s1 := s.(host := s.host.(now := snapshot));
    HostEmpties(s, s1);
    Later(s, HostMoves(snapshot, {}), key);
    s' := s1.(receipts := s.receipts + {snapshot});
    HostAnswers(s1, s');
    Later(s1, AnswerReceipt, key);
  }

  lemma HostEmpties(s: State, s': State)
    requires s' == s.(host := s.host.(now := s.host.now.(items := {})))
    ensures Enabled(s, HostMoves(s'.host.now, {})) && Next(s, HostMoves(s'.host.now, {})) == s'
  {
    hide AfterRefresh, AfterMutation, AfterChain, AfterPage;
  }

  lemma HostAnswers(s: State, s': State)
    requires s.view.Some? && s' == s.(receipts := s.receipts + {s.host.now})
    ensures Enabled(s, AnswerReceipt) && Next(s, AnswerReceipt) == s'
  {
    hide AfterRefresh, AfterMutation, AfterChain, AfterPage;
  }

  /** While the host is in the epoch of the published snapshot it can take the message off its list and say so. */
  lemma HostLoses(s: State, r: Record, key: Key)
    requires Inv(s) && s.refresh.Listed? && s.view.Some? && key.Turn?
    requires r in s.refresh.records && Stale(r, key) && r.accepted.Some?
    requires s.host.now.epoch == s.view.value.epoch
    ensures Losable(s, key)
  {
    hide Inv, Losable;
    assert ViewOk(s.view, s.receipts, s.host.now) by { InvParts(s); }
    var emptied := s.host.now.(items := {});
    var s' := AnsweredLoses(s, key, emptied);
    ReceiptLoses(s', r, key, emptied);
  }

  lemma ListedLoses(s: State, key: Key)
    requires Inv(s) && s.refresh.Listed? && RefreshHarms(s, key) && key.Turn?
    ensures Losable(s, key)
  {
    hide Inv, Losable, ReplyDrops, Drops;
    var r :| r in s.refresh.records && HarmInCopy(s, r, key);
    if ActedOn(r, s.view.value) {
      TakingLoses(s, r, key);
    } else if s.host.now.epoch == s.view.value.epoch {
      HostLoses(s, r, key);
    } else if ReplyDrops(s.mutation, s.view.value, key) {
      ReplyLoses(s, r, key);
    } else {
      var snapshot :| snapshot in s.receipts && Drops(snapshot, s.view.value, key);
      ReceiptLoses(s, r, key, snapshot);
    }
  }

  // ----- what waits can lose it -----

  lemma DismissingLoses(s: State, key: Key)
    requires key in s.page.dismissing
    ensures Losable(s, key)
  {
    LosesNow(s, DismissDone(key), key);
  }

  /** Some order in which the storage can be listed. */
  lemma {:induction false} SomeListing(storage: map<Key, Record>) returns (records: seq<Record>)
    requires forall key | key in storage :: storage[key].key == key
    ensures forall r | r in records :: Lookup(storage, r.key) == Some(r)
    ensures forall key | key in storage :: storage[key] in records
    decreases |storage|
  {
    records := [];
    if key :| key in storage {
      var others := storage - {key};
      assert |others.Keys| < |storage.Keys| by { assert others.Keys == storage.Keys - {key}; }
      var rest := SomeListing(others);
      records := rest + [storage[key]];
      forall k | k in storage
        ensures storage[k] in records
      {
        assert k == key || (k in others && others[k] in rest);
      }
    }
  }

  /** The call at the head waits for a refresh that will end with the epoch of the host, and then stores a copy without
      the intent. */
  predicate Ready(s: State, key: Key) {
    && s.page.waits.Some?
    && match s.page.waits.value
       case Retry(r) => Stale(r, key) && r.epoch == s.host.now.epoch == EndsWith(s)
       case Submit(own, body, _) =>
         (match FirstMatch(s.page.pending, body)
          case Some(r) => Stale(r, key) && r.epoch == s.host.now.epoch == EndsWith(s)
          case None => own == key)
       case Other(_, _) => false
  }

  function Phase(refresh: Refresh): (nat, nat) {
    match refresh
    case Asked => (5, 0)
    case Answered(_) => (4, 0)
    case Listing => (3, 0)
    case Listed(_) => (2, 0)
    case Collecting(rest, _) => (1, 2 * |rest|)
    case Flagging(_, rest, _) => (1, 2 * |rest| + 1)
    case Removing(_, rest, _) => (1, 2 * |rest| + 1)
    case _ => (0, 0)
  }

  /** The next step of a refresh that succeeds. */
  lemma RefreshStep(s: State) returns (a: Action)
    requires Inv(s) && !s.refresh.NoRefresh? && !s.refresh.Publishing?
    ensures Enabled(s, a) && OfRefresh(a)
    ensures var p, p' := Phase(s.refresh), Phase(AfterRefresh(s, a).refresh);
            p'.0 < p.0 || (p'.0 == p.0 && p'.1 < p.1)
    ensures AfterRefresh(s, a).page.waits == s.page.waits
    ensures EndsWith(AfterRefresh(s, a)) == EndsWith(s) && !AfterRefresh(s, a).refresh.NoRefresh?
  {
    hide CopiesOk, MutationOk, InFlightOk, NothingLost, EpochsOk, CallsOk, WaitsOk, ListsOk, ReadingOk, AllSeen;
    match s.refresh {
      case Asked => a := AnswerList;
      case Answered(_) => a := AcceptList;
      case Listing =>
        var records := SomeListing(s.storage);
        a := ReadStorage(records);
      case Listed(_) => a := TakeCurrent;
      case Collecting(_, _) => a := NextRecord;
      case Flagging(_, _, _) => a := FlagDone;
      case Removing(_, _, _) => a := RemoveDone;
      case Publishing(_) => a := RefreshDone; // not here
    }
  }

  /** The refresh runs to its end. Its own reading of the pending list is overtaken by that of another
      `prepareRestore`, so that the call still finds what is published now. */
  lemma {:induction false} WaitLoses(s: State, key: Key)
    requires Inv(s) && Kept(s, key) && Ready(s, key) && key.Turn?
    ensures Losable(s, key)
    decreases Phase(s.refresh).0, Phase(s.refresh).1
  {
    hide Inv, Losable, Enabled, AfterRefresh, AfterChain, AfterPage, EndsWith, Kept, FirstMatch, GivesUp;
    assert WaitsOk(s.page, s.refresh, s.mutation) by { InvParts(s); }
    if s.refresh.Publishing? {
      PublishingLoses(s, key);
    } else {
      var a := RefreshStep(s);
      QuietRefresh(s, a, key);
      InvNext(s, a);
      if Kept(Next(s, a), key) {
        WaitLoses(Next(s, a), key);
        LosesLater(s, a, key);
      } else {
        LosesNow(s, a, key);
      }
    }
  }

  lemma InvParts(s: State)
    requires Inv(s)
    ensures WaitsOk(s.page, s.refresh, s.mutation) && StorageOk(s.storage, s.copies)
    ensures ViewOk(s.view, s.receipts, s.host.now)
  {
  }

  lemma QuietRefresh(s: State, a: Action, key: Key)
    requires Enabled(s, a) && OfRefresh(a)
    ensures Background(s, a, key)
  {
  }

  /** Preparing the restore again changes nothing but begins another reading of the pending list. */
  lemma PreparedAgain(s: State, key: Key, s': State)
    requires Inv(s) && Kept(s, key) && s' == s.(page := s.page.(reading := Issued(false)))
    ensures Inv(s') && (Losable(s', key) ==> Losable(s, key))
  {
    hide Inv, Losable, AfterRefresh, AfterMutation, AfterChain, AfterHost;
    InvParts(s);
    Later(s, PrepareRestore(s.storage[key]), key);
    assert s.storage[key := s.storage[key]] == s.storage;
    assert Next(s, PrepareRestore(s.storage[key])) == s';
  }

  lemma PublishingLoses(s: State, key: Key)
    requires Inv(s) && Kept(s, key) && Ready(s, key) && key.Turn? && s.refresh.Publishing?
    ensures Losable(s, key)
  {
    hide Inv, Losable, FirstMatch, MutationHarms, AfterRefresh, AfterMutation, AfterChain, AfterPage, AfterHost;
    var s' := s.(page := s.page.(reading := Issued(false)));
    PreparedAgain(s, key, s');
    ReadyGoesOn(s', key);
    InvNext(s', RefreshDone);
    MutationLoses(Next(s', RefreshDone), key);
    LosesLater(s', RefreshDone, key);
  }

  lemma ReadyGoesOn(s: State, key: Key)
    requires Ready(s, key) && key.Turn? && s.refresh.Publishing? && !OfRefreshing(s.page.reading)
    ensures Enabled(s, RefreshDone) && MutationHarms(AfterChain(s, RefreshDone), key)
  {
  }

  // A submission under the id of the record.

  /** It is at the head, begins with the next snapshot, and will transmit a new record if no other one matches. */
  predicate OwnAtHead(s: State, key: Key) {
    if s.page.waits.Some? then s.page.waits.value.Submit? && s.page.waits.value.key == key
    else
      && s.mutation.NoMutation? && s.page.calls != [] && s.page.calls[0].Submit? && s.page.calls[0].key == key
      && s.view.Some? && s.page.calls[0].prepared == Some(s.view.value.epoch)
  }

  function OwnBody(s: State, key: Key): string
    requires OwnAtHead(s, key)
  {
    if s.page.waits.Some? then s.page.waits.value.body else s.page.calls[0].body
  }

  lemma OwnBeginLoses(s: State, key: Key)
    requires Inv(s) && Kept(s, key) && OwnAtHead(s, key) && key.Turn?
    requires FirstMatch(s.page.pending, OwnBody(s, key)).None?
    ensures Losable(s, key)
  {
    hide Inv, Losable, FirstMatch;
    if s.page.waits.Some? {
      WaitLoses(s, key);
    } else {
      InvNext(s, Begin(None));
      StoringLoses(Next(s, Begin(None)), key);
      LosesLater(s, Begin(None), key);
    }
  }

  lemma DismissedLoses(s: State, other: Key, key: Key) returns (s': State)
    requires Inv(s) && other in s.storage && other != key
    ensures Inv(s') && (Losable(s', key) ==> Losable(s, key))
    ensures s' == s.(storage := s.storage - {other}, dismissed := s'.dismissed, page := s'.page)
    ensures s'.page == s.page.(reading := s'.page.reading, dismissing := s'.page.dismissing)
  {
    hide Inv, Losable, Next, Enabled;
    InvParts(s);
    var s1 := s.(page := s.page.(dismissing := s.page.dismissing + {other}));
    Dismissing(s, s1, s.storage[other]);
    Later(s, Dismiss(s.storage[other]), key);
    s' := Dismissed(s1, other);
    Later(s1, DismissDone(other), key);
  }

  lemma Dismissing(s: State, s': State, r: Record)
    requires r in s.copies && s' == s.(page := s.page.(dismissing := s.page.dismissing + {r.key}))
    ensures Enabled(s, Dismiss(r)) && Next(s, Dismiss(r)) == s'
  {
    hide AfterRefresh, AfterMutation, AfterChain, AfterHost;
  }

  lemma Dismissed(s: State, key: Key) returns (s': State)
    requires key in s.page.dismissing
    ensures Enabled(s, DismissDone(key)) && s' == Next(s, DismissDone(key))
    ensures s' == s.(storage := s.storage - {key}, dismissed := s'.dismissed, page := s'.page)
    ensures s'.page == s.page.(reading := s'.page.reading, dismissing := s'.page.dismissing)
  {
    hide AfterRefresh, AfterMutation, AfterChain, AfterHost;
    s' := Next(s, DismissDone(key));
  }

  /** The other records of the storage can be dismissed, and then nothing matches. */
  lemma {:induction false} OwnLoses(s: State, key: Key)
    requires Inv(s) && Kept(s, key) && OwnAtHead(s, key) && key.Turn?
    ensures Losable(s, key)
    decreases |s.storage.Keys|
  {
    hide Inv, Losable;
    if other :| other in s.storage && other != key {
      var s' := DismissedLoses(s, other, key);
      assert s'.storage.Keys == s.storage.Keys - {other};
      OwnLoses(s', key);
    } else {
      AloneLoses(s, key);
    }
  }

  lemma AloneLoses(s: State, key: Key)
    requires Inv(s) && Kept(s, key) && OwnAtHead(s, key) && key.Turn? && s.storage.Keys == {key}
    ensures Losable(s, key)
  {
    hide Inv, Losable, FirstMatch, PendingOf;
    var s1 := s.(page := s.page.(reading := Issued(false)));
    PreparedAgain(s, key, s1);
    var s2 := RelistedLoses(s1, key);
    OwnBeginLoses(s2, key);
  }

  lemma RelistedLoses(s: State, key: Key) returns (s': State)
    requires Inv(s) && Kept(s, key) && s.storage.Keys == {key} && s.page.reading == Issued(false)
    ensures Inv(s') && (Losable(s', key) ==> Losable(s, key))
    ensures s' == s.(page := s.page.(reading := NotReading, pending := s'.page.pending))
    ensures forall body :: FirstMatch(s'.page.pending, body).None?
  {
    hide Inv, Losable, Next, Enabled;
    InvParts(s);
    var r := s.storage[key];
    var s1 := s.(page := s.page.(reading := Got([r], false)));
    Relisted(s, s1, r);
    Later(s, ReadPending([r]), key);
    s' := Published(s1);
    Later(s1, PublishPending, key);
  }

  lemma Relisted(s: State, s': State, r: Record)
    requires s.page.reading == Issued(false) && s.storage == map[r.key := r]
    requires s' == s.(page := s.page.(reading := Got([r], false)))
    ensures Enabled(s, ReadPending([r])) && Next(s, ReadPending([r])) == s'
  {
    hide AfterRefresh, AfterMutation, AfterChain, AfterHost;
  }

  lemma Published(s: State) returns (s': State)
    requires s.page.reading.Got? && !s.page.reading.ofRefresh
    requires forall r | r in s.page.reading.records :: r.restoreIntent
    ensures Enabled(s, PublishPending) && s' == Next(s, PublishPending)
    ensures s' == s.(page := s.page.(reading := NotReading, pending := s'.page.pending))
    ensures forall body :: FirstMatch(s'.page.pending, body).None?
  {
    hide AfterRefresh, AfterMutation, AfterChain, AfterHost, PendingOf, FirstMatch;
    s' := Next(s, PublishPending);
  }

  // A call in the queue comes to the head.

  /** No refresh and no mutation is under way. */
  predicate Idle(s: State) {
    s.refresh.NoRefresh? && s.mutation.NoMutation? && s.page.waits.None?
  }

  /** What is under way fails. */
  lemma FailingLoses(s: State, key: Key) returns (s': State)
    requires Inv(s)
    ensures Inv(s') && Idle(s') && (Losable(s', key) ==> Losable(s, key))
    ensures s'.storage == s.storage && s'.view == s.view && s'.host == s.host && s'.copies == s.copies
    ensures s'.page.calls == s.page.calls && s'.page.pending == s.page.pending
  {
    hide Inv, Losable, Next, Enabled;
    s' := s;
    if !s.refresh.NoRefresh? {
      s' := FailingRefreshLoses(s, key);
    }
    if !s'.mutation.NoMutation? {
      s' := FailingMutationLoses(s', key);
    }
    assert s'.page.waits.None? by { InvParts(s'); }
  }

  lemma FailingRefreshLoses(s: State, key: Key) returns (s': State)
    requires Inv(s) && !s.refresh.NoRefresh?
    ensures Inv(s') && (Losable(s', key) ==> Losable(s, key))
    ensures s' == s.(refresh := NoRefresh, page := s'.page)
    ensures s'.page == s.page.(waits := None, reading := s'.page.reading)
  {
    hide Inv, Losable, AfterMutation, AfterChain, AfterPage, AfterHost;
    s' := Next(s, RefreshFails);
    Later(s, RefreshFails, key);
  }

  lemma FailingMutationLoses(s: State, key: Key) returns (s': State)
    requires Inv(s) && !s.mutation.NoMutation?
    ensures Inv(s') && (Losable(s', key) ==> Losable(s, key))
    ensures s' == s.(mutation := NoMutation, inFlight := s'.inFlight, page := s'.page)
    ensures s'.page == s.page.(reading := s'.page.reading)
  {
    hide Inv, Losable, AfterRefresh, AfterChain, AfterPage, AfterHost;
    s' := Next(s, MutationFails);
    Later(s, MutationFails, key);
  }

  /** The page sees the epoch of the host. */
  lemma SeeingLoses(s: State, key: Key) returns (s': State)
    requires Inv(s) && Idle(s)
    ensures Inv(s') && Idle(s') && (Losable(s', key) ==> Losable(s, key))
    ensures s'.view.Some? && s'.view.value.epoch == s.host.now.epoch
    ensures s'.storage == s.storage && s'.host == s.host && s'.page == s.page.(reading := s'.page.reading)
  {
    hide Inv, Losable, AfterMutation, AfterChain, AfterPage, AfterHost;
    var s1 := Next(s, StartRefresh);
    Later(s, StartRefresh, key);
    var s2 := Next(s1, AnswerList);
    Later(s1, AnswerList, key);
    var s3 := Next(s2, AcceptList);
    Later(s2, AcceptList, key);
    s' := Next(s3, RefreshFails);
    Later(s3, RefreshFails, key);
  }

  lemma BeginLoses(s: State, key: Key) returns (s': State)
    requires Inv(s) && Idle(s) && s.page.calls != []
    ensures Inv(s') && (Losable(s', key) ==> Losable(s, key))
    ensures s' == BeginCall(s, None)
  {
    hide Inv, Losable, BeginCall, AfterRefresh, AfterMutation, AfterPage, AfterHost;
    s' := Next(s, Begin(None));
    Later(s, Begin(None), key);
  }

  /** A call that harms where nothing is under way. */
  predicate Waiting(s: State, call: Call, key: Key) {
    Idle(s) && Kept(s, key) && CallHarms(s, call, key)
  }

  lemma RetryHeadLoses(s: State, key: Key)
    requires Inv(s) && key.Turn? && s.page.calls != [] && Waiting(s, s.page.calls[0], key)
    requires s.page.calls[0].Retry? || s.page.calls[0].prepared.None?
    ensures Losable(s, key)
  {
    hide Inv, Losable, FirstMatch;
    var s' := BeginLoses(s, key);
    if s.page.calls[0].Submit? && s.page.calls[0].key == key {
      OwnLoses(s', key);
    } else {
      WaitLoses(s', key);
    }
  }

  lemma PreparedHeadLoses(s: State, key: Key)
    requires Inv(s) && key.Turn? && s.page.calls != [] && Waiting(s, s.page.calls[0], key)
    requires s.page.calls[0].Submit? && s.view.Some? && s.page.calls[0].prepared == Some(s.view.value.epoch)
    ensures Losable(s, key)
  {
    hide Inv, Losable, FirstMatch;
    if s.page.calls[0].key == key {
      OwnLoses(s, key);
    } else {
      var s' := BeginLoses(s, key);
      MutationLoses(s', key);
    }
  }

  lemma HeadLoses(s: State, key: Key)
    requires Inv(s) && key.Turn? && s.page.calls != [] && Waiting(s, s.page.calls[0], key)
    ensures Losable(s, key)
  {
    hide Inv, Losable, FirstMatch, Kept;
    var call := s.page.calls[0];
    if call.Retry? || call.prepared.None? {
      RetryHeadLoses(s, key);
    } else if s.view.Some? && call.prepared.value == s.view.value.epoch {
      PreparedHeadLoses(s, key);
    } else {
      var s' := SeeingLoses(s, key);
      SameKept(s, s', key);
      PreparedHeadLoses(s', key);
    }
  }

  lemma SameKept(s: State, s': State, key: Key)
    requires s'.storage == s.storage
    ensures Kept(s', key) <==> Kept(s, key)
  {
  }

  /** The calls before it begin and fail. */
  lemma {:induction false} QueueLoses(s: State, i: nat, key: Key)
    requires Inv(s) && key.Turn? && i < |s.page.calls| && Waiting(s, s.page.calls[i], key)
    ensures Losable(s, key)
    decreases i
  {
    hide Inv, Losable, FirstMatch, Kept;
    if i == 0 {
      HeadLoses(s, key);
    } else {
      var s1 := BeginLoses(s, key);
      var s2 := FailingLoses(s1, key);
      SameKept(s, s2, key);
      QueueLoses(s2, i - 1, key);
    }
  }

  /** With no refresh under way only the page and the host remain to be seen. */
  lemma CallLoses(s: State, call: Call, key: Key)
    requires Inv(s) && key.Turn? && Kept(s, key) && call in s.page.calls && CallHarms(s, call, key)
    requires call.Submit? && call.prepared.Some? && call.key == key ==>
               call.prepared.value == s.host.now.epoch || (s.view.Some? && call.prepared.value == s.view.value.epoch)
    ensures Losable(s, key)
  {
    hide Inv, Losable, FirstMatch, Kept;
    var s' := FailingLoses(s, key);
    SameKept(s, s', key);
    var i :| 0 <= i < |s.page.calls| && s.page.calls[i] == call;
    QueueLoses(s', i, key);
  }

  lemma CallsLose(s: State, call: Call, key: Key)
    requires Inv(s) && key.Turn? && Kept(s, key) && call in s.page.calls && CallHarms(s, call, key)
    ensures Losable(s, key)
  {
    hide Inv, Losable, FirstMatch, AfterMutation, AfterChain, AfterPage, AfterHost;
    if call.Submit? && call.prepared.Some? && call.key == key
       && s.refresh.Answered? && call.prepared.value == s.refresh.snapshot.epoch {
      Later(s, AcceptList, key);
      CallLoses(Next(s, AcceptList), call, key);
    } else {
      CallLoses(s, call, key);
    }
  }

  lemma PageLoses(s: State, key: Key)
    requires Inv(s) && key.Turn? && Kept(s, key) && PageHarms(s, key)
    ensures Losable(s, key)
  {
    hide Inv, Losable, FirstMatch, CallHarms, Kept;
    if key in s.page.dismissing {
      DismissingLoses(s, key);
    } else if call :| call in s.page.calls && CallHarms(s, call, key) {
      CallsLose(s, call, key);
    } else {
      WaitHarmLoses(s, key);
    }
  }

  lemma WaitHarmLoses(s: State, key: Key)
    requires Inv(s) && key.Turn? && Kept(s, key) && s.page.waits.Some? && WaitHarms(s, s.page.waits.value, key)
    ensures Losable(s, key)
  {
    hide Inv, Losable, FirstMatch, Kept, EndsWith;
    InvParts(s);
    var call := s.page.waits.value;
    if call.Submit? && call.key == key {
      OwnLoses(s, key);
    } else {
      WaitLoses(s, key);
    }
  }

  lemma HarmLoses(s: State, key: Key)
    requires Inv(s) && key.Turn? && Kept(s, key) && Harms(s, key)
    ensures Losable(s, key)
  {
    hide Inv, Losable, MutationHarms, HarmIn, HarmInCopy, PageHarms, Kept;
    if MutationHarms(s, key) {
      MutationLoses(s, key);
    } else if PageHarms(s, key) {
      PageLoses(s, key);
    } else if s.refresh.Listed? {
      ListedLoses(s, key);
    } else if s.refresh.Collecting? {
      CollectingLoses(s, key);
    } else {
      FlaggingLoses(s, key);
    }
  }
}
