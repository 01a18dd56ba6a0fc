// What the calls of the outbox come to when nothing else happens in between (HostDialogQueue.ts).
module OutboxRuns {
  import opened Common
  import opened Outbox

  /** The actions can be taken one after the other, and lead there. */
  predicate Leads(s: State, actions: seq<Action>, s': State) {
    CanRun(s, actions) && Run(s, actions) == s'
  }

  lemma {:induction false} LeadsOn(s: State, actions: seq<Action>, t: State, a: Action)
    requires Leads(s, actions, t) && Enabled(t, a)
    ensures Leads(s, actions + [a], Next(t, a))
    decreases |actions|
  {
    hide Enabled, Next;
    if actions == [] {
      var one := [a];
      assert actions + [a] == one && one[1..] == [];
      assert CanRun(Next(s, a), one[1..]) && Run(Next(s, a), one[1..]) == Next(s, a);
    } else {
      LeadsOn(Next(s, actions[0]), actions[1..], t, a);
      assert (actions + [a])[1..] == actions[1..] + [a];
    }
  }

  lemma {:induction false} LeadsFurther(s: State, actions: seq<Action>, t: State, more: seq<Action>, u: State)
    requires Leads(s, actions, t) && Leads(t, more, u)
    ensures Leads(s, actions + more, u)
    decreases |more|
  {
    hide Enabled, Next;
    if more == [] {
      assert actions + more == actions;
    } else {
      LeadsOn(s, actions, t, more[0]);
      LeadsFurther(s, actions + [more[0]], Next(t, more[0]), more[1..], u);
      assert actions + more == actions + [more[0]] + more[1..];
    }
  }

  // ----- a transmission, from the moment its record is to be stored -----

  // The single steps.

  lemma Stores(s: State, r: Record)
    requires s.mutation == Storing(r)
    ensures Enabled(s, StoreDone)
    ensures Next(s, StoreDone)
            == s.(storage := s.storage[r.key := r], copies := s.copies + {r}, mutation := Sending(r),
                  sent := if r.Submits() then s.sent + {r.key} else s.sent,
                  page := s.page.(reading := Issued(false)))
  {
  }

  lemma Sends(s: State, r: Record, reply: bool, refused: bool)
    requires s.mutation == Sending(r)
    ensures Enabled(s, AnswerSend(reply, refused))
    ensures Next(s, AnswerSend(reply, refused))
            == s.(host := Deliver(s.host, r, refused), mutation := Replied(r, ReplyTo(s.host, r, reply, refused)))
  {
    hide Deliver, ReplyTo;
  }

  lemma Handles(s: State, r: Record)
    requires s.mutation.Replied? && s.mutation.record == r
    ensures Enabled(s, HandleReply)
    ensures Next(s, HandleReply)
            == match s.mutation.reply
               case Receipt(snapshot) =>
                 s.(view := Accept(s.view, snapshot, false), mutation := Noting(Acknowledged(r, snapshot)))
               case Refusal => s.(mutation := Withdrawing(r))
               case Failure => EndTransmit(s, r.key)
  {
    hide Accept, Acknowledged;
  }

  lemma Notes(s: State, r: Record)
    requires s.mutation == Noting(r)
    ensures Enabled(s, NoteDone)
    ensures Next(s, NoteDone) == EndTransmit(if r.Submits() then Put(s, r) else Remove(s, r.key), r.key)
  {
  }

  lemma Withdraws(s: State, r: Record)
    requires s.mutation == Withdrawing(r)
    ensures Enabled(s, WithdrawDone)
    ensures Next(s, WithdrawDone) == EndTransmit(Remove(s, r.key), r.key).(refused := s.refused + {r.key})
  {
  }

  /** The transmission of the key is over, and its request was not marked in any other way. */
  predicate IsOver(s: State, s': State, key: Key) {
    && s'.mutation == NoMutation && s'.inFlight == s.inFlight - {key}
    && s'.page == s.page.(reading := Issued(false))
    && s'.dismissed == s.dismissed && s'.receipts == s.receipts && s'.refresh == s.refresh
  }

  /** An acknowledged message is stored as accepted, and the host has it; an acknowledged request of another kind is
      stored no more. */
  lemma Delivered(s: State, r: Record) returns (s': State)
    requires s.mutation == Storing(r) && r.epoch == s.host.now.epoch
    ensures Leads(s, [StoreDone, AnswerSend(true, false), HandleReply, NoteDone], s') && IsOver(s, s', r.key)
    ensures s'.refused == s.refused && s'.host.now.epoch == r.epoch
    ensures s'.host.now.revision == s.host.now.revision + 1
    ensures if r.Submits() then
              && s'.storage == s.storage[r.key := r.(accepted := Some(s'.host.now.revision))]
              && s'.host.now.items == s.host.now.items + {r.key} && s'.host.taken == s.host.taken + {r.key}
              && s'.sent == s.sent + {r.key}
            else
              && s'.storage == s.storage - {r.key} && s'.sent == s.sent
              && s'.host.now.items == s.host.now.items && s'.host.taken == s.host.taken
    ensures s.view.Some? && s.view.value.epoch == r.epoch && s.view.value.revision <= s'.host.now.revision ==>
              s'.view == Some(s'.host.now)
  {
    hide Next, Enabled;
    Stores(s, r);
    LeadsOn(s, [], s, StoreDone);
    var s1 := Next(s, StoreDone);
    Sends(s1, r, true, false);
    LeadsOn(s, [StoreDone], s1, AnswerSend(true, false));
    var s2 := Next(s1, AnswerSend(true, false));
    Handles(s2, r);
    LeadsOn(s, [StoreDone, AnswerSend(true, false)], s2, HandleReply);
    var s3 := Next(s2, HandleReply);
    Notes(s3, Acknowledged(r, s2.host.now));
    LeadsOn(s, [StoreDone, AnswerSend(true, false), HandleReply], s3, NoteDone);
    s' := Next(s3, NoteDone);
  }

  /** A refused request is stored no more. */
  lemma Refused(s: State, r: Record) returns (s': State)
    requires s.mutation == Storing(r) && r.epoch == s.host.now.epoch
    ensures Leads(s, [StoreDone, AnswerSend(true, true), HandleReply, WithdrawDone], s') && IsOver(s, s', r.key)
    ensures s'.storage == s.storage - {r.key} && s'.refused == s.refused + {r.key}
    ensures s'.host == s.host && s'.view == s.view
  {
    hide Next, Enabled;
    Stores(s, r);
    LeadsOn(s, [], s, StoreDone);
    var s1 := Next(s, StoreDone);
    Sends(s1, r, true, true);
    LeadsOn(s, [StoreDone], s1, AnswerSend(true, true));
    var s2 := Next(s1, AnswerSend(true, true));
    Handles(s2, r);
    LeadsOn(s, [StoreDone, AnswerSend(true, true)], s2, HandleReply);
    var s3 := Next(s2, HandleReply);
    Withdraws(s3, r);
    LeadsOn(s, [StoreDone, AnswerSend(true, true), HandleReply], s3, WithdrawDone);
    s' := Next(s3, WithdrawDone);
  }

  /** A request without an answer, or of a queue that is gone, stays stored as it was sent. */
  lemma Unanswered(s: State, r: Record, reply: bool, refused: bool) returns (s': State)
    requires s.mutation == Storing(r) && (r.epoch != s.host.now.epoch || !reply)
    ensures Leads(s, [StoreDone, AnswerSend(reply, refused), HandleReply], s') && IsOver(s, s', r.key)
    ensures s'.storage == s.storage[r.key := r] && s'.refused == s.refused && s'.view == s.view
    ensures r.epoch != s.host.now.epoch || refused ==> s'.host == s.host
    ensures r.epoch == s.host.now.epoch && !refused && r.Submits() ==> s'.host.taken == s.host.taken + {r.key}
  {
    hide Next, Enabled;
    Stores(s, r);
    LeadsOn(s, [], s, StoreDone);
    var s1 := Next(s, StoreDone);
    Sends(s1, r, reply, refused);
    LeadsOn(s, [StoreDone], s1, AnswerSend(reply, refused));
    var s2 := Next(s1, AnswerSend(reply, refused));
    Handles(s2, r);
    LeadsOn(s, [StoreDone, AnswerSend(reply, refused)], s2, HandleReply);
    s' := Next(s2, HandleReply);
    assert [StoreDone, AnswerSend(reply, refused)] + [HandleReply]
           == [StoreDone, AnswerSend(reply, refused), HandleReply];
  }

  // ----- how calls begin -----

  /** Nothing pending is an unsent message with this content. */
  predicate NoEqual(pending: seq<Record>, body: string) {
    forall p | p in pending :: p.restoreIntent || p.key.Operation? || p.body != body
  }

  /** A new message goes out under its own key; one that is pending already is retried as it is stored; and a caller
      who prepared with another queue is told so. */
  lemma SubmissionBegins(s: State, key: Key, body: string, epoch: nat)
    requires Enabled(s, Begin(None)) && s.page.calls[0] == Submit(key, body, Some(epoch))
    ensures var s' := Next(s, Begin(None));
            && s'.page == s.page.(calls := s.page.calls[1..])
            && s'.storage == s.storage && s'.host == s.host && s'.refresh == s.refresh
            && (s.view.None? || s.view.value.epoch != epoch ==>
                  s'.mutation == NoMutation && s'.inFlight == s.inFlight)
            && (s.view.Some? && s.view.value.epoch == epoch && NoEqual(s.page.pending, body) ==>
                  && s'.mutation == Storing(Record(key, epoch, None, false, body))
                  && s'.inFlight == s.inFlight + {key})
    ensures forall i | 0 <= i < |s.page.pending| && NoEqual(s.page.pending[..i], body)
                       && !NoEqual(s.page.pending[..i + 1], body) && s.view.Some? && s.view.value.epoch == epoch ::
              var s', previous := Next(s, Begin(None)), s.page.pending[i];
              && s'.mutation == (if previous.epoch == epoch then Querying(previous) else NoMutation)
              && s'.inFlight == s.inFlight
  {
    forall i | 0 <= i < |s.page.pending| && NoEqual(s.page.pending[..i], body)
               && !NoEqual(s.page.pending[..i + 1], body)
      ensures FirstMatch(s.page.pending, body) == Some(s.page.pending[i])
    {
      FirstIs(s.page.pending, body, i);
    }
  }

  lemma {:induction false} FirstIs(pending: seq<Record>, body: string, i: nat)
    requires i < |pending| && NoEqual(pending[..i], body) && !NoEqual(pending[..i + 1], body)
    ensures FirstMatch(pending, body) == Some(pending[i])
  {
    assert pending[..i + 1] == pending[..i] + [pending[i]];
    assert Matches(pending[i], body);
    if i > 0 {
      assert pending[0] in pending[..i];
      assert pending[..i][1..] == pending[1..][..i - 1];
      assert pending[..i + 1][1..] == pending[1..][..i];
      forall p | p in pending[1..][..i - 1]
        ensures p in pending[..i]
      {
        assert p in pending[..i][1..];
      }
      assert pending[1..][i - 1] in pending[1..][..i];
      FirstIs(pending[1..], body, i - 1);
    }
  }

  /** A retry asks for the queue first, and then works on the record it was called with, in its own queue only. */
  lemma RetryBegins(s: State, r: Record)
    requires Enabled(s, Begin(None)) && s.page.calls[0] == Retry(r)
    ensures var s' := Next(s, Begin(None));
            && s'.page == s.page.(calls := s.page.calls[1..], waits := Some(Retry(r)))
            && s'.refresh == (if s.refresh.NoRefresh? then Asked else s.refresh)
            && s'.mutation == NoMutation && s'.inFlight == s.inFlight && s'.storage == s.storage
  {
  }

  lemma RetryGoesOn(s: State, r: Record)
    requires Enabled(s, RefreshDone) && s.mutation == NoMutation && s.page.waits == Some(Retry(r))
    ensures var s' := Next(s, RefreshDone);
            && s'.refresh == NoRefresh && s'.page.waits == None && s'.storage == s.storage && s'.host == s.host
            && s'.mutation == (if r.epoch != s.refresh.current.epoch then NoMutation
                               else if r.Submits() then Querying(r) else Storing(r))
            && s'.inFlight == if s'.mutation.Storing? then s.inFlight + {r.key} else s.inFlight
  {
  }

  lemma Asks(s: State, r: Record, receipt: bool)
    requires s.mutation == Querying(r) && (receipt ==> r.key in s.host.taken)
    ensures Enabled(s, AnswerGet(receipt))
    ensures Next(s, AnswerGet(receipt))
            == s.(mutation := Queried(r, if r.epoch != s.host.now.epoch then Failure
                                         else if receipt then Receipt(s.host.now) else Refusal))
  {
  }

  lemma HandlesReceipt(s: State, r: Record)
    requires s.mutation.Queried? && s.mutation.record == r
    ensures Enabled(s, HandleGet)
    ensures Next(s, HandleGet)
            == match s.mutation.reply
               case Receipt(snapshot) =>
                 s.(view := Accept(s.view, snapshot, false), mutation := Marking(Acknowledged(r, snapshot)))
               case Refusal => Transmit(s, r)
               case Failure => s.(mutation := NoMutation)
  {
    hide Accept, Acknowledged;
  }

  lemma Marks(s: State, r: Record)
    requires s.mutation == Marking(r)
    ensures Enabled(s, MarkDone)
    ensures Next(s, MarkDone) == StartReading(Put(s, r).(mutation := NoMutation))
  {
  }

  /** A retried message that the host has is stored as accepted and not sent again. */
  lemma RetryFindsReceipt(s: State, r: Record) returns (s': State)
    requires s.mutation == Querying(r) && r.Submits() && r.key in s.host.taken && r.epoch == s.host.now.epoch
    ensures Leads(s, [AnswerGet(true), HandleGet, MarkDone], s')
    ensures s'.storage == s.storage[r.key := r.(accepted := Some(s.host.now.revision))]
    ensures s'.host == s.host && s'.sent == s.sent && s'.mutation == NoMutation && s'.inFlight == s.inFlight
    ensures s'.refused == s.refused && s'.dismissed == s.dismissed
  {
    hide Next, Enabled, Accept;
    Asks(s, r, true);
    LeadsOn(s, [], s, AnswerGet(true));
    var s1 := Next(s, AnswerGet(true));
    HandlesReceipt(s1, r);
    LeadsOn(s, [AnswerGet(true)], s1, HandleGet);
    var s2 := Next(s1, HandleGet);
    Marks(s2, Acknowledged(r, s.host.now));
    LeadsOn(s, [AnswerGet(true), HandleGet], s2, MarkDone);
    s' := Next(s2, MarkDone);
  }

  /** Any other is sent as it is stored, in its own queue only. */
  lemma RetryFindsNone(s: State, r: Record) returns (s': State)
    requires s.mutation == Querying(r)
    ensures Leads(s, [AnswerGet(false), HandleGet], s')
    ensures s'.storage == s.storage && s'.host == s.host && s'.view == s.view && s'.page == s.page
    ensures if r.epoch == s.host.now.epoch then s'.mutation == Storing(r) && s'.inFlight == s.inFlight + {r.key}
            else s'.mutation == NoMutation && s'.inFlight == s.inFlight
  {
    hide Next, Enabled;
    Asks(s, r, false);
    LeadsOn(s, [], s, AnswerGet(false));
    var s1 := Next(s, AnswerGet(false));
    HandlesReceipt(s1, r);
    LeadsOn(s, [AnswerGet(false)], s1, HandleGet);
    s' := Next(s1, HandleGet);
  }

  // ----- a refresh -----

  /** What a refresh makes of a stored record: an accepted message of a queue that is gone is doubtful again, and one
      that its queue has no more is done with. */
  function Refreshed(r: Record, now: Snapshot, inFlight: set<Key>): Option<Record> {
    if r.key.Operation? || r.accepted.None? || r.restoreIntent || r.key in inFlight then Some(r)
    else if r.epoch != now.epoch then Some(r.(accepted := None))
    else if r.key in now.items then Some(r)
    else None
  }

  /** The storage as it is read: each of its records once. */
  predicate Lists(records: seq<Record>, storage: map<Key, Record>) {
    && (forall i, k | 0 <= i < k < |records| :: records[i].key != records[k].key)
    && (forall i | 0 <= i < |records| :: Lookup(storage, records[i].key) == Some(records[i]))
  }

  predicate Names(records: seq<Record>, key: Key) {
    exists i | 0 <= i < |records| :: records[i].key == key
  }

  /** The storage with the listed records refreshed. */
  ghost predicate Collected(storage: map<Key, Record>, rest: seq<Record>, now: Snapshot, inFlight: set<Key>,
                            after: map<Key, Record>) {
    forall key :: Lookup(after, key)
                  == if key in storage && Names(rest, key) then Refreshed(storage[key], now, inFlight)
                     else Lookup(storage, key)
  }

  /** The code of the loop for its first record, with the storage effect it waits for if there is one. */
  lemma CollectsOne(s: State) returns (actions: seq<Action>, s': State)
    requires s.refresh.Collecting? && s.refresh.rest != []
    requires Lookup(s.storage, s.refresh.rest[0].key) == Some(s.refresh.rest[0])
    ensures Leads(s, actions, s')
    ensures var r, current := s.refresh.rest[0], s.refresh.current;
            && s' == s.(refresh := Collecting(s.refresh.rest[1..], current), storage := s'.storage, copies := s'.copies)
            && forall key :: Lookup(s'.storage, key) == if key == r.key then Refreshed(r, current, s.inFlight)
                                                        else Lookup(s.storage, key)
  {
    var r, current := s.refresh.rest[0], s.refresh.current;
    CollectStep(s);
    var s1 := Next(s, NextRecord);
    hide Next, Enabled, Collect;
    LeadsOn(s, [], s, NextRecord);
    actions, s' := [NextRecord], s1;
    if s1.refresh.Flagging? || s1.refresh.Removing? {
      var a := if s1.refresh.Flagging? then FlagDone else RemoveDone;
      CollectEffect(s1, a);
      LeadsOn(s, actions, s1, a);
      actions, s' := actions + [a], Next(s1, a);
    }
  }

  lemma CollectStep(s: State)
    requires s.refresh.Collecting? && s.refresh.rest != []
    ensures Enabled(s, NextRecord)
    ensures var r, rest, current := s.refresh.rest[0], s.refresh.rest[1..], s.refresh.current;
            Next(s, NextRecord)
            == s.(refresh := match Refreshed(r, current, s.inFlight)
                             case Some(after) =>
                               if after == r then Collecting(rest, current) else Flagging(r, rest, current)
                             case None => Removing(r, rest, current))
  {
  }

  lemma CollectEffect(s: State, a: Action)
    requires (s.refresh.Flagging? && a == FlagDone) || (s.refresh.Removing? && a == RemoveDone)
    ensures Enabled(s, a)
    ensures Next(s, a) == if a.FlagDone? then
                            Put(s, s.refresh.record.(accepted := None))
                              .(refresh := Collecting(s.refresh.rest, s.refresh.current))
                          else
                            Remove(s, s.refresh.record.key).(refresh := Collecting(s.refresh.rest, s.refresh.current))
  {
  }

  lemma {:induction false} CollectsAll(s: State) returns (actions: seq<Action>, s': State)
    requires s.refresh.Collecting? && Lists(s.refresh.rest, s.storage)
    ensures Leads(s, actions, s')
    ensures s' == s.(refresh := Collecting([], s.refresh.current), storage := s'.storage, copies := s'.copies)
    ensures Collected(s.storage, s.refresh.rest, s.refresh.current, s.inFlight, s'.storage)
    decreases |s.refresh.rest|
  {
    hide Next, Enabled, Refreshed, Collected, Lists;
    var rest, current := s.refresh.rest, s.refresh.current;
    if rest == [] {
      actions, s' := [], s;
      NothingCollected(s.storage, current, s.inFlight);
    } else {
      FirstOfList(rest, s.storage);
      var now, t := CollectsOne(s);
      RestOfList(rest, s.storage, t.storage);
      var later;
      later, s' := CollectsAll(t);
      LeadsFurther(s, now, t, later, s');
      actions := now + later;
      MoreCollected(s.storage, rest, current, s.inFlight, t.storage, s'.storage);
    }
  }

  lemma NothingCollected(storage: map<Key, Record>, now: Snapshot, inFlight: set<Key>)
    ensures Collected(storage, [], now, inFlight, storage)
  {
  }

  lemma FirstOfList(rest: seq<Record>, storage: map<Key, Record>)
    requires Lists(rest, storage) && rest != []
    ensures Lookup(storage, rest[0].key) == Some(rest[0])
  {
  }

  lemma RestOfList(rest: seq<Record>, storage: map<Key, Record>, after: map<Key, Record>)
    requires Lists(rest, storage) && rest != []
    requires forall key | key != rest[0].key :: Lookup(after, key) == Lookup(storage, key)
    ensures Lists(rest[1..], after)
  {
    forall i | 0 <= i < |rest[1..]|
      ensures Lookup(after, rest[1..][i].key) == Some(rest[1..][i])
    {
      assert rest[i + 1].key != rest[0].key;
    }
  }

  lemma MoreCollected(storage: map<Key, Record>, rest: seq<Record>, now: Snapshot, inFlight: set<Key>,
                      between: map<Key, Record>, after: map<Key, Record>)
    requires Lists(rest, storage) && rest != []
    requires forall key :: Lookup(between, key) == if key == rest[0].key then Refreshed(rest[0], now, inFlight)
                                                   else Lookup(storage, key)
    requires Collected(between, rest[1..], now, inFlight, after)
    ensures Collected(storage, rest, now, inFlight, after)
  {
    hide Refreshed;
    forall key: Key
      ensures Lookup(after, key)
              == if key in storage && Names(rest, key) then Refreshed(storage[key], now, inFlight)
                 else Lookup(storage, key)
    {
      NamesMore(rest, key);
      if key == rest[0].key {
        assert !Names(rest[1..], key);
      }
    }
  }

  lemma NamesMore(rest: seq<Record>, key: Key)
    requires rest != []
    ensures Names(rest, key) <==> rest[0].key == key || Names(rest[1..], key)
  {
    if Names(rest, key) && rest[0].key != key {
      var i :| 0 <= i < |rest| && rest[i].key == key;
      assert rest[1..][i - 1].key == key;
    }
    if Names(rest[1..], key) {
      var i :| 0 <= i < |rest[1..]| && rest[1..][i].key == key;
      assert rest[i + 1].key == key;
    }
  }

  lemma ListedAll(storage: map<Key, Record>, records: seq<Record>)
    requires Lists(records, storage) && forall key | key in storage :: Names(records, key)
    ensures forall r | r in records :: Lookup(storage, r.key) == Some(r)
    ensures forall key | key in storage :: storage[key] in records
  {
    forall key | key in storage
      ensures storage[key] in records
    {
      var i :| 0 <= i < |records| && records[i].key == key;
      assert Lookup(storage, key) == Some(records[i]);
    }
  }

  lemma Begins(s: State, records: seq<Record>) returns (actions: seq<Action>, s': State)
    requires s.refresh.NoRefresh? && Lists(records, s.storage) && forall key | key in s.storage :: Names(records, key)
    requires s.view.Some? ==> NotNewer(s.view.value.epoch, s.view.value.revision, s.host.now)
    ensures Leads(s, actions, s')
    ensures s' == s.(refresh := Collecting(records, s.host.now), view := Some(s.host.now))
  {
    var s1 := s.(refresh := Asked);
    var s2 := s.(refresh := Answered(s.host.now));
    var s3 := s.(refresh := Listing, view := Some(s.host.now));
    var s4 := s3.(refresh := Listed(records));
    s' := s4.(refresh := Collecting(records, s.host.now));
    BeginsByStep(s, StartRefresh, s1);
    BeginsByStep(s1, AnswerList, s2);
    BeginsByStep(s2, AcceptList, s3);
    ListedAll(s3.storage, records);
    BeginsByStep(s3, ReadStorage(records), s4);
    BeginsByStep(s4, TakeCurrent, s');
    hide Next, Enabled, Lists, Names;
    LeadsOn(s, [], s, StartRefresh);
    LeadsOn(s, [StartRefresh], s1, AnswerList);
    LeadsOn(s, [StartRefresh, AnswerList], s2, AcceptList);
    LeadsOn(s, [StartRefresh, AnswerList, AcceptList], s3, ReadStorage(records));
    assert [StartRefresh, AnswerList, AcceptList] + [ReadStorage(records)]
           == [StartRefresh, AnswerList, AcceptList, ReadStorage(records)];
    LeadsOn(s, [StartRefresh, AnswerList, AcceptList, ReadStorage(records)], s4, TakeCurrent);
    actions := [StartRefresh, AnswerList, AcceptList, ReadStorage(records), TakeCurrent];
    assert actions == [StartRefresh, AnswerList, AcceptList, ReadStorage(records)] + [TakeCurrent];
  }

  lemma BeginsByStep(s: State, a: Action, s': State)
    requires Enabled(s, a) && OfRefresh(a) && AfterRefresh(s, a) == s'
    ensures Next(s, a) == s'
  {
  }

  /** A refresh by itself shows the queue as the host has it, takes the acceptance back from the messages that were
      accepted by a queue that is gone, and forgets those that this queue accepted and has no more; drafts being
      restored, what is in flight, and all other records stay as they are. */
  lemma RefreshCollects(s: State, records: seq<Record>) returns (actions: seq<Action>, s': State)
    requires s.refresh.NoRefresh? && Lists(records, s.storage) && forall key | key in s.storage :: Names(records, key)
    requires s.view.Some? ==> NotNewer(s.view.value.epoch, s.view.value.revision, s.host.now)
    ensures Leads(s, actions, s')
    ensures s' == s.(view := Some(s.host.now), refresh := Publishing(s.host.now), storage := s'.storage,
                     copies := s'.copies, page := s.page.(reading := Issued(true)))
    ensures forall key :: Lookup(s'.storage, key)
                          == if key in s.storage then Refreshed(s.storage[key], s.host.now, s.inFlight) else None
  {
    hide Next, Enabled, Refreshed, Lists, Names;
    var begun, t := Begins(s, records);
    var collected, u := CollectsAll(t);
    LeadsFurther(s, begun, t, collected, u);
    LastOfLoop(u);
    LeadsOn(s, begun + collected, u, NextRecord);
    actions, s' := begun + collected + [NextRecord], Next(u, NextRecord);
  }

  lemma LastOfLoop(s: State)
    requires s.refresh.Collecting? && s.refresh.rest == []
    ensures Enabled(s, NextRecord)
    ensures Next(s, NextRecord)
            == s.(refresh := Publishing(s.refresh.current), page := s.page.(reading := Issued(true)))
  {
  }

  /** And then it shows the stored requests that are doubtful or being restored, unless they are in flight. */
  lemma RefreshPublishes(s: State, records: seq<Record>) returns (s': State)
    requires s.refresh.Publishing? && s.page.reading == Issued(true) && s.page.waits.None?
    requires Lists(records, s.storage) && forall key | key in s.storage :: Names(records, key)
    ensures Leads(s, [ReadPending(records), RefreshDone], s')
    ensures s' == s.(refresh := NoRefresh, page := s.page.(pending := s'.page.pending, reading := NotReading))
    ensures forall r :: r in s'.page.pending
                        <==> && Lookup(s.storage, r.key) == Some(r) && r.key !in s.inFlight
                             && (r.accepted.None? || r.restoreIntent)
  {
    ListedAll(s.storage, records);
    PendingIs(s.storage, records, s.inFlight);
    ReadsPending(s, records);
    var s1 := Next(s, ReadPending(records));
    EndsRefresh(s1);
    hide Next, Enabled, Names, Lists, IsPending;
    LeadsOn(s, [], s, ReadPending(records));
    assert [] + [ReadPending(records)] == [ReadPending(records)];
    LeadsOn(s, [ReadPending(records)], s1, RefreshDone);
    s' := Next(s1, RefreshDone);
    assert [ReadPending(records)] + [RefreshDone] == [ReadPending(records), RefreshDone];
  }

  lemma PendingIs(storage: map<Key, Record>, records: seq<Record>, inFlight: set<Key>)
    requires forall r | r in records :: Lookup(storage, r.key) == Some(r)
    requires forall key | key in storage :: storage[key] in records
    ensures forall r :: r in PendingOf(records, inFlight)
                        <==> && Lookup(storage, r.key) == Some(r) && r.key !in inFlight
                             && (r.accepted.None? || r.restoreIntent)
  {
  }

  lemma ReadsPending(s: State, records: seq<Record>)
    requires Enabled(s, ReadPending(records))
    ensures Next(s, ReadPending(records))
            == s.(page := s.page.(reading := Got(records, s.page.reading.ofRefresh)))
  {
  }

  lemma EndsRefresh(s: State)
    requires s.refresh.Publishing? && s.page.reading.Got? && s.page.reading.ofRefresh && s.page.waits.None?
    ensures Enabled(s, RefreshDone)
    ensures Next(s, RefreshDone)
            == s.(refresh := NoRefresh, page := s.page.(pending := PendingOf(s.page.reading.records, s.inFlight),
                                                        reading := NotReading))
  {
  }

  // ----- the other calls -----

  /** Dismissing forgets the record and nothing else, and asks nothing of the host. */
  lemma Dismisses(s: State, r: Record) returns (s': State)
    requires r in s.copies && r.key !in s.page.dismissing
    ensures Leads(s, [Dismiss(r), DismissDone(r.key)], s')
    ensures s'.storage == s.storage - {r.key} && s'.dismissed == s.dismissed + {r.key}
    ensures s'.page == s.page.(reading := Issued(false))
    ensures s'.host == s.host && s'.mutation == s.mutation && s'.inFlight == s.inFlight && s'.refresh == s.refresh
  {
    DismissSteps(s, r);
    hide Next, Enabled;
    var s1 := s.(page := s.page.(dismissing := s.page.dismissing + {r.key}));
    LeadsOn(s, [], s, Dismiss(r));
    assert [] + [Dismiss(r)] == [Dismiss(r)];
    LeadsOn(s, [Dismiss(r)], s1, DismissDone(r.key));
    s' := Next(s1, DismissDone(r.key));
    assert [Dismiss(r)] + [DismissDone(r.key)] == [Dismiss(r), DismissDone(r.key)];
    assert s.page.dismissing + {r.key} - {r.key} == s.page.dismissing;
  }

  lemma DismissSteps(s: State, r: Record)
    requires r in s.copies
    ensures var s1 := s.(page := s.page.(dismissing := s.page.dismissing + {r.key}));
            && Enabled(s, Dismiss(r)) && Next(s, Dismiss(r)) == s1
            && Enabled(s1, DismissDone(r.key))
            && Next(s1, DismissDone(r.key))
               == s1.(storage := s.storage - {r.key}, dismissed := s.dismissed + {r.key},
                      page := s1.page.(dismissing := s.page.dismissing + {r.key} - {r.key}, reading := Issued(false)))
  {
  }

  /** The intent to restore is stored with the whole record before anything else is asked for. */
  lemma StoresIntent(s: State, r: Record)
    requires r in s.copies
    ensures Enabled(s, PrepareRestore(r))
    ensures var s' := Next(s, PrepareRestore(r));
            && s'.storage == s.storage[r.key := r.(restoreIntent := true)]
            && s'.host == s.host && s'.mutation == s.mutation && s'.inFlight == s.inFlight && s'.refresh == s.refresh
  {
  }

  /** The answer to `receipt` is published unless it is of another queue or older than what is shown. */
  lemma ReceiptShown(s: State, snapshot: Snapshot)
    requires snapshot in s.receipts && s.view.Some?
    ensures Enabled(s, HandleReceipt(snapshot))
    ensures Next(s, HandleReceipt(snapshot))
            == if snapshot.epoch == s.view.value.epoch && snapshot.revision >= s.view.value.revision
               then s.(view := Some(snapshot)) else s
  {
  }

  /** A failure of the storage ends a mutation where it is, and a failed refresh leaves everything but the call that
      waited for it. */
  lemma FailuresEnd(s: State)
    ensures !s.mutation.NoMutation? ==>
              && Enabled(s, MutationFails)
              && var s' := Next(s, MutationFails);
              && s'.mutation == NoMutation && s'.storage == s.storage && s'.host == s.host && s'.view == s.view
              && s'.inFlight == (if s.mutation.Querying? || s.mutation.Queried? || s.mutation.Marking? then s.inFlight
                                 else s.inFlight - {s.mutation.record.key})
    ensures !s.refresh.NoRefresh? ==>
              && Enabled(s, RefreshFails)
              && var s' := Next(s, RefreshFails);
              && s'.refresh == NoRefresh && s'.page.waits == None && s'.storage == s.storage && s'.host == s.host
              && s'.view == s.view && s'.mutation == s.mutation && s'.inFlight == s.inFlight
              && s'.page.pending == s.page.pending && s'.page.calls == s.page.calls
  {
  }
}
