// When `prepareRestore` (HostDialogQueue.ts) keeps its promise, exactly, and states in which it does not.
module RestoreIntent {
  import opened Common
  import opened Outbox
  import opened OutboxSafety
  import opened RestoreHarm
  import opened RestoreKept
  import opened RestoreLost

  /** The exact condition, in any state of any run: a stored intent survives every run in which the caller does not ask
      to give the record up and the host does not refuse the message, if and only if nothing that is under way or
      waiting can do it harm: no refresh, no mutation, no call made before, no dismissal. */
  lemma KeptExactly(s: State, key: Key)
    requires Inv(s) && Kept(s, key) && key.Turn?
    ensures Losable(s, key) <==> Harms(s, key)
  {
    hide Inv, Kept, Harms, Quiet;
    if Harms(s, key) {
      HarmLoses(s, key);
    } else {
      forall actions
        ensures !Loses(s, actions, key)
      {
        if Quiet(s, actions, key) {
          HarmlessIsKept(s, actions, key);
        }
      }
    }
  }

  lemma PreparedIsKept(s: State, r: Record)
    requires Enabled(s, PrepareRestore(r))
    ensures Kept(Next(s, PrepareRestore(r)), r.key)
    ensures Harms(Next(s, PrepareRestore(r)), r.key) <==> Harms(s, r.key)
  {
    var s' := Next(s, PrepareRestore(r));
    assert RefreshHarms(s', r.key) <==> RefreshHarms(s, r.key);
    assert forall call :: CallHarms(s', call, r.key) <==> CallHarms(s, call, r.key);
  }

  /** The same for the call itself: `prepareRestore` keeps its promise if and only if nothing harmful is under way or
      waiting when the intent is stored. */
  lemma PrepareRestoreExactly(s: State, r: Record)
    requires Inv(s) && Enabled(s, PrepareRestore(r)) && r.key.Turn?
    ensures Kept(Next(s, PrepareRestore(r)), r.key)
    ensures Losable(Next(s, PrepareRestore(r)), r.key) <==> Harms(s, r.key)
  {
    hide Inv, Next, Enabled, Kept, Harms, Losable;
    InvNext(s, PrepareRestore(r));
    PreparedIsKept(s, r);
    KeptExactly(Next(s, PrepareRestore(r)), r.key);
  }

  /** The call is about the record: it was made with a copy of it or under its id, or would find one. */
  predicate About(page: Page, call: Call, key: Key) {
    match call
    case Retry(r) => r.key == key
    case Submit(own, body, _) =>
      own == key || (FirstMatch(page.pending, body).Some? && FirstMatch(page.pending, body).value.key == key)
    case Other(_, _) => false
  }

  /** What a caller can look at: with no refresh under way, and no mutation, call or dismissal of that record under way
      or waiting, the promise is kept. */
  lemma QuietPage(s: State, key: Key)
    requires s.refresh.NoRefresh? && (s.mutation.NoMutation? || s.mutation.record.key != key)
    requires s.page.waits.None? && forall call | call in s.page.calls :: !About(s.page, call, key)
    requires key !in s.page.dismissing
    ensures !Harms(s, key)
  {
    hide FirstMatch;
  }

  // ----- states in which the promise fails -----

  const MESSAGE := Record(Turn("m"), 0, None, false, "text")
  const OTHER := Record(Turn("o"), 0, None, false, "other text")
  const LISTED := Snapshot(0, 1, {})

  /** The host lists nothing, and the page has seen that. */
  function Example(r: Record, refresh: Refresh, mutation: Mutation, page: Page): State {
    var taken := if r.accepted.Some? then {r.key} else {};
    State(map[r.key := r], Some(LISTED), {}, refresh, mutation, page, Host(LISTED, taken), {}, {r}, {}, {}, {})
  }

  /** The refresh has read an acknowledged record that the host lists no more. */
  lemma RefreshBreaksPromise()
    ensures var r := MESSAGE.(accepted := Some(0));
            var s := Example(r, Listed([r]), NoMutation, NEW_PAGE);
            Inv(s) && Enabled(s, PrepareRestore(r)) && RefreshHarms(s, r.key)
  {
    var r := MESSAGE.(accepted := Some(0));
    assert r in [r] && ActedOn(r, LISTED);
  }

  /** A retry of the record is about to store it once more. */
  lemma RetryBreaksPromise()
    ensures var s := Example(MESSAGE, NoRefresh, Marking(MESSAGE), NEW_PAGE);
            Inv(s) && Enabled(s, PrepareRestore(MESSAGE)) && MutationHarms(s, MESSAGE.key)
  {
  }

  /** `retry` was called and waits for its refresh, which is asking the host. */
  const RETRYING := Example(MESSAGE, Asked, NoMutation, Page([], Some(Retry(MESSAGE)), [MESSAGE], NotReading, {}))

  const INTENDED := MESSAGE.(restoreIntent := true)

  /** The refresh ends, the host has no receipt, and the record is stored as it was when `retry` was called. */
  const RETRY_ENDS := [AnswerList, AcceptList, ReadStorage([INTENDED]), TakeCurrent, NextRecord, NextRecord,
                       ReadPending([INTENDED]), RefreshDone, AnswerGet(false), HandleGet, StoreDone]

  lemma LosesByStep(s: State, actions: seq<Action>, key: Key)
    requires actions != [] && Background(s, actions[0], key) && Loses(Next(s, actions[0]), actions[1..], key)
    ensures Loses(s, actions, key)
  {
    hide Next, Enabled;
  }

  /** The intent is stored. */
  const PREPARED :=
    RETRYING.(storage := map[MESSAGE.key := INTENDED], copies := {MESSAGE, INTENDED},
              page := RETRYING.page.(reading := Issued(false)))

  lemma PreparedIsNext()
    ensures Next(RETRYING, PrepareRestore(MESSAGE)) == PREPARED
  {
    hide AfterRefresh, AfterMutation, AfterChain, AfterHost;
  }

  /** The run, moment by moment. */
  function Moment(i: nat): State {
    if i < 8 then
      var refresh, reading :=
        if i == 0 then Asked
        else if i == 1 then Answered(LISTED)
        else if i == 2 then Listing
        else if i == 3 then Listed([INTENDED])
        else if i == 4 then Collecting([INTENDED], LISTED)
        else if i == 5 then Collecting([], LISTED)
        else Publishing(LISTED),
        if i < 6 then Issued(false) else if i == 6 then Issued(true) else Got([INTENDED], true);
      PREPARED.(refresh := refresh, page := PREPARED.page.(reading := reading))
    else
      var s := PREPARED.(refresh := NoRefresh, page := Page([], None, [INTENDED], NotReading, {}));
      if i == 8 then s.(mutation := Querying(MESSAGE))
      else if i == 9 then s.(mutation := Queried(MESSAGE, Refusal))
      else
        var storing := s.(mutation := Storing(MESSAGE), inFlight := {MESSAGE.key});
        if i == 10 then storing
        else
          StartReading(storing.(storage := map[MESSAGE.key := MESSAGE], mutation := Sending(MESSAGE),
                                sent := {MESSAGE.key}))
  }

  lemma RefreshMoment(i: nat)
    requires i < 6
    ensures Enabled(Moment(i), RETRY_ENDS[i]) && OfRefresh(RETRY_ENDS[i])
    ensures AfterRefresh(Moment(i), RETRY_ENDS[i]) == Moment(i + 1)
  {
    assert [INTENDED][1..] == [];
  }

  lemma ReadingMoment()
    ensures Enabled(Moment(6), RETRY_ENDS[6]) && AfterPage(Moment(6), RETRY_ENDS[6]) == Moment(7)
  {
  }

  lemma DoneMoment()
    ensures Enabled(Moment(7), RETRY_ENDS[7]) && AfterChain(Moment(7), RETRY_ENDS[7]) == Moment(8)
  {
    assert PendingOf([INTENDED], {}) == [INTENDED] + PendingOf([], {});
  }

  lemma MutationMoment(i: nat)
    requires 8 <= i < 11
    ensures Enabled(Moment(i), RETRY_ENDS[i]) && OfMutation(RETRY_ENDS[i])
    ensures AfterMutation(Moment(i), RETRY_ENDS[i]) == Moment(i + 1)
  {
    hide AfterRefresh, AfterChain, AfterPage, AfterHost;
  }

  lemma MomentNext(i: nat)
    requires i < 11
    ensures Background(Moment(i), RETRY_ENDS[i], MESSAGE.key) && Next(Moment(i), RETRY_ENDS[i]) == Moment(i + 1)
  {
    hide Moment, Enabled, AfterRefresh, AfterMutation, AfterChain, AfterPage, AfterHost;
    assert !GivesUp(Moment(i), RETRY_ENDS[i], MESSAGE.key) && !RETRY_ENDS[i].WithdrawDone?;
    if i < 6 {
      RefreshMoment(i);
    } else if i == 6 {
      ReadingMoment();
    } else if i == 7 {
      DoneMoment();
    } else {
      MutationMoment(i);
    }
  }

  lemma {:induction false} FromMoment(i: nat)
    requires i <= 11
    ensures Loses(Moment(i), RETRY_ENDS[i..], MESSAGE.key)
    decreases 11 - i
  {
    hide Moment, Background, Next;
    if i == 11 {
      LastMoment();
    } else {
      MomentNext(i);
      FromMoment(i + 1);
      assert RETRY_ENDS[i..][1..] == RETRY_ENDS[i + 1..];
      LosesByStep(Moment(i), RETRY_ENDS[i..], MESSAGE.key);
    }
  }

  lemma LastMoment()
    ensures !Kept(Moment(11), MESSAGE.key)
  {
  }

  /** A run in which the caller does nothing after `prepareRestore`. */
  lemma WaitingRetryBreaksPromise()
    ensures Inv(RETRYING) && Enabled(RETRYING, PrepareRestore(MESSAGE))
    ensures Loses(Next(RETRYING, PrepareRestore(MESSAGE)), RETRY_ENDS, MESSAGE.key)
  {
    hide Loses, Next;
    PreparedIsNext();
    FromMoment(0);
    assert RETRY_ENDS[0..] == RETRY_ENDS;
  }

  /** `retry` was called and waits behind another mutation. No refresh is under way. */
  const QUEUED := Example(MESSAGE, NoRefresh, Storing(OTHER), Page([Retry(MESSAGE)], None, [MESSAGE], NotReading, {}))

  lemma QueuedRetryBreaksPromise()
    ensures Inv(QUEUED) && Enabled(QUEUED, PrepareRestore(MESSAGE))
    ensures QUEUED.refresh.NoRefresh? && QUEUED.mutation.record.key != MESSAGE.key
    ensures Losable(Next(QUEUED, PrepareRestore(MESSAGE)), MESSAGE.key)
  {
    hide Losable, Next;
    assert Retry(MESSAGE) in QUEUED.page.calls && CallHarms(QUEUED, Retry(MESSAGE), MESSAGE.key);
    PrepareRestoreExactly(QUEUED, MESSAGE);
  }

  /** An equal message was submitted and waits, and the page still lists the record. */
  const SUBMITTED :=
    Example(MESSAGE, NoRefresh, Storing(OTHER),
            Page([Submit(Turn("n"), "text", None)], None, [MESSAGE], NotReading, {}))

  lemma EqualMessageBreaksPromise()
    ensures Inv(SUBMITTED) && Enabled(SUBMITTED, PrepareRestore(MESSAGE))
    ensures Losable(Next(SUBMITTED, PrepareRestore(MESSAGE)), MESSAGE.key)
  {
    hide Losable, Next;
    var call := Submit(Turn("n"), "text", None);
    assert call in SUBMITTED.page.calls && CallHarms(SUBMITTED, call, MESSAGE.key);
    PrepareRestoreExactly(SUBMITTED, MESSAGE);
  }
}
