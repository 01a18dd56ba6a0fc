// Without anything harmful under way or waiting, a stored restore intent stays.
module RestoreKept {
  import opened Common
  import opened Outbox
  import opened OutboxSafety
  import opened RestoreHarm

  lemma RefreshKeepsIntent(s: State, a: Action, key: Key)
    requires Enabled(s, a) && OfRefresh(a) && key.Turn?
    requires Kept(s, key) && !RefreshHarms(s, key)
    ensures Kept(AfterRefresh(s, a), key)
  {
    hide HarmIn, HarmInCopy;
  }

  lemma MutationKeepsIntent(s: State, a: Action, key: Key)
    requires Inv(s) && Background(s, a, key) && OfMutation(a) && key.Turn?
    requires Kept(s, key) && !MutationHarms(s, key)
    ensures Kept(AfterMutation(s, a), key)
  {
    hide ViewOk, StorageOk, CopiesOk, RefreshOk, InFlightOk, NothingLost, EpochsOk, CallsOk, WaitsOk, ListsOk;
    hide ReadingOk, GivesUp;
  }

  lemma PageKeepsIntent(s: State, a: Action, key: Key)
    requires Enabled(s, a) && OfPage(a)
    requires Kept(s, key) && key !in s.page.dismissing
    ensures Kept(AfterPage(s, a), key)
  {
  }

  lemma KeptNext(s: State, a: Action, key: Key)
    requires Inv(s) && Background(s, a, key) && key.Turn?
    requires Kept(s, key) && !Harms(s, key)
    ensures Kept(Next(s, a), key)
  {
    hide Inv, Enabled, AfterRefresh, AfterMutation, BeginCall, EndRefresh, AfterPage, RefreshHarms;
    hide MutationHarms, GivesUp;
    if OfRefresh(a) {
      RefreshKeepsIntent(s, a, key);
    } else if OfMutation(a) {
      MutationKeepsIntent(s, a, key);
    } else if OfPage(a) {
      PageKeepsIntent(s, a, key);
    }
  }

  // The refresh stays harmless.

  /** A published snapshot that lists the message and cannot be replaced by one that does not stays like that until the
      refresh goes on. */
  lemma StaysListed(s: State, a: Action, key: Key)
    requires Inv(s) && Enabled(s, a) && !OfRefresh(a) && !a.Reopen?
    requires s.view.Some? && key in s.view.value.items && !MayDrop(s, key)
    ensures var v, v' := s.view.value, Next(s, a).view;
            && v'.Some? && v'.value.epoch == v.epoch && key in v'.value.items
            && !MayDrop(Next(s, a), key)
  {
    hide Inv, Enabled, BeginCall, EndRefresh, AfterMutation, AfterPage, AfterHost, MayDrop;
    if OfMutation(a) {
      MutationLeavesListed(s, a, key);
    } else if OfHost(a) {
      HostLeavesListed(s, a, key);
    } else {
      SameMayDrop(s, Next(s, a), key);
    }
  }

  lemma MutationLeavesListed(s: State, a: Action, key: Key)
    requires Inv(s) && Enabled(s, a) && OfMutation(a)
    requires s.view.Some? && key in s.view.value.items && !MayDrop(s, key)
    ensures var v, v' := s.view.value, AfterMutation(s, a).view;
            && v'.Some? && v'.value.epoch == v.epoch && key in v'.value.items
            && !MayDrop(AfterMutation(s, a), key)
  {
    hide StorageOk, CopiesOk, RefreshOk, InFlightOk, NothingLost, EpochsOk, CallsOk, WaitsOk, ListsOk, ReadingOk;
  }

  lemma HostLeavesListed(s: State, a: Action, key: Key)
    requires Inv(s) && Enabled(s, a) && OfHost(a) && !a.Reopen?
    requires s.view.Some? && key in s.view.value.items && !MayDrop(s, key)
    ensures var v, v' := s.view.value, AfterHost(s, a).view;
            && v'.Some? && v'.value.epoch == v.epoch && key in v'.value.items
            && !MayDrop(AfterHost(s, a), key)
  {
    hide StorageOk, CopiesOk, RefreshOk, MutationOk, InFlightOk, NothingLost, EpochsOk, CallsOk, WaitsOk;
    hide ListsOk, ReadingOk;
  }

  /** The view and what may replace it are the same. */
  lemma SameMayDrop(s: State, s': State, key: Key)
    requires s.view.Some? && s'.view == s.view && s'.host == s.host && s'.receipts == s.receipts
    requires s'.mutation == s.mutation || !ReplyDrops(s'.mutation, s.view.value, key)
    requires !MayDrop(s, key)
    ensures !MayDrop(s', key)
  {
  }

  /** Other steps leave a refresh that has read the storage as it is, or end it. */
  lemma OthersLeaveRefresh(s: State, a: Action)
    requires Enabled(s, a) && !OfRefresh(a)
    ensures var after := Next(s, a).refresh; after == s.refresh || after.NoRefresh? || after.Asked?
  {
    hide Enabled, AfterMutation, AfterChain, AfterPage, AfterHost;
  }

  lemma CopyStaysHarmless(s: State, a: Action, r: Record, key: Key)
    requires Inv(s) && Enabled(s, a) && !OfRefresh(a) && !a.Reopen? && s.refresh.Listed?
    requires !RefreshHarms(s, key) && r in s.refresh.records
    ensures Next(s, a).view.Some? ==> !HarmInCopy(Next(s, a), r, key)
  {
    hide ViewOk, StorageOk, CopiesOk, MutationOk, InFlightOk, NothingLost, EpochsOk, CallsOk, WaitsOk;
    hide ListsOk, ReadingOk, MayDrop, Next, Enabled;
    assert s.view.Some? && !HarmInCopy(s, r, key);
    if Stale(r, key) && r.accepted.Some? {
      StaysListed(s, a, key);
    }
  }

  lemma NoHarmInCopies(s: State, key: Key)
    requires s.refresh.Listed?
    requires s.view.Some? ==> forall r | r in s.refresh.records :: !HarmInCopy(s, r, key)
    ensures !RefreshHarms(s, key)
  {
  }

  lemma ListedStaysHarmless(s: State, a: Action, key: Key)
    requires Inv(s) && Enabled(s, a) && !OfRefresh(a) && s.refresh.Listed?
    requires !RefreshHarms(s, key) && Next(s, a).refresh == s.refresh
    ensures !RefreshHarms(Next(s, a), key)
  {
    hide RefreshHarms, Inv, HarmInCopy, Enabled, AfterRefresh, AfterMutation, AfterChain, AfterPage, AfterHost;
    assert !a.Reopen?;
    forall r | r in s.refresh.records && Next(s, a).view.Some?
      ensures !HarmInCopy(Next(s, a), r, key)
    {
      CopyStaysHarmless(s, a, r, key);
    }
    NoHarmInCopies(Next(s, a), key);
  }

  /** What the storage holds under the key has the intent. */
  lemma ReadingIsHarmless(s: State, records: seq<Record>, key: Key)
    requires Enabled(s, ReadStorage(records)) && Kept(s, key)
    ensures !RefreshHarms(Next(s, ReadStorage(records)), key)
  {
    hide MayDrop, ActedOn;
    forall r | r in records
      ensures !Stale(r, key)
    {
      assert Lookup(s.storage, r.key) == Some(r);
    }
  }

  lemma TakingIsHarmless(s: State, key: Key)
    requires Enabled(s, TakeCurrent) && !RefreshHarms(s, key)
    ensures !RefreshHarms(Next(s, TakeCurrent), key)
  {
    hide MayDrop;
    forall r | r in s.refresh.records && Stale(r, key)
      ensures !ActedOn(r, s.view.value)
    {
      assert !HarmInCopy(s, r, key);
    }
  }

  lemma CollectingIsHarmless(s: State, key: Key)
    requires Enabled(s, NextRecord) && !RefreshHarms(s, key)
    ensures !RefreshHarms(Next(s, NextRecord), key)
  {
    hide MayDrop;
    var rest, current := s.refresh.rest, s.refresh.current;
    if rest != [] {
      assert !(Stale(rest[0], key) && ActedOn(rest[0], current));
      assert forall r | r in rest[1..] :: r in rest;
    }
  }

  lemma LoopStaysHarmless(s: State, a: Action, key: Key)
    requires Enabled(s, a) && OfRefresh(a)
    requires Kept(s, key) && !RefreshHarms(s, key)
    ensures !RefreshHarms(Next(s, a), key)
  {
    hide HarmIn, HarmInCopy, Kept;
    match a {
      case ReadStorage(records) => ReadingIsHarmless(s, records, key);
      case TakeCurrent => TakingIsHarmless(s, key);
      case NextRecord => CollectingIsHarmless(s, key);
      case _ =>
    }
  }

  lemma RefreshStaysHarmless(s: State, a: Action, key: Key)
    requires Inv(s) && Enabled(s, a)
    requires Kept(s, key) && !RefreshHarms(s, key)
    ensures !RefreshHarms(Next(s, a), key)
  {
    hide Inv, Next, Enabled, HarmInCopy;
    if OfRefresh(a) {
      LoopStaysHarmless(s, a, key);
    } else {
      OthersLeaveRefresh(s, a);
      if Next(s, a).refresh == s.refresh && s.refresh.Listed? {
        ListedStaysHarmless(s, a, key);
      }
    }
  }

  // The mutation stays harmless, and so does what may become one.

  lemma MutationGoesOnHarmless(s: State, a: Action, key: Key)
    requires Inv(s) && Enabled(s, a) && OfMutation(a) && !MutationHarms(s, key) && key.Turn?
    ensures !MutationHarms(AfterMutation(s, a), key)
  {
    hide StorageOk, CopiesOk, RefreshOk, InFlightOk, NothingLost, EpochsOk, CallsOk, WaitsOk, ListsOk, ReadingOk;
  }

  /** A harmless call does not begin a harmful mutation. */
  lemma ProceedsHarmless(s: State, call: Call, epoch: nat, key: Key)
    requires s.mutation.NoMutation? && key.Turn? && (call.Other? ==> call.key.Operation?)
    requires !CallHarms(s, call, key) || (epoch != s.host.now.epoch && !(call.Submit? && call.key == key))
    requires call.Submit? && call.prepared.Some? ==> call.prepared.value == epoch && CanSee(s, epoch)
    ensures !MutationHarms(Proceed(s, call, epoch), key)
  {
  }

  lemma BeginsHarmless(s: State, previous: Option<Record>, key: Key)
    requires Inv(s) && Enabled(s, Begin(previous)) && key.Turn? && !PageHarms(s, key)
    ensures !MutationHarms(BeginCall(s, previous), key)
  {
    hide ViewOk, StorageOk, CopiesOk, RefreshOk, MutationOk, InFlightOk, NothingLost, EpochsOk, WaitsOk;
    hide ListsOk, ReadingOk, Proceed, FirstMatch;
    var call := s.page.calls[0];
    var s' := s.(page := s.page.(calls := s.page.calls[1..]));
    assert CallOk(call, s.view, s.copies) && !CallHarms(s, call, key) && !CallHarms(s', call, key);
    match call {
      case Other(_, epoch) =>
        if previous.None? {
          ProceedsHarmless(s', call, epoch, key);
        }
      case Submit(_, _, Some(epoch)) =>
        if s.view.Some? && s.view.value.epoch == epoch {
          ProceedsHarmless(s', call, epoch, key);
        }
      case _ =>
    }
  }

  /** What a new reading lists is not stale. */
  lemma PublishedIsFresh(s: State, body: string, key: Key)
    requires Kept(s, key) && ReadingOk(s.page.reading, s.storage) && s.page.reading.Got?
    ensures !Picks(Publish(s).page, body, key)
  {
  }

  lemma DoneIsHarmless(s: State, key: Key)
    requires Inv(s) && Enabled(s, RefreshDone) && key.Turn? && Kept(s, key)
    requires !MutationHarms(s, key) && !PageHarms(s, key)
    ensures !MutationHarms(EndRefresh(s), key)
  {
    hide ViewOk, StorageOk, CopiesOk, RefreshOk, MutationOk, InFlightOk, NothingLost, EpochsOk, CallsOk;
    hide ListsOk, PendingOf, FirstMatch, Proceed;
    if s.page.waits.Some? {
      var call := s.page.waits.value;
      var published := if OfRefreshing(s.page.reading) then Publish(s) else s;
      var s' := published.(refresh := NoRefresh, page := published.page.(waits := None));
      if OfRefreshing(s.page.reading) && call.Submit? {
        PublishedIsFresh(s, call.body, key);
      }
      ProceedsHarmless(s', call, s.refresh.current.epoch, key);
    }
  }

  lemma ChainBeginsHarmless(s: State, a: Action, key: Key)
    requires Inv(s) && Enabled(s, a) && OfChain(a) && key.Turn? && Kept(s, key)
    requires !MutationHarms(s, key) && !PageHarms(s, key)
    ensures !MutationHarms(AfterChain(s, a), key)
  {
    hide Inv, PageHarms, Kept, BeginCall, EndRefresh, MutationHarms;
    if a.Begin? {
      BeginsHarmless(s, a.previous, key);
    } else {
      DoneIsHarmless(s, key);
    }
  }

  lemma MutationStaysHarmless(s: State, a: Action, key: Key)
    requires Inv(s) && Enabled(s, a) && key.Turn? && Kept(s, key)
    requires !MutationHarms(s, key) && !PageHarms(s, key)
    ensures !MutationHarms(Next(s, a), key)
  {
    hide Inv, PageHarms, Enabled, Kept, MutationHarms, AfterRefresh, AfterMutation, AfterChain, AfterPage, AfterHost;
    if OfChain(a) {
      ChainBeginsHarmless(s, a, key);
    } else if OfMutation(a) {
      MutationGoesOnHarmless(s, a, key);
    } else {
      OthersLeaveMutation(s, a, key);
    }
  }

  lemma OthersLeaveMutation(s: State, a: Action, key: Key)
    requires Inv(s) && Enabled(s, a) && !OfMutation(a) && !OfChain(a) && !MutationHarms(s, key)
    ensures !MutationHarms(Next(s, a), key)
  {
    hide StorageOk, CopiesOk, RefreshOk, InFlightOk, NothingLost, EpochsOk, CallsOk, WaitsOk, ListsOk;
    hide ReadingOk, Enabled;
    hide AfterRefresh, AfterMutation, AfterChain, AfterPage, AfterHost;
  }

  // What waits stays harmless.

  lemma PicksNoMore(s: State, a: Action, body: string, key: Key)
    requires Inv(s) && Enabled(s, a) && Kept(s, key) && Picks(Next(s, a).page, body, key)
    ensures Picks(s.page, body, key)
  {
    hide ViewOk, StorageOk, CopiesOk, RefreshOk, MutationOk, InFlightOk, NothingLost, EpochsOk, CallsOk;
    hide WaitsOk, ListsOk, AfterRefresh, AfterMutation, Proceed, PendingOf;
    if a.PublishPending? || (a.RefreshDone? && OfRefreshing(s.page.reading)) {
      PublishedIsFresh(s, body, key);
    } else {
      PendingStays(s, a);
    }
  }

  lemma PendingStays(s: State, a: Action)
    requires Enabled(s, a) && !a.PublishPending? && !(a.RefreshDone? && OfRefreshing(s.page.reading)) && !a.Reopen?
    ensures Next(s, a).page.pending == s.page.pending
  {
    hide AfterRefresh, AfterMutation, Proceed, RetryRecord, PendingOf, FirstMatch;
  }

  lemma EpochGrows(s: State, a: Action)
    requires Enabled(s, a)
    ensures s.host.now.epoch <= Next(s, a).host.now.epoch
  {
    hide Enabled, AfterRefresh, AfterMutation, AfterChain, AfterPage, AfterHost;
  }

  lemma SeesNoMore(s: State, a: Action, epoch: nat)
    requires Inv(s) && Enabled(s, a) && epoch <= s.host.now.epoch && CanSee(Next(s, a), epoch)
    ensures CanSee(s, epoch)
  {
    hide Inv, Enabled, AfterRefresh, AfterMutation, AfterPage, AfterChain, AfterHost;
    if OfMutation(a) {
      MutationSeesNoMore(s, a, epoch);
    } else if OfRefresh(a) || OfHost(a) {
      OthersSeeNoMore(s, a, epoch);
    }
  }

  lemma MutationSeesNoMore(s: State, a: Action, epoch: nat)
    requires Inv(s) && Enabled(s, a) && OfMutation(a) && CanSee(AfterMutation(s, a), epoch)
    ensures CanSee(s, epoch)
  {
    hide ViewOk, StorageOk, CopiesOk, RefreshOk, InFlightOk, NothingLost, EpochsOk, CallsOk, WaitsOk, ListsOk;
    hide ReadingOk;
  }

  lemma OthersSeeNoMore(s: State, a: Action, epoch: nat)
    requires Inv(s) && Enabled(s, a) && (OfRefresh(a) || OfHost(a))
    requires epoch <= s.host.now.epoch && CanSee(Next(s, a), epoch)
    ensures CanSee(s, epoch)
  {
    hide StorageOk, CopiesOk, RefreshOk, MutationOk, InFlightOk, NothingLost, EpochsOk, CallsOk, WaitsOk;
    hide ListsOk, ReadingOk;
  }

  lemma CallStaysHarmless(s: State, a: Action, call: Call, key: Key)
    requires Inv(s) && Enabled(s, a) && Kept(s, key) && CallOk(call, s.view, s.copies)
    requires CallHarms(Next(s, a), call, key)
    ensures CallHarms(s, call, key)
    ensures !(call.Submit? && call.key == key) ==> Next(s, a).host.now.epoch == s.host.now.epoch
  {
    hide StorageOk, CopiesOk, RefreshOk, MutationOk, InFlightOk, NothingLost, CallsOk, WaitsOk, ReadingOk;
    hide Enabled, Next, FirstMatch;
    EpochGrows(s, a);
    if call.Submit? {
      if call.prepared.Some? && CanSee(Next(s, a), call.prepared.value) {
        SeesNoMore(s, a, call.prepared.value);
      }
      if Picks(Next(s, a).page, call.body, key) {
        PicksNoMore(s, a, call.body, key);
        SamePick(s, a, call.body, key);
      }
    }
  }

  lemma SamePick(s: State, a: Action, body: string, key: Key)
    requires Inv(s) && Enabled(s, a) && Kept(s, key) && Picks(Next(s, a).page, body, key)
    ensures FirstMatch(Next(s, a).page.pending, body) == FirstMatch(s.page.pending, body)
    ensures FirstMatch(s.page.pending, body).value in s.copies
  {
    hide ViewOk, StorageOk, CopiesOk, RefreshOk, MutationOk, InFlightOk, NothingLost, EpochsOk, CallsOk;
    hide WaitsOk, AfterRefresh, AfterMutation, Proceed, PendingOf;
    if a.PublishPending? || (a.RefreshDone? && OfRefreshing(s.page.reading)) {
      PublishedIsFresh(s, body, key);
    } else {
      PendingStays(s, a);
    }
  }

  /** The epoch a refresh ends with is settled when it has its answer. */
  lemma EndStays(s: State, a: Action)
    requires Inv(s) && Enabled(s, a) && Next(s, a).page.waits.Some? && s.page.waits.Some?
    requires Next(s, a).host.now.epoch == s.host.now.epoch
    ensures EndsWith(Next(s, a)) == EndsWith(s)
  {
    hide ViewOk, StorageOk, CopiesOk, RefreshOk, MutationOk, InFlightOk, NothingLost, EpochsOk, CallsOk;
    hide ListsOk, ReadingOk, EndsWith, AfterMutation, BeginCall, EndRefresh, AfterPage;
    if OfRefresh(a) {
      RefreshKeepsEnd(s, a);
    } else {
      SameEnd(s, a);
    }
  }

  lemma RefreshKeepsEnd(s: State, a: Action)
    requires Inv(s) && Enabled(s, a) && OfRefresh(a) && !a.StartRefresh? && !a.RefreshFails?
    ensures EndsWith(AfterRefresh(s, a)) == EndsWith(s)
  {
    hide ViewOk, StorageOk, CopiesOk, MutationOk, InFlightOk, NothingLost, EpochsOk, CallsOk, WaitsOk;
    hide ListsOk, ReadingOk, AllSeen;
  }

  lemma SameEnd(s: State, a: Action)
    requires Inv(s) && Enabled(s, a) && !OfRefresh(a) && !a.Reopen? && !s.refresh.NoRefresh?
    requires Next(s, a).refresh == s.refresh && Next(s, a).host.now.epoch == s.host.now.epoch
    ensures EndsWith(Next(s, a)) == EndsWith(s)
  {
    hide ViewOk, StorageOk, CopiesOk, MutationOk, InFlightOk, NothingLost, EpochsOk, CallsOk, WaitsOk, ListsOk;
    hide ReadingOk, AllSeen, Next, Enabled;
    if s.view.Some? {
      ViewStaysInEpoch(s, a);
    }
  }

  lemma ViewStaysInEpoch(s: State, a: Action)
    requires Inv(s) && Enabled(s, a) && !OfRefresh(a) && !a.Reopen? && s.view.Some?
    ensures Next(s, a).view.Some? && Next(s, a).view.value.epoch == s.view.value.epoch
  {
    hide ViewOk, StorageOk, CopiesOk, RefreshOk, InFlightOk, NothingLost, EpochsOk, CallsOk, WaitsOk, ListsOk;
    hide ReadingOk, Enabled, AfterMutation, AfterChain, AfterPage;
    if OfMutation(a) {
      MutationStaysInEpoch(s, a);
    }
  }

  lemma MutationStaysInEpoch(s: State, a: Action)
    requires MutationOk(s.mutation, s.view, s.host) && Enabled(s, a) && OfMutation(a) && s.view.Some?
    ensures AfterMutation(s, a).view.Some? && AfterMutation(s, a).view.value.epoch == s.view.value.epoch
  {
  }

  lemma CallsStayHarmless(s: State, a: Action, key: Key)
    requires Inv(s) && Background(s, a, key) && Kept(s, key) && !PageHarms(s, key)
    ensures forall call | call in Next(s, a).page.calls :: !CallHarms(Next(s, a), call, key)
  {
    hide ViewOk, StorageOk, CopiesOk, RefreshOk, MutationOk, InFlightOk, NothingLost, EpochsOk, WaitsOk;
    hide ListsOk, ReadingOk, CallHarms, Next, Enabled, Kept, GivesUp;
    forall call | call in Next(s, a).page.calls
      ensures !CallHarms(Next(s, a), call, key)
    {
      if call in s.page.calls {
        if CallHarms(Next(s, a), call, key) {
          CallStaysHarmless(s, a, call, key);
        }
      } else {
        NewCallIsHarmless(s, a, call, key);
      }
    }
  }

  lemma NewCallIsHarmless(s: State, a: Action, call: Call, key: Key)
    requires Background(s, a, key) && call in Next(s, a).page.calls && call !in s.page.calls
    ensures !CallHarms(Next(s, a), call, key)
  {
    hide AfterRefresh, AfterMutation, AfterHost, Proceed, RetryRecord, PendingOf, FirstMatch;
    assert a.CallRetry? || a.CallSubmit? || a.CallOther?;
    assert call == Next(s, a).page.calls[|s.page.calls|];
  }

  lemma WaitStaysHarmless(s: State, a: Action, key: Key)
    requires Inv(s) && Enabled(s, a) && Kept(s, key) && !PageHarms(s, key) && Next(s, a).page.waits.Some?
    ensures !WaitHarms(Next(s, a), Next(s, a).page.waits.value, key)
  {
    hide ViewOk, StorageOk, CopiesOk, RefreshOk, MutationOk, InFlightOk, NothingLost, EpochsOk, WaitsOk;
    hide ListsOk, ReadingOk, CallHarms, Next, Enabled, Kept, EndsWith;
    var call := Next(s, a).page.waits.value;
    WaitsOn(s, a);
    if CallHarms(Next(s, a), call, key) {
      CallStaysHarmless(s, a, call, key);
      if s.page.waits.Some? && !(call.Submit? && call.key == key) {
        EndStays(s, a);
      }
    }
  }

  lemma WaitsOn(s: State, a: Action)
    requires Enabled(s, a) && Next(s, a).page.waits.Some?
    ensures Next(s, a).page.waits == s.page.waits
            || (s.page.waits.None? && s.page.calls != [] && Next(s, a).page.waits.value == s.page.calls[0])
  {
    hide AfterRefresh, AfterMutation, AfterPage, AfterHost, Proceed, RetryRecord, PendingOf, FirstMatch;
  }

  lemma DismissingStays(s: State, a: Action, key: Key)
    requires Background(s, a, key) && key !in s.page.dismissing
    ensures key !in Next(s, a).page.dismissing
  {
    hide AfterRefresh, AfterMutation, AfterChain, AfterHost, PendingOf, FirstMatch;
  }

  lemma PageStaysHarmless(s: State, a: Action, key: Key)
    requires Inv(s) && Background(s, a, key) && Kept(s, key) && !PageHarms(s, key)
    ensures !PageHarms(Next(s, a), key)
  {
    hide Inv, Next, Enabled, GivesUp, CallHarms, WaitHarms, Kept;
    DismissingStays(s, a, key);
    CallsStayHarmless(s, a, key);
    if Next(s, a).page.waits.Some? {
      WaitStaysHarmless(s, a, key);
    }
  }

  lemma {:induction false} HarmlessIsKept(s: State, actions: seq<Action>, key: Key)
    requires Inv(s) && Quiet(s, actions, key) && key.Turn?
    requires Kept(s, key) && !Harms(s, key)
    ensures Kept(Run(s, actions), key)
    decreases |actions|
  {
    hide Inv, Next, Enabled, RefreshHarms, MutationHarms, PageHarms, GivesUp, Kept;
    if actions != [] {
      var a := actions[0];
      InvNext(s, a);
      KeptNext(s, a, key);
      RefreshStaysHarmless(s, a, key);
      MutationStaysHarmless(s, a, key);
      PageStaysHarmless(s, a, key);
      HarmlessIsKept(Next(s, a), actions[1..], key);
    }
  }
}
