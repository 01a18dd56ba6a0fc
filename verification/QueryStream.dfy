// The event stream of one query in the TypeScript SDK (sdk/typescript/src/query.ts): a queue of items nobody has
// asked for yet, and a queue of calls of `next` that nothing has come for yet.
module QueryStream {
  import opened Common

  const MAX_BUFFERED_ITEMS := 1024
  const MAX_BUFFERED_EVENT_BYTES := 1024 * 1024

  /** An event with the length of its JSON text and, for a permission request, the request's id; or the result. */
  datatype Item = Event(sequence: nat, length: nat, permission: Option<string>) | Result

  /** What a call of `next` comes to. */
  datatype Outcome = Value(item: Item) | Done | Rejected

  type Call = nat

  function BufferedItemBytes(item: Item): nat {
    if item.Result? then 0 else item.length + 128
  }

  function TotalBytes(items: seq<Item>): nat {
    if items == [] then 0 else TotalBytes(items[..|items| - 1]) + BufferedItemBytes(items[|items| - 1])
  }

  lemma {:induction false} TotalOfRest(items: seq<Item>)
    requires items != []
    ensures TotalBytes(items) == BufferedItemBytes(items[0]) + TotalBytes(items[1..])
  {
    var n := |items| - 1;
    if n > 0 {
      TotalOfRest(items[..n]);
      assert items[..n][1..] == items[1..][..n - 1];
    }
  }

  /** Calls are settled in the order they were made, once each, and the rest of them wait in that order. */
  ghost predicate CallsOk(settled: seq<(Call, Outcome)>, waiters: seq<Call>, calls: nat) {
    && calls == |settled| + |waiters|
    && (forall i | 0 <= i < |settled| :: settled[i].0 == i)
    && (forall i | 0 <= i < |waiters| :: waiters[i] == |settled| + i)
  }

  /** The calls got the items in order, and the buffer holds those that no call has come for. Only an ended stream
      settles calls in any other way. */
  ghost predicate OutcomesOk(settled: seq<(Call, Outcome)>, pushed: seq<Item>, items: seq<Item>, terminal: bool,
                             failed: bool) {
    var delivered := |pushed| - |items|;
    && 0 <= delivered <= |settled|
    && items == pushed[delivered..]
    && (forall i | 0 <= i < delivered :: settled[i].1 == Value(pushed[i]))
    && (forall i | delivered <= i < |settled| :: settled[i].1 == if failed then Rejected else Done)
    && (delivered < |settled| ==> terminal && items == [])
  }

  ghost predicate BufferOk(items: seq<Item>, bufferedBytes: nat) {
    && bufferedBytes == TotalBytes(items)
    && |items| <= MAX_BUFFERED_ITEMS && bufferedBytes <= MAX_BUFFERED_EVENT_BYTES
  }

  /** The events have consecutive sequences, and the result comes last. */
  ghost predicate SequenceOk(pushed: seq<Item>, terminal: bool, failed: bool, lastSequence: nat) {
    && (forall i | 0 <= i < |pushed| && pushed[i].Event? :: pushed[i].sequence == i + 1)
    && (forall i | 0 <= i < |pushed| && pushed[i].Result? :: i == |pushed| - 1)
    && (terminal && !failed <==> pushed != [] && pushed[|pushed| - 1].Result?)
    && (!terminal ==> lastSequence == |pushed|)
  }

  lemma HandOver(settled: seq<(Call, Outcome)>, waiters: seq<Call>, calls: nat, pushed: seq<Item>, items: seq<Item>,
                 failed: bool, item: Item)
    requires CallsOk(settled, waiters, calls) && OutcomesOk(settled, pushed, items, false, failed)
    requires waiters != [] && items == []
    ensures CallsOk(settled + [(waiters[0], Value(item))], waiters[1..], calls)
    ensures OutcomesOk(settled + [(waiters[0], Value(item))], pushed + [item], items, false, failed)
  {
  }

  lemma Buffer(settled: seq<(Call, Outcome)>, pushed: seq<Item>, items: seq<Item>, failed: bool, item: Item)
    requires OutcomesOk(settled, pushed, items, false, failed)
    ensures OutcomesOk(settled, pushed + [item], items + [item], false, failed)
    ensures TotalBytes(items + [item]) == TotalBytes(items) + BufferedItemBytes(item)
  {
    assert (items + [item])[..|items|] == items;
  }

  lemma Unbuffer(settled: seq<(Call, Outcome)>, waiters: seq<Call>, calls: nat, pushed: seq<Item>, items: seq<Item>,
                 terminal: bool, failed: bool)
    requires CallsOk(settled, waiters, calls) && OutcomesOk(settled, pushed, items, terminal, failed)
    requires items != [] && waiters == []
    ensures CallsOk(settled + [(calls, Value(items[0]))], [], calls + 1)
    ensures OutcomesOk(settled + [(calls, Value(items[0]))], pushed, items[1..], terminal, failed)
    ensures TotalBytes(items) == BufferedItemBytes(items[0]) + TotalBytes(items[1..])
  {
    TotalOfRest(items);
  }

  /** A call that nothing will come for. */
  lemma Dismiss(settled: seq<(Call, Outcome)>, waiters: seq<Call>, calls: nat, pushed: seq<Item>, failed: bool,
                call: Call)
    requires CallsOk(settled, waiters, calls) && OutcomesOk(settled, pushed, [], true, failed)
    ensures waiters != [] && call == waiters[0] ==>
              CallsOk(settled + [(call, if failed then Rejected else Done)], waiters[1..], calls)
    ensures waiters == [] && call == calls ==>
              CallsOk(settled + [(call, if failed then Rejected else Done)], [], calls + 1)
    ensures OutcomesOk(settled + [(call, if failed then Rejected else Done)], pushed, [], true, failed)
  {
  }

  lemma Ended(settled: seq<(Call, Outcome)>, pushed: seq<Item>, items: seq<Item>, failed: bool)
    requires OutcomesOk(settled, pushed, items, false, false)
    ensures OutcomesOk(settled, pushed, items, true, failed)
  {
  }

  class Query {
    var items: seq<Item>
    var waiters: seq<Call>
    var lastSequence: nat
    var terminal: bool
    var failed: bool
    var bufferedBytes: nat
    var pendingPermissionIds: set<string>
    var aborted: bool                       // the connection was told to give up
    var calls: nat                          // calls of `next` so far
    var settled: seq<(Call, Outcome)>       // in the order in which they were settled
    ghost var pushed: seq<Item>             // everything the host sent that was taken in
    ghost var broken: bool                  // something the host sent was not taken in

    ghost predicate Valid()
      reads this
    {
      && CallsOk(settled, waiters, calls)
      && OutcomesOk(settled, pushed, items, terminal, failed)
      && BufferOk(items, bufferedBytes)
      && (waiters != [] ==> items == [] && !terminal)
      && (!broken ==> SequenceOk(pushed, terminal, failed, lastSequence))
      && (failed ==> terminal)
      && (terminal ==> pendingPermissionIds == {})
    }

    constructor ()
      ensures Valid() && !terminal && !failed && !broken && !aborted
      ensures calls == 0 && lastSequence == 0 && pushed == [] && pendingPermissionIds == {}
    {
      items, waiters, lastSequence, terminal, failed, bufferedBytes := [], [], 0, false, false, 0;
      pendingPermissionIds, aborted, calls, settled := {}, false, 0, [];
      pushed, broken := [], false;
    }

    /** A call waits, or the buffer can hold the item too. */
    ghost predicate Room(item: Item)
      reads this
    {
      || waiters != []
      || (|items| < MAX_BUFFERED_ITEMS && bufferedBytes + BufferedItemBytes(item) <= MAX_BUFFERED_EVENT_BYTES)
    }

    /** What the consumer can see, and what it waits for, is as it was. */
    twostate predicate Untouched()
      reads this
    {
      && items == old(items) && waiters == old(waiters) && settled == old(settled) && calls == old(calls)
      && bufferedBytes == old(bufferedBytes) && pushed == old(pushed)
    }

    /** The item went to the first waiting call, or else to the end of the buffer. */
    twostate predicate HandedOn(item: Item)
      reads this
    {
      && pushed == old(pushed) + [item] && calls == old(calls)
      && (old(waiters) != [] ==>
            && settled == old(settled) + [(old(waiters)[0], Value(item))] && waiters == old(waiters)[1..]
            && items == old(items))
      && (old(waiters) == [] ==>
            && settled == old(settled) && waiters == []
            && items == old(items) + [item])
    }

    /** `#push`: to the first waiting call if there is one, else into the buffer if it has room. */
    method Push(item: Item) returns (taken: bool)
      requires CallsOk(settled, waiters, calls) && OutcomesOk(settled, pushed, items, false, false)
               && BufferOk(items, bufferedBytes)
      requires waiters != [] ==> items == []
      modifies this`items, this`waiters, this`bufferedBytes, this`aborted, this`settled, this`pushed, this`broken
      ensures CallsOk(settled, waiters, calls) && OutcomesOk(settled, pushed, items, false, false)
              && BufferOk(items, bufferedBytes)
      ensures waiters != [] ==> items == []
      ensures taken <==> old(Room(item))
      ensures taken ==> HandedOn(item) && aborted == old(aborted) && broken == old(broken)
      ensures !taken ==> Untouched() && aborted && broken
    {
      hide CallsOk, OutcomesOk, TotalBytes;
      if waiters != [] {
        HandOver(settled, waiters, calls, pushed, items, false, item);
        settled := settled + [(waiters[0], Value(item))];
        waiters := waiters[1..];
        pushed := pushed + [item];
        return true;
      }
      var itemBytes := BufferedItemBytes(item);
      if |items| >= MAX_BUFFERED_ITEMS || bufferedBytes + itemBytes > MAX_BUFFERED_EVENT_BYTES {
        aborted, broken := true, true;
        return false;
      }
      Buffer(settled, pushed, items, false, item);
      items := items + [item];
      bufferedBytes := bufferedBytes + itemBytes;
      pushed := pushed + [item];
      taken := true;
    }

    /** `#onEvent`; `ok` is false where it throws. */
    method OnEvent(sameQuery: bool, sequence: nat, length: nat, permission: Option<string>) returns (ok: bool)
      requires Valid()
      modifies this
      ensures Valid() && terminal == old(terminal) && failed == old(failed)
      ensures ok <==> && sameQuery && !old(terminal) && sequence == old(lastSequence) + 1
                      && !(permission.Some? && permission.value in old(pendingPermissionIds))
      ensures lastSequence == if sameQuery && !terminal && sequence == old(lastSequence) + 1 then sequence
                              else old(lastSequence)
      ensures pendingPermissionIds
              == if ok && permission.Some? then old(pendingPermissionIds) + {permission.value}
                 else old(pendingPermissionIds)
      ensures var event := Event(sequence, length, permission);
              if ok && old(Room(event)) then HandedOn(event) && aborted == old(aborted) && broken == old(broken)
              else Untouched() && broken && aborted == (ok || old(aborted))
    {
      hide CallsOk, OutcomesOk, BufferOk;
      if !sameQuery || terminal || sequence != lastSequence + 1 {
        broken := true;
        return false;
      }
      lastSequence := sequence;
      if permission.Some? {
        if permission.value in pendingPermissionIds {
          broken := true;
          return false;
        }
        pendingPermissionIds := pendingPermissionIds + {permission.value};
      }
      var taken := Push(Event(sequence, length, permission));
      ok := true;
    }

    /** The waiting calls are told that nothing will come. */
    method Release()
      requires terminal && CallsOk(settled, waiters, calls) && OutcomesOk(settled, pushed, items, true, failed)
      requires waiters != [] ==> items == []
      modifies this`waiters, this`settled
      ensures CallsOk(settled, waiters, calls) && OutcomesOk(settled, pushed, items, true, failed) && waiters == []
      ensures old(settled) <= settled
    {
      hide CallsOk, OutcomesOk;
      while waiters != []
        invariant CallsOk(settled, waiters, calls) && OutcomesOk(settled, pushed, items, true, failed)
        invariant old(settled) <= settled
        invariant waiters != [] ==> items == []
        decreases |waiters|
      {
        Dismiss(settled, waiters, calls, pushed, failed, waiters[0]);
        settled := settled + [(waiters[0], if failed then Rejected else Done)];
        waiters := waiters[1..];
      }
    }

    /** `#onResult`. */
    method OnResult(sameQuery: bool) returns (ok: bool)
      requires Valid()
      modifies this
      ensures Valid() && lastSequence == old(lastSequence) && failed == old(failed)
      ensures ok <==> sameQuery && !old(terminal)
      ensures terminal == (old(terminal) || (ok && old(Room(Result))))
      ensures pendingPermissionIds == if terminal then {} else old(pendingPermissionIds)
      ensures if ok && old(Room(Result)) then
                && pushed == old(pushed) + [Result] && calls == old(calls) && old(settled) <= settled
                && items == (if old(waiters) == [] then old(items) + [Result] else []) && waiters == []
                && broken == old(broken) && aborted == old(aborted)
              else Untouched() && broken && aborted == (ok || old(aborted))
    {
      hide CallsOk, OutcomesOk, BufferOk;
      if !sameQuery || terminal {
        broken := true;
        return false;
      }
      var taken := Push(Result);
      if !taken {
        return true;
      }
      terminal := true;
      pendingPermissionIds := {};
      Ended(settled, pushed, items, false);
      Release();
      ok := true;
    }

    method OnConnectionFailure()
      requires Valid()
      modifies this
      ensures Valid() && terminal && waiters == [] && calls == old(calls) && old(settled) <= settled
      ensures pushed == old(pushed) && items == old(items) && broken == old(broken) && aborted == old(aborted)
      ensures lastSequence == old(lastSequence)
      ensures failed == (old(failed) || !old(terminal))
    {
      hide CallsOk, OutcomesOk, BufferOk;
      if terminal {
        return;
      }
      terminal, failed := true, true;
      pendingPermissionIds := {};
      Ended(settled, pushed, items, true);
      Release();
    }

    /** `respondPermission`, as far as the query keeps count of it. */
    method RespondPermission(requestId: string) returns (known: bool)
      requires Valid()
      modifies this`pendingPermissionIds
      ensures Valid()
      ensures known <==> requestId in old(pendingPermissionIds)
      ensures pendingPermissionIds == old(pendingPermissionIds) - {requestId}
    {
      known := requestId in pendingPermissionIds;
      pendingPermissionIds := pendingPermissionIds - {requestId};
    }

    /** `#next`. The call's outcome is in `settled` once it has one. */
    method Next() returns (call: Call)
      requires Valid()
      modifies this`items, this`waiters, this`bufferedBytes, this`settled, this`calls
      ensures Valid() && call == old(calls) && calls == call + 1
      ensures old(items) != [] ==>
                && settled == old(settled) + [(call, Value(old(items)[0]))]
                && items == old(items)[1..] && waiters == []
      ensures old(items) == [] && terminal ==>
                && settled == old(settled) + [(call, if failed then Rejected else Done)]
                && items == [] && waiters == []
      ensures old(items) == [] && !terminal ==>
                settled == old(settled) && items == [] && waiters == old(waiters) + [call]
    {
      hide CallsOk, OutcomesOk, TotalBytes;
      call := calls;
      NextWaits(settled, waiters, calls);
      if items != [] {
        Unbuffer(settled, waiters, calls, pushed, items, terminal, failed);
        settled := settled + [(call, Value(items[0]))];
        bufferedBytes := bufferedBytes - BufferedItemBytes(items[0]);
        items := items[1..];
      } else if failed {
        Dismiss(settled, waiters, calls, pushed, failed, call);
        settled := settled + [(call, Rejected)];
      } else if terminal {
        Dismiss(settled, waiters, calls, pushed, failed, call);
        settled := settled + [(call, Done)];
      } else {
        waiters := waiters + [call];
      }
      calls := calls + 1;
    }
  }

  lemma NextWaits(settled: seq<(Call, Outcome)>, waiters: seq<Call>, calls: nat)
    requires CallsOk(settled, waiters, calls)
    ensures waiters == [] ==> |settled| == calls
    ensures CallsOk(settled, waiters + [calls], calls + 1)
  {
  }

  // ----- whole streams -----

  datatype Happening =
    | Arrives(sameQuery: bool, sequence: nat, length: nat, permission: Option<string>)
    | Ends(sameQuery: bool)
    | Breaks
    | Asks
    | Answers(requestId: string)

  /** Everything the host sent in the first `n` happenings. */
  ghost function Sent(happenings: seq<Happening>, n: nat): (sent: seq<Item>)
    requires n <= |happenings|
    ensures |sent| <= n
  {
    if n == 0 then []
    else
      match happenings[n - 1]
      case Arrives(_, sequence, length, permission) =>
        Sent(happenings, n - 1) + [Event(sequence, length, permission)]
      case Ends(_) => Sent(happenings, n - 1) + [Result]
      case _ => Sent(happenings, n - 1)
  }

  /** How often the consumer asked. */
  ghost function Asked(happenings: seq<Happening>, n: nat): nat
    requires n <= |happenings|
  {
    if n == 0 then 0 else Asked(happenings, n - 1) + if happenings[n - 1].Asks? then 1 else 0
  }

  ghost predicate Over(happenings: seq<Happening>, n: nat)
    requires n <= |happenings|
  {
    exists i | 0 <= i < n :: happenings[i].Ends? || happenings[i].Breaks?
  }

  /** The host asked for the permission and the consumer has not answered since. */
  ghost predicate Open(happenings: seq<Happening>, n: nat, requestId: string)
    requires n <= |happenings|
  {
    exists i | 0 <= i < n ::
      && happenings[i].Arrives? && happenings[i].permission == Some(requestId)
      && forall k | i < k < n :: happenings[k] != Answers(requestId)
  }

  /** The consumer asked for more than the host has sent, or the items it has not asked for leave enough room. */
  ghost predicate Fits(sent: seq<Item>, asked: nat, bytes: nat) {
    asked > |sent| || (|sent| - asked < 1024 && TotalBytes(sent[asked..]) + bytes <= 1024 * 1024)
  }

  /** The host may send what it sends in the happening `n`, after those before it. */
  ghost predicate InOrder(happenings: seq<Happening>, n: nat)
    requires n < |happenings|
  {
    var sent, asked := Sent(happenings, n), Asked(happenings, n);
    match happenings[n]
    case Arrives(sameQuery, sequence, length, permission) =>
      && sameQuery && !Over(happenings, n)
      && sequence == |sent| + 1
      && (permission.Some? ==> !Open(happenings, n, permission.value))
      && Fits(sent, asked, length + 128)
    case Ends(sameQuery) => sameQuery && !Over(happenings, n) && Fits(sent, asked, 0)
    case _ => true
  }

  ghost predicate Orderly(happenings: seq<Happening>, n: nat)
    requires n <= |happenings|
  {
    forall i | 0 <= i < n :: InOrder(happenings, i)
  }

  /** The query after the first `n` happenings of an orderly host. */
  ghost predicate Follows(query: Query, happenings: seq<Happening>, n: nat)
    requires n <= |happenings|
    reads query
  {
    && query.pushed == Sent(happenings, n)
    && (query.terminal <==> Over(happenings, n))
    && (!query.terminal ==> query.lastSequence == |query.pushed|)
    && (!query.terminal ==> forall p :: p in query.pendingPermissionIds <==> Open(happenings, n, p))
    && !query.aborted
  }

  /** What the k-th call has come to. */
  ghost predicate CallIs(query: Query, k: nat)
    requires k < query.calls
    reads query
  {
    if k < |query.pushed| then k < |query.settled| && query.settled[k] == (k, Value(query.pushed[k]))
    else if query.terminal then
      k < |query.settled| && query.settled[k] == (k, if query.failed then Rejected else Done)
    else |query.settled| <= k && k in query.waiters
  }

  lemma ValidMeans(query: Query)
    requires query.Valid()
    ensures forall k | 0 <= k < query.calls :: CallIs(query, k)
    ensures |query.settled| + |query.waiters| == query.calls
    ensures query.items == query.pushed[Min(|query.pushed|, query.calls)..]
    ensures !query.terminal ==> (query.waiters != [] <==> query.calls > |query.pushed|)
    ensures query.terminal ==> query.waiters == []
    ensures query.bufferedBytes == TotalBytes(query.items)
  {
    hide TotalBytes;
    forall k | 0 <= k < query.calls
      ensures CallIs(query, k)
    {
      if |query.settled| <= k {
        assert query.waiters[k - |query.settled|] == k;
      }
    }
  }

  lemma RoomIs(query: Query, item: Item)
    requires query.Valid() && !query.terminal
    ensures query.Room(item) <==> Fits(query.pushed, query.calls, BufferedItemBytes(item))
  {
    hide CallsOk, OutcomesOk, BufferOk, SequenceOk, TotalBytes;
    ValidMeans(query);
    assert query.calls > |query.pushed| || query.items == query.pushed[query.calls..];
  }

  lemma OrderlyMore(happenings: seq<Happening>, n: nat)
    requires n < |happenings|
    ensures Orderly(happenings, n + 1) <==> Orderly(happenings, n) && InOrder(happenings, n)
  {
    hide InOrder;
  }

  lemma OverMore(happenings: seq<Happening>, n: nat)
    requires n < |happenings|
    ensures Over(happenings, n + 1) <==> Over(happenings, n) || happenings[n].Ends? || happenings[n].Breaks?
  {
  }

  lemma OpenMore(happenings: seq<Happening>, n: nat, p: string)
    requires n < |happenings|
    ensures Open(happenings, n + 1, p)
            <==> (Open(happenings, n, p) && happenings[n] != Answers(p))
                 || (happenings[n].Arrives? && happenings[n].permission == Some(p))
  {
    var h := happenings[n];
    if h.Arrives? && h.permission == Some(p) {
      assert h != Answers(p);
    }
    if Open(happenings, n, p) && h != Answers(p) {
      var i :| 0 <= i < n && happenings[i].Arrives? && happenings[i].permission == Some(p)
               && forall k | i < k < n :: happenings[k] != Answers(p);
      assert forall k | i < k < n + 1 :: happenings[k] != Answers(p);
    }
  }

  /** What happens next, and that the query goes on following an orderly host. */
  method Step(query: Query, happenings: seq<Happening>, n: nat)
    requires n < |happenings| && query.Valid()
    requires query.calls == Asked(happenings, n)
    requires query.broken <==> !Orderly(happenings, n)
    requires !query.broken ==> Follows(query, happenings, n)
    modifies query
    ensures query.Valid() && old(query.settled) <= query.settled
    ensures query.calls == Asked(happenings, n + 1)
    ensures query.broken <==> !Orderly(happenings, n + 1)
    ensures !query.broken ==> Follows(query, happenings, n + 1)
    ensures query.failed ==> old(query.failed) || happenings[n].Breaks?
  {
    hide CallsOk, OutcomesOk, BufferOk, SequenceOk, TotalBytes, Orderly, Over, Open, Fits;
    OrderlyMore(happenings, n);
    OverMore(happenings, n);
    forall p: string
      ensures Open(happenings, n + 1, p)
              <==> (Open(happenings, n, p) && happenings[n] != Answers(p))
                   || (happenings[n].Arrives? && happenings[n].permission == Some(p))
    {
      OpenMore(happenings, n, p);
    }
    match happenings[n] {
      case Arrives(sameQuery, sequence, length, permission) =>
        if !query.terminal {
          RoomIs(query, Event(sequence, length, permission));
        }
        var _ := query.OnEvent(sameQuery, sequence, length, permission);
      case Ends(sameQuery) =>
        if !query.terminal {
          RoomIs(query, Result);
        }
        var _ := query.OnResult(sameQuery);
      case Breaks => query.OnConnectionFailure();
      case Asks => var _ := query.Next();
      case Answers(requestId) => var _ := query.RespondPermission(requestId);
    }
  }

  lemma Begins(query: Query, happenings: seq<Happening>)
    requires query.pushed == [] && query.lastSequence == 0 && query.pendingPermissionIds == {}
    requires !query.terminal && !query.aborted
    ensures Follows(query, happenings, 0) && Orderly(happenings, 0)
  {
  }

  /** Any stream and any consumer. The k-th call gets the k-th item, and a call for which none came waits, or learns
      how the stream ended; what is left of the items is in the buffer. Something was refused exactly when the host
      went out of order, and otherwise the items are what the host sent. */
  method Run(happenings: seq<Happening>) returns (query: Query)
    ensures query.Valid()
    ensures query.calls == Asked(happenings, |happenings|)
    ensures forall k | 0 <= k < query.calls :: CallIs(query, k)
    ensures |query.settled| + |query.waiters| == query.calls
    ensures query.items == query.pushed[Min(|query.pushed|, query.calls)..]
    ensures query.broken <==> !Orderly(happenings, |happenings|)
    ensures Orderly(happenings, |happenings|) ==> Follows(query, happenings, |happenings|)
    ensures query.failed ==> exists i | 0 <= i < |happenings| :: happenings[i].Breaks?
  {
    hide CallsOk, OutcomesOk, BufferOk, SequenceOk, Orderly, Follows;
    query := new Query();
    Begins(query, happenings);
    for n := 0 to |happenings|
      invariant fresh(query) && query.Valid()
      invariant query.calls == Asked(happenings, n)
      invariant query.broken <==> !Orderly(happenings, n)
      invariant !query.broken ==> Follows(query, happenings, n)
      invariant query.failed ==> exists i | 0 <= i < n :: happenings[i].Breaks?
    {
      Step(query, happenings, n);
    }
    ValidMeans(query);
  }
}
