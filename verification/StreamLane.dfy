// The lane of an open stream (openHostStream in HostStream.ts): one drain at a time, one pending refresh, a queue of
// requests for older history, and a retry timer. Each method is one piece of code that runs without interruption;
// anything may happen between two of them.
module StreamLane {

  const FIRST_RETRY := 1000
  const LAST_RETRY := 30000

  type Id = nat

  /** Where a drain is: at the head of its loop, waiting for a refresh, past one, waiting for an older page, out of
      its loop (having failed or not), or with its success or failure handled. */
  datatype Drain = Head | Refreshing | Refreshed | Loading(id: Id) | Ended(failed: bool) | Handled

  datatype Outcome = Resolved | Rejected

  function Position(queue: seq<Id>, id: Id): (i: nat)
    requires id in queue
    ensures i < |queue| && queue[i] == id
  {
    if queue[0] == id then 0 else 1 + Position(queue[1..], id)
  }

  lemma {:induction false} PositionStays(queue: seq<Id>, more: seq<Id>, id: Id)
    requires id in queue
    ensures Position(queue + more, id) == Position(queue, id)
  {
    if queue[0] != id {
      assert (queue + more)[1..] == queue[1..] + more;
      PositionStays(queue[1..], more, id);
    }
  }

  /** How many pieces a drain still has before it takes the next request, starting it included. */
  function Phase(drains: seq<Drain>): nat {
    if drains == [] then 5
    else match drains[0] {
      case Head => 4
      case Refreshing => 3
      case Refreshed => 2
      case Loading(_) => 5
      case Ended(_) => 7
      case Handled => 6
    }
  }

  /** How many pieces are left at most before a request is settled: four for each request ahead of it, as every round
      of the loop refreshes at most once and then serves one. */
  function Left(drains: seq<Drain>, queue: seq<Id>, id: Id): nat {
    if Loading(id) in drains then 1
    else if id in queue then 4 * Position(queue, id) + Phase(drains)
    else 0
  }

  class Lane {
    var active: bool
    var dirty: bool
    var running: bool
    var retry: bool               // the timer's handle is set
    var armed: bool               // the timer will fire
    var retryDelay: nat
    var olderRequests: seq<Id>
    var drains: seq<Drain>        // drains that have not come to their end
    var accepted: nat             // requests get the numbers below this
    var settled: map<Id, seq<Outcome>>

    /** Every accepted request is queued, being served or settled, only one of these, and settled only once. */
    ghost predicate Accounted()
      reads this
    {
      && (forall i, j | 0 <= i < j < |olderRequests| :: olderRequests[i] != olderRequests[j])
      && (forall id | id in olderRequests :: id < accepted && Loading(id) !in drains && id !in settled)
      && (forall id | id in settled :: id < accepted && Loading(id) !in drains && |settled[id]| == 1)
      && (forall d | d in drains && d.Loading? :: d.id < accepted)
      && (forall id: Id :: id < accepted ==> id in olderRequests || Loading(id) in drains || id in settled)
    }

    ghost predicate Valid()
      reads this
    {
      && |drains| == (if running then 1 else 0)
      && (armed ==> retry && active)
      && (active && retry ==> armed)
      && (active && retry ==> dirty)
      && (retry && running ==> active ==> drains[0] == Handled)
      && (active && (dirty || olderRequests != []) ==> running || armed)
      && FIRST_RETRY <= retryDelay <= LAST_RETRY
      && (!active ==> olderRequests == [])
      && Accounted()
    }

    constructor ()
      ensures Valid() && active && accepted == 0 && drains == []
    {
      active, dirty, running, retry, armed := true, false, false, false, false;
      retryDelay, olderRequests, drains, accepted, settled := FIRST_RETRY, [], [], 0, map[];
    }

    method Wake()
      requires Accounted() && |drains| == (if running then 1 else 0)
      modifies this`running, this`drains
      ensures |drains| == (if running then 1 else 0)
      ensures running == (old(running) || (active && !retry))
      ensures drains == if old(running) || !running then old(drains) else [Head]
      ensures Accounted()
    {
      if !active || running || retry {
        return;
      }
      running := true;
      drains := drains + [Head];
    }

    /** A hint, a reconnection, the keep-alive timer, or the page becoming visible. */
    method Invalidate()
      requires Valid()
      modifies this`dirty, this`running, this`drains
      ensures Valid()
      ensures active ==> dirty && (running || armed)
      ensures drains == if active && old(drains) == [] && !retry then [Head] else old(drains)
      ensures !active ==> dirty == old(dirty)
    {
      if !active {
        return;
      }
      dirty := true;
      Wake();
    }

    /** A request for older history; `None` where the call resolves at once because the stream is closed. */
    method LoadOlder() returns (ok: bool, id: Id)
      requires Valid()
      modifies this`accepted, this`olderRequests, this`running, this`drains
      ensures Valid()
      ensures ok == active && id == old(accepted)
      ensures ok ==> accepted == old(accepted) + 1 && id !in settled && (running || armed)
      ensures !ok ==> accepted == old(accepted)
      ensures olderRequests == if ok then old(olderRequests) + [id] else old(olderRequests)
      ensures drains == if active && old(drains) == [] && !retry then [Head] else old(drains)
    {
      id, ok := accepted, active;
      if !active {
        return;
      }
      assert id !in olderRequests && Loading(id) !in drains && id !in settled;
      accepted := accepted + 1;
      olderRequests := olderRequests + [id];
      Wake();
    }

    method Settle(id: Id, outcome: Outcome)
      modifies this`settled
      ensures settled == old(settled)[id := (if id in old(settled) then old(settled)[id] else []) + [outcome]]
    {
      settled := settled[id := (if id in settled then settled[id] else []) + [outcome]];
    }

    // ----- the drain, from one wait to the next -----

    /** The head of the loop. */
    method Continue()
      requires Valid() && drains == [Head]
      modifies this`drains, this`dirty, this`olderRequests
      ensures Valid()
      ensures !active ==> dirty == old(dirty)
      ensures active ==> !dirty
      ensures !old(active && (dirty || olderRequests != [])) ==> drains == [Ended(false)]
      ensures old(active && dirty) ==> drains == [Refreshing] && !dirty && olderRequests == old(olderRequests)
      ensures old(active && !dirty && olderRequests != []) ==>
                drains == [Loading(old(olderRequests)[0])] && olderRequests == old(olderRequests)[1..]
      ensures !old(active && !dirty && olderRequests != []) ==> olderRequests == old(olderRequests)
    {
      if !(active && (dirty || olderRequests != [])) {
        drains := [Ended(false)];
      } else if dirty {
        dirty := false;
        drains := [Refreshing];
      } else {
        Shift();
      }
    }

    /** Takes the oldest request, if there is one. */
    method Shift()
      requires Valid() && drains in {[Head], [Refreshed]}
      modifies this`drains, this`olderRequests
      ensures Valid()
      ensures olderRequests == if old(olderRequests) == [] then [] else old(olderRequests)[1..]
      ensures drains == if old(olderRequests) == [] then [Head] else [Loading(old(olderRequests)[0])]
    {
      if olderRequests == [] {
        drains := [Head];
        return;
      }
      var older := olderRequests[0];
      assert forall r | r in olderRequests[1..] :: r in olderRequests && r != older;
      assert forall r | r in olderRequests :: r == older || r in olderRequests[1..];
      olderRequests := olderRequests[1..];
      drains := [Loading(older)];
    }

    method RefreshEnds(ok: bool)
      requires Valid() && drains == [Refreshing]
      modifies this`drains
      ensures Valid() && drains == [if ok then Refreshed else Ended(true)]
    {
      drains := [if ok then Refreshed else Ended(true)];
    }

    /** The answer to a request for older history, whatever it is, settles that request. */
    method OlderEnds(ok: bool)
      requires Valid() && |drains| == 1 && drains[0].Loading?
      modifies this`drains, this`settled
      ensures Valid() && drains == [Head]
      ensures settled == old(settled)[old(drains)[0].id := [if ok then Resolved else Rejected]]
    {
      var id := drains[0].id;
      assert Loading(id) in drains && id !in settled;
      var outcome := if ok then Resolved else Rejected;
      assert [] + [outcome] == [outcome];
      Settle(id, outcome);
      drains := [Head];
    }

    /** What follows the drain: its success resets the delay, its failure arms the timer. */
    method Handle()
      requires Valid() && |drains| == 1 && drains[0].Ended?
      modifies this`drains, this`dirty, this`retry, this`armed, this`retryDelay
      ensures Valid() && drains == [Handled]
      ensures old(active && drains[0].failed) ==>
                && retry && armed && dirty
                && retryDelay == if 2 * old(retryDelay) <= 30000 then 2 * old(retryDelay) else 30000
      ensures !old(drains[0].failed) ==> retryDelay == 1000
      ensures !active && old(drains[0].failed) ==> retryDelay == old(retryDelay)
      ensures !old(active && drains[0].failed) ==> dirty == old(dirty) && retry == old(retry) && armed == old(armed)
    {
      if !drains[0].failed {
        retryDelay := FIRST_RETRY;
      } else if active {
        dirty, retry, armed := true, true, true;
        retryDelay := if retryDelay * 2 < LAST_RETRY then retryDelay * 2 else LAST_RETRY;
      }
      drains := [Handled];
    }

    /** The end of a drain. What came in since its loop ended is not forgotten. */
    method Finally()
      requires Valid() && drains == [Handled]
      modifies this`running, this`drains
      ensures Valid()
      ensures running <==> active && (dirty || olderRequests != []) && !retry
      ensures drains == if running then [Head] else []
    {
      running, drains := false, [];
      if active && (dirty || olderRequests != []) && !retry {
        Wake();
      }
    }

    method TimerFires()
      requires Valid() && armed && !running
      modifies this`retry, this`armed, this`running, this`drains
      ensures Valid() && running && !retry && !armed && drains == [Head]
    {
      retry, armed := false, false;
      Wake();
    }

    method RejectFirst()
      requires Accounted() && olderRequests != []
      modifies this`olderRequests, this`settled
      ensures Accounted() && olderRequests == old(olderRequests)[1..]
      ensures settled == old(settled)[old(olderRequests)[0] := [Rejected]]
    {
      var older := olderRequests[0];
      assert forall r | r in olderRequests[1..] :: r in olderRequests && r != older;
      assert forall r | r in olderRequests :: r == older || r in olderRequests[1..];
      assert [] + [Rejected] == [Rejected];
      olderRequests := olderRequests[1..];
      Settle(older, Rejected);
    }

    /** Closing rejects every queued request and disarms the timer. */
    method Close()
      requires Valid()
      modifies this`active, this`armed, this`olderRequests, this`settled
      ensures Valid() && !active && !armed && olderRequests == []
      ensures forall id | id in old(settled) :: id in settled && settled[id] == old(settled)[id]
      ensures forall id | id in old(olderRequests) :: id in settled && settled[id] == [Rejected]
      ensures forall id | id in settled :: id in old(settled) || id in old(olderRequests)
    {
      if !active {
        return;
      }
      active, armed := false, false;
      ghost var queued := olderRequests;
      while olderRequests != []
        modifies this`olderRequests, this`settled
        invariant Accounted()
        invariant forall id | id in olderRequests :: id in queued
        invariant forall id | id in queued :: id in olderRequests || (id in settled && settled[id] == [Rejected])
        invariant forall id | id in old(settled) :: id in settled && settled[id] == old(settled)[id]
        invariant forall id | id in settled :: id in old(settled) || id in queued
        decreases |olderRequests|
      {
        RejectFirst();
      }
    }
  }

  // ----- all runs -----

  /** Something that happens: a wake-up, a request, the end of a wait, the timer, the next piece of the drain, or the
      caller closing the stream. */
  datatype Event = Wakes | Asks | Waited(ok: bool) | Ticks | Goes | Closes

  /** The event is the next piece of what the lane is doing. */
  predicate IsNext(lane: Lane, e: Event)
    reads lane
  {
    match e
    case Waited(_) => |lane.drains| == 1 && (lane.drains[0].Refreshing? || lane.drains[0].Loading?)
    case Goes => |lane.drains| == 1 && !lane.drains[0].Refreshing? && !lane.drains[0].Loading?
    case Ticks => lane.armed && !lane.running
    case _ => false
  }

  /** A refresh fails. */
  predicate Fails(lane: Lane, e: Event)
    reads lane
  {
    e == Waited(false) && lane.drains == [Refreshing]
  }

  /** A request was accepted and has not been settled. */
  predicate Pending(lane: Lane, id: Id)
    reads lane
  {
    id < lane.accepted && id !in lane.settled
  }

  /** How many pieces the lane still has before it is at rest. */
  function Rest(active: bool, drains: seq<Drain>, dirty: bool, waiting: nat): nat {
    var head := 2 * waiting + (if dirty then 6 else 3);
    var more := active && (dirty || waiting > 0);
    if drains == [] then if more then head + 1 else 0
    else match drains[0] {
      case Head => head
      case Refreshing => head + 2
      case Refreshed => head + 1
      case Loading(_) => head + 1
      case Ended(failed) => if active && failed then 2 * waiting + 9 else if more then head + 3 else 2
      case Handled => if more then head + 2 else 1
    }
  }

  function RestOf(lane: Lane): nat
    reads lane
  {
    Rest(lane.active, lane.drains, lane.dirty, |lane.olderRequests|)
  }

  /** What one event does to the pieces that are left for the requests and for the lane. */
  twostate predicate Counts(lane: Lane, e: Event)
    reads lane
  {
    var next, fails := if old(IsNext(lane, e)) then 1 else 0, if old(Fails(lane, e)) then 5 else 0;
    && (forall id: Id | Pending(lane, id) && id < old(lane.accepted) ::
          && old(Pending(lane, id))
          && Left(lane.drains, lane.olderRequests, id) + next
             <= Left(old(lane.drains), old(lane.olderRequests), id) + fails)
    && RestOf(lane) + next <= old(RestOf(lane)) + fails + if e.Wakes? || e.Asks? then 7 else 0
  }

  /** A piece of the loop. */
  method GoInLoop(lane: Lane)
    requires lane.Valid() && lane.drains in {[Head], [Refreshed]}
    modifies lane
    ensures lane.Valid() && lane.accepted == old(lane.accepted) && Counts(lane, Goes)
  {
    if lane.drains == [Head] {
      lane.Continue();
    } else {
      lane.Shift();
    }
  }

  /** A piece after the loop. */
  method GoAfterLoop(lane: Lane)
    requires lane.Valid() && |lane.drains| == 1 && (lane.drains[0].Ended? || lane.drains[0].Handled?)
    modifies lane
    ensures lane.Valid() && lane.accepted == old(lane.accepted) && Counts(lane, Goes)
  {
    if lane.drains[0].Ended? {
      lane.Handle();
    } else {
      assert lane.drains == [Handled];
      lane.Finally();
    }
  }

  /** The next piece of the drain, if it can go on. */
  method Go(lane: Lane)
    requires lane.Valid()
    modifies lane
    ensures lane.Valid() && lane.accepted == old(lane.accepted) && Counts(lane, Goes)
  {
    if lane.running {
      assert lane.drains == [lane.drains[0]];
      match lane.drains[0] {
        case Head => GoInLoop(lane);
        case Refreshed => GoInLoop(lane);
        case Ended(_) => GoAfterLoop(lane);
        case Handled => GoAfterLoop(lane);
        case _ =>
      }
    }
  }

  /** What a drain waited for has come. */
  method Answer(lane: Lane, ok: bool)
    requires lane.Valid()
    modifies lane
    ensures lane.Valid() && lane.accepted == old(lane.accepted) && Counts(lane, Waited(ok))
  {
    if lane.running {
      assert lane.drains == [lane.drains[0]];
      match lane.drains[0] {
        case Refreshing => lane.RefreshEnds(ok);
        case Loading(_) => lane.OlderEnds(ok);
        case _ =>
      }
    }
  }

  method Ask(lane: Lane)
    requires lane.Valid()
    modifies lane
    ensures lane.Valid() && lane.accepted >= old(lane.accepted)
    ensures Counts(lane, Asks)
  {
    ghost var queue := lane.olderRequests;
    var _, asked := lane.LoadOlder();
    forall id | id in queue
      ensures Position(lane.olderRequests, id) == Position(queue, id)
    {
      PositionStays(queue, [asked], id);
    }
  }

  method Happen(lane: Lane, e: Event)
    requires lane.Valid()
    modifies lane
    ensures lane.Valid() && lane.accepted >= old(lane.accepted)
    ensures Counts(lane, e)
  {
    match e {
      case Wakes => lane.Invalidate();
      case Asks => Ask(lane);
      case Closes => lane.Close();
      case Ticks =>
        if lane.armed && !lane.running {
          lane.TimerFires();
        }
      case Waited(ok) => Answer(lane, ok);
      case Goes => Go(lane);
    }
  }

  /** No busy loop: each wake-up and each request is worth seven pieces at most and each failed refresh five, and what
      the lane was doing before is bounded too. A lane without a next piece is at rest, and stays so until something
      comes in. */
  method ComesToRest(lane: Lane, events: seq<Event>) returns (pieces: nat, incoming: nat, failures: nat)
    requires lane.Valid()
    modifies lane
    ensures lane.Valid()
    ensures pieces <= old(RestOf(lane)) + 7 * incoming + 5 * failures
    ensures incoming <= |events| && ((forall e | e in events :: !e.Wakes? && !e.Asks?) ==> incoming == 0)
    ensures (forall e :: !IsNext(lane, e)) ==>
              lane.drains == [] && !lane.armed && (lane.active ==> !lane.dirty) && lane.olderRequests == []
  {
    ghost var most := RestOf(lane);
    pieces, incoming, failures := 0, 0, 0;
    for i := 0 to |events|
      invariant lane.Valid() && incoming <= i
      invariant RestOf(lane) + pieces <= most + 7 * incoming + 5 * failures
      invariant (forall e | e in events :: !e.Wakes? && !e.Asks?) ==> incoming == 0
    {
      var next, fails := IsNext(lane, events[i]), Fails(lane, events[i]);
      Happen(lane, events[i]);
      pieces, failures := pieces + (if next then 1 else 0), failures + (if fails then 1 else 0);
      incoming := incoming + if events[i].Wakes? || events[i].Asks? then 1 else 0;
    }
    AtRest(lane);
  }

  lemma AtRest(lane: Lane)
    requires lane.Valid()
    ensures (forall e :: !IsNext(lane, e)) ==>
              lane.drains == [] && !lane.armed && (lane.active ==> !lane.dirty) && lane.olderRequests == []
  {
    var e := if lane.running then if lane.drains[0].Refreshing? || lane.drains[0].Loading? then Waited(true) else Goes
             else Ticks;
    assert IsNext(lane, e) <==> lane.running || lane.armed;
  }

  /** A request that waits is under way: there is a next piece, and nothing else can delay it. After `Left` pieces, and
      five more for each refresh that failed meanwhile, it is settled, whatever else comes in. */
  method Serve(lane: Lane, id: Id, events: seq<Event>) returns (pieces: nat, failures: nat)
    requires lane.Valid() && Pending(lane, id)
    modifies lane
    ensures lane.Valid()
    ensures Pending(lane, id) ==> exists e :: IsNext(lane, e)
    ensures pieces >= Left(old(lane.drains), old(lane.olderRequests), id) + 5 * failures ==> id in lane.settled
  {
    ghost var most := Left(lane.drains, lane.olderRequests, id);
    pieces, failures := 0, 0;
    for i := 0 to |events|
      invariant lane.Valid() && id < lane.accepted
      invariant Pending(lane, id) ==> Left(lane.drains, lane.olderRequests, id) + pieces <= most + 5 * failures
    {
      var next, fails := IsNext(lane, events[i]), Fails(lane, events[i]);
      Happen(lane, events[i]);
      pieces, failures := pieces + (if next then 1 else 0), failures + (if fails then 1 else 0);
    }
    if Pending(lane, id) {
      GoesOn(lane, id);
    }
  }

  lemma GoesOn(lane: Lane, id: Id)
    requires lane.Valid() && Pending(lane, id)
    ensures exists e :: IsNext(lane, e)
    ensures Left(lane.drains, lane.olderRequests, id) > 0
  {
    assert IsNext(lane, if lane.running then if lane.drains[0].Refreshing? || lane.drains[0].Loading? then Waited(true)
                                             else Goes
                        else Ticks);
  }

  /** Any run of the lane. There is never a second drain, nothing that came in is forgotten, no request is settled
      twice, and none is left waiting in a closed stream. */
  method Run(events: seq<Event>) returns (lane: Lane)
    ensures |lane.drains| <= 1
    ensures lane.active && lane.drains == [] && !lane.armed ==> !lane.dirty && lane.olderRequests == []
    ensures forall id | id in lane.settled :: |lane.settled[id]| == 1
    ensures forall id: Id | id < lane.accepted ::
              id in lane.settled || id in lane.olderRequests || Loading(id) in lane.drains
    ensures !lane.active ==> lane.olderRequests == [] && !lane.armed
    ensures !lane.active && lane.drains == [] ==> forall id: Id | id < lane.accepted :: id in lane.settled
  {
    lane := new Lane();
    for i := 0 to |events|
      invariant fresh(lane) && lane.Valid()
    {
      Happen(lane, events[i]);
    }
  }
}
