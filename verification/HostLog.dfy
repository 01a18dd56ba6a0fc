// The host's side of a stream (host_stream.rs): a log of events whose records move to a new sequence when they are
// updated, the changes it goes through on its own, and the pages it answers with.
module HostLog {
  import opened Common

  /** `id` names the record an event carries, `turn` the turn it belongs to; control events have neither. */
  datatype Event = Event(seqNo: nat, id: Option<string>, turn: Option<string>, body: string)

  /** All sequences in use are above `low` and at most `latest`: live events go above, backfilled history below.
      `exhausted` says that no more history can be backfilled, and `used` are the epochs there have been. */
  datatype Log = Log(epoch: nat, events: map<nat, Event>, low: nat, latest: nat, exhausted: bool, truncated: bool,
                     used: set<nat>)
  {
    ghost predicate Valid() {
      && epoch in used && low <= latest
      && (forall s | s in events :: low < s <= latest && events[s].seqNo == s)
      && (forall s, t | s in events && t in events && events[s].id.Some? && events[s].id == events[t].id :: s == t)
    }
  }

  /** What a host may do between two answers, and while one is on its way. */
  datatype Move =
    | Append(id: Option<string>, turn: Option<string>, body: string)
    | Evict(s: nat, noted: bool)
    | Backfill(record: string, of: string, body: string)
    | Exhaust
    | Restart(epoch: nat, start: nat, paged: bool)

  function Without(events: map<nat, Event>, id: Option<string>): map<nat, Event> {
    map s | s in events && (id.None? || events[s].id != id) :: events[s]
  }

  predicate Has(events: map<nat, Event>, id: string) {
    exists s | s in events :: events[s].id == Some(id)
  }

  /** One change of the log. An epoch is never used twice. */
  function After(log: Log, move: Move): Log {
    match move
    case Append(id, turn, body) =>
      var s := log.latest + 1;
      log.(events := Without(log.events, id)[s := Event(s, id, turn, body)], latest := s)
    case Evict(s, noted) =>
      log.(events := log.events - {s}, truncated := log.truncated || noted)
    case Backfill(record, of, body) =>
      if log.exhausted || log.low == 0 || Has(log.events, record) then log
      else log.(events := log.events[log.low := Event(log.low, Some(record), Some(of), body)], low := log.low - 1)
    case Exhaust =>
      log.(exhausted := true)
    case Restart(epoch, start, paged) =>
      if epoch in log.used then log
      else Log(epoch, map[], start, start, !paged, false, log.used + {epoch})
  }

  // ----- pages -----

  datatype Page = Page(epoch: nat, events: seq<Event>, hasMore: bool, cursor: nat, truncated: bool)

  datatype Request = Latest | Forward(after: nat, epoch: nat) | Backward(before: nat, epoch: nat)

  /** The events with sequences in [from, end), ascending. */
  function Range(events: map<nat, Event>, from: nat, end: nat): seq<Event>
    decreases end
  {
    if from >= end then []
    else Range(events, from, end - 1) + if end - 1 in events then [events[end - 1]] else []
  }

  /** The answer to a request. How much fits into a page is the host's business: any cut will do. */
  function Answer(log: Log, request: Request, cut: nat): Page {
    match request
    case Forward(after, _) =>
      var end := Max(after, Min(cut, log.latest));
      Page(log.epoch, Range(log.events, after + 1, end + 1), exists s | s in log.events :: s > end,
           log.latest, log.truncated)
    case Backward(before, _) =>
      BackwardPage(log, before, cut)
    case Latest =>
      BackwardPage(log, log.latest + 1, cut)
  }

  function BackwardPage(log: Log, before: nat, cut: nat): Page {
    var start := Min(before, cut);
    Page(log.epoch, Range(log.events, start, before), (exists s | s in log.events :: s < start) || !log.exhausted,
         log.latest, log.truncated)
  }

  /** All events with sequences in [from, end), ascending. */
  ghost predicate IsSlice(page: seq<Event>, events: map<nat, Event>, from: nat, end: nat) {
    && (forall e :: e in page <==> e.seqNo in events && events[e.seqNo] == e && from <= e.seqNo < end)
    && (forall i, j | 0 <= i < j < |page| :: page[i].seqNo < page[j].seqNo)
  }

  lemma {:induction false} RangeIs(events: map<nat, Event>, from: nat, end: nat)
    requires forall s | s in events :: events[s].seqNo == s
    ensures IsSlice(Range(events, from, end), events, from, end)
    decreases end
  {
    if from < end {
      RangeIs(events, from, end - 1);
    }
  }

  /** A page has the retained events of a range that starts or ends where the request says, and tells whether there are
      more beyond its other end, or may be. */
  lemma AnswerIs(log: Log, request: Request, cut: nat) returns (from: nat, end: nat)
    requires log.Valid()
    ensures var page := Answer(log, request, cut);
            && page.epoch == log.epoch && page.cursor == log.latest && page.truncated == log.truncated
            && IsSlice(page.events, log.events, from, end)
            && (request.Forward? ==>
                  from == request.after + 1 && (page.hasMore <==> exists s | s in log.events :: s >= end))
            && (!request.Forward? ==>
                  && end == (if request.Backward? then request.before else log.latest + 1)
                  && (page.hasMore <==> !log.exhausted || exists s | s in log.events :: s < from))
  {
    if request.Forward? {
      from, end := request.after + 1, Max(request.after, Min(cut, log.latest)) + 1;
    } else {
      end := if request.Backward? then request.before else log.latest + 1;
      from := Min(end, cut);
    }
    RangeIs(log.events, from, end);
  }

  // ----- how a log may have changed -----

  /** `later` is what became of `log`: in the same epoch, whatever is there was there before, is above all that was,
      or is below all that was, and the last only while history lasts. */
  ghost predicate Evolves(log: Log, later: Log) {
    && log.used <= later.used
    && if later.epoch == log.epoch then
         && later.low <= log.low && log.latest <= later.latest
         && (log.exhausted ==> later.exhausted)
         && (forall s | s in later.events ::
               || (s in log.events && later.events[s] == log.events[s])
               || s > log.latest
               || (s <= log.low && !log.exhausted))
       else
         later.epoch !in log.used
  }

  lemma MoveEvolves(log: Log, move: Move)
    requires log.Valid()
    ensures After(log, move).Valid() && Evolves(log, After(log, move))
  {
  }

  /** An update moves its record above everything there was, and the other events stay. */
  lemma AppendMoves(log: Log, id: Option<string>, turn: Option<string>, body: string)
    requires log.Valid()
    ensures var later := After(log, Append(id, turn, body));
            && later.latest == log.latest + 1 && later.low == log.low && later.epoch == log.epoch
            && Lookup(later.events, later.latest) == Some(Event(later.latest, id, turn, body))
            && (forall s | s != later.latest ::
                  Lookup(later.events, s)
                  == if s in log.events && (id.None? || log.events[s].id != id) then Some(log.events[s]) else None)
  {
  }

  lemma EvolvesTransitive(a: Log, b: Log, c: Log)
    requires a.Valid() && b.Valid() && Evolves(a, b) && Evolves(b, c)
    ensures Evolves(a, c)
  {
  }

  // ----- the transport -----

  /** What happens on the host and on the wire, in order. */
  datatype Happening = Change(move: Move) | Answered(cut: nat) | Delivered | Lost

  /** The log once the host has moved until something else happens, and what happens then. */
  function Idled(log: Log, script: seq<Happening>): (Log, seq<Happening>)
    decreases |script|
  {
    if script != [] && script[0].Change? then Idled(After(log, script[0].move), script[1..]) else (log, script)
  }

  /** A remote read: the log that was answered from, the answer if it arrived, and what is there afterwards. */
  datatype Exchange = Exchange(answered: Log, page: Option<Page>, later: Log, rest: seq<Happening>)

  function AfterOne(script: seq<Happening>): seq<Happening> {
    if script == [] then [] else script[1..]
  }

  function Exchanged(log: Log, script: seq<Happening>, request: Request): Exchange {
    var (answered, rest) := Idled(log, script);
    if rest == [] || !rest[0].Answered? then Exchange(answered, None, answered, AfterOne(rest))
    else
      var (later, last) := Idled(answered, rest[1..]);
      var arrives := last != [] && last[0].Delivered?;
      Exchange(answered, if arrives then Some(Answer(answered, request, rest[0].cut)) else None, later, AfterOne(last))
  }

  lemma {:induction false} IdledEvolves(log: Log, script: seq<Happening>)
    requires log.Valid()
    ensures var (later, rest) := Idled(log, script); later.Valid() && Evolves(log, later) && |rest| <= |script|
    decreases |script|
  {
    hide Log.Valid, Evolves, After;
    if script != [] && script[0].Change? {
      var next := After(log, script[0].move);
      MoveEvolves(log, script[0].move);
      IdledEvolves(next, script[1..]);
      EvolvesTransitive(log, next, Idled(log, script).0);
    } else {
      EvolvesReflexive(log);
    }
  }

  lemma EvolvesReflexive(log: Log)
    requires log.Valid()
    ensures Evolves(log, log)
  {
  }

  /** The host answers at one moment between request and arrival. */
  lemma ExchangeEvolves(log: Log, script: seq<Happening>, request: Request)
    requires log.Valid()
    ensures var x := Exchanged(log, script, request);
            && x.answered.Valid() && x.later.Valid()
            && Evolves(log, x.answered) && Evolves(x.answered, x.later) && Evolves(log, x.later)
            && |x.rest| <= |script|
            && (x.page.Some? ==>
                  |x.rest| < |script| && exists cut :: x.page.value == Answer(x.answered, request, cut))
  {
    hide Log.Valid, Evolves, Answer, Idled;
    IdledEvolves(log, script);
    var (answered, rest) := Idled(log, script);
    EvolvesReflexive(answered);
    if rest != [] {
      IdledEvolves(answered, rest[1..]);
      EvolvesTransitive(log, answered, Idled(answered, rest[1..]).0);
    }
  }

  /** A connection to a host. `script` is all that is going to happen; nothing is known about it. */
  class Transport {
    var log: Log
    var script: seq<Happening>
    var calls: nat
    var sent: seq<Page>    // the answers that arrived

    ghost predicate Valid()
      reads this
    {
      log.Valid()
    }

    method Idle()
      modifies this`log, this`script
      ensures (log, script) == Idled(old(log), old(script))
    {
      while script != [] && script[0].Change?
        invariant Idled(log, script) == Idled(old(log), old(script))
        decreases |script|
      {
        log, script := After(log, script[0].move), script[1..];
      }
    }

    /** One remote read: the host answers at some moment, and may have moved on when the answer arrives. */
    method Read(request: Request) returns (page: Option<Page>, ghost answered: Log)
      requires Valid()
      modifies this
      ensures Exchange(answered, page, log, script) == Exchanged(old(log), old(script), request)
      ensures Valid() && answered.Valid() && Evolves(old(log), answered) && Evolves(answered, log)
              && Evolves(old(log), log)
      ensures page.Some? ==> exists cut :: page.value == Answer(answered, request, cut)
      ensures page.Some? ==> |script| < |old(script)|
      ensures sent == if page.Some? then old(sent) + [page.value] else old(sent)
      ensures calls == old(calls) + 1 && |script| <= |old(script)|
    {
      hide Log.Valid, Evolves, Answer, Idled;
      ExchangeEvolves(log, script, request);
      calls, page := calls + 1, None;
      Idle();
      answered := log;
      if script != [] && script[0].Answered? {
        var answer := Answer(log, request, script[0].cut);
        script := script[1..];
        Idle();
        if script != [] && script[0].Delivered? {
          page, sent := Some(answer), sent + [answer];
        }
      }
      script := AfterOne(script);
    }
  }
}
