// The controller's reader of one host stream (HostStream.ts): what it has handed to its consumer, and why that
// covers the host's log between the reader's two marks.
module StreamReader {
  import opened Common
  import opened HostLog

  const MAX_HISTORY_PAGES_PER_REQUEST := 4

  // ----- what the consumer has -----

  /** The consumer's records: of each, the last version it was given. */
  function View(shown: seq<Event>): map<string, Event> {
    if shown == [] then map[]
    else
      var before, e := View(shown[..|shown| - 1]), shown[|shown| - 1];
      if e.id.Some? then before[e.id.value := e] else before
  }

  /** The event was handed over, and is what the consumer now has of its record. */
  predicate IsCurrent(shown: seq<Event>, e: Event) {
    && e in shown
    && (e.id.Some? ==> e.id.value in View(shown) && View(shown)[e.id.value] == e)
  }

  /** Every event the host retains is newer than the cursor, older than the oldest mark, or current here. */
  ghost predicate Covers(shown: seq<Event>, log: Log, oldest: nat, cursor: nat) {
    forall s | s in log.events :: s > cursor || s < oldest || IsCurrent(shown, log.events[s])
  }

  /** Nothing is handed over twice, and nothing beyond the marks. */
  ghost predicate Once(shown: seq<Event>, oldest: nat, cursor: nat) {
    && (forall e | e in shown :: oldest <= e.seqNo <= cursor)
    && (forall i, j | 0 <= i < j < |shown| :: shown[i].seqNo != shown[j].seqNo)
  }

  /** The marks fit the log: what the host adds later falls outside them, and without more history there is nothing
      below them. */
  ghost predicate MarksFit(log: Log, oldest: nat, cursor: nat, hasMore: bool) {
    && log.low < oldest <= cursor + 1 && cursor <= log.latest
    && (!hasMore ==> log.exhausted && forall s | s in log.events :: s >= oldest)
  }

  ghost predicate Synced(shown: seq<Event>, log: Log, epoch: nat, oldest: nat, cursor: nat, hasMore: bool) {
    && epoch in log.used
    && Once(shown, oldest, cursor)
    && (epoch == log.epoch ==> MarksFit(log, oldest, cursor, hasMore) && Covers(shown, log, oldest, cursor))
  }

  lemma EvolvingKeeps(shown: seq<Event>, log: Log, later: Log, epoch: nat, oldest: nat, cursor: nat, hasMore: bool)
    requires log.Valid() && Evolves(log, later)
    requires Synced(shown, log, epoch, oldest, cursor, hasMore)
    ensures Synced(shown, later, epoch, oldest, cursor, hasMore)
  {
    hide IsCurrent;
  }

  predicate Mentions(events: seq<Event>, id: string) {
    exists e | e in events :: e.id == Some(id)
  }

  lemma {:induction false} ViewOfMore(shown: seq<Event>, more: seq<Event>, id: string)
    ensures Mentions(more, id) ==>
              id in View(shown + more) && View(shown + more)[id] in more && View(shown + more)[id].id == Some(id)
    ensures !Mentions(more, id) ==> Lookup(View(shown + more), id) == Lookup(View(shown), id)
  {
    if more == [] {
      assert shown + more == shown;
    } else {
      var n := |more| - 1;
      var e := more[n];
      ViewOfMore(shown, more[..n], id);
      assert (shown + more)[..|shown + more| - 1] == shown + more[..n];
      assert more == more[..n] + [e];
      assert Mentions(more, id) <==> Mentions(more[..n], id) || e.id == Some(id);
    }
  }

  /** Handing over retained events keeps what was current and makes them current. */
  lemma EmittingKeeps(shown: seq<Event>, page: seq<Event>, log: Log, e: Event)
    requires log.Valid()
    requires forall p | p in page :: p.seqNo in log.events && log.events[p.seqNo] == p
    requires e.seqNo in log.events && log.events[e.seqNo] == e
    requires e in page || IsCurrent(shown, e)
    ensures IsCurrent(shown + page, e)
  {
    if e.id.Some? {
      hide View;
      ViewOfMore(shown, page, e.id.value);
    }
  }

  lemma PageCovers(shown: seq<Event>, page: seq<Event>, log: Log, oldest: nat, cursor: nat, oldest': nat, cursor': nat)
    requires log.Valid() && Covers(shown, log, oldest, cursor)
    requires forall p | p in page :: p.seqNo in log.events && log.events[p.seqNo] == p
    requires forall s | s in log.events && oldest' <= s <= cursor' :: log.events[s] in page || oldest <= s <= cursor
    ensures Covers(shown + page, log, oldest', cursor')
  {
    hide IsCurrent;
    forall s | s in log.events && oldest' <= s <= cursor'
      ensures IsCurrent(shown + page, log.events[s])
    {
      EmittingKeeps(shown, page, log, log.events[s]);
    }
  }

  lemma PageOnce(shown: seq<Event>, page: seq<Event>, oldest: nat, cursor: nat, oldest': nat, cursor': nat)
    requires Once(shown, oldest, cursor) && Once(page, oldest', cursor')
    requires oldest' <= oldest && cursor <= cursor'
    requires forall e | e in page :: e.seqNo < oldest || e.seqNo > cursor
    ensures Once(shown + page, oldest', cursor')
  {
  }

  /** The reader's next cursor after a forward page. */
  function NextCursor(cursor: nat, page: Page): nat {
    var seen := if page.events == [] then cursor else Max(cursor, page.events[|page.events| - 1].seqNo);
    if page.hasMore then seen else Max(seen, page.cursor)
  }

  lemma ForwardPageKeeps(shown: seq<Event>, log: Log, epoch: nat, oldest: nat, cursor: nat, hasMore: bool, cut: nat,
                         page: Page)
    requires log.Valid() && Synced(shown, log, epoch, oldest, cursor, hasMore)
    requires page == Answer(log, Forward(cursor, epoch), cut) && page.epoch == epoch
    ensures Synced(shown + page.events, log, epoch, oldest, NextCursor(cursor, page), hasMore)
    ensures NextCursor(cursor, page) >= cursor
    ensures !page.hasMore ==> NextCursor(cursor, page) == log.latest
  {
    hide Covers, Once, Range, IsSlice;
    var end, next := Max(cursor, Min(cut, log.latest)), NextCursor(cursor, page);
    RangeIs(log.events, cursor + 1, end + 1);
    ForwardReach(log, oldest, cursor, end, page);
    PageCovers(shown, page.events, log, oldest, cursor, oldest, next);
    PageOnce(shown, page.events, oldest, cursor, oldest, next);
  }

  /** A forward page has every event up to the next cursor. */
  lemma ForwardReach(log: Log, oldest: nat, cursor: nat, end: nat, page: Page)
    requires log.Valid() && IsSlice(page.events, log.events, cursor + 1, end + 1) && page.cursor == log.latest
    requires oldest <= cursor + 1
    requires cursor <= end <= log.latest && (page.hasMore <==> exists s | s in log.events :: s > end)
    ensures forall s | s in log.events && cursor < s <= NextCursor(cursor, page) :: log.events[s] in page.events
    ensures forall p | p in page.events :: p.seqNo in log.events && log.events[p.seqNo] == p && p.seqNo > cursor
    ensures cursor <= NextCursor(cursor, page) <= log.latest
    ensures !page.hasMore ==> NextCursor(cursor, page) == log.latest
    ensures Once(page.events, oldest, NextCursor(cursor, page))
  {
    if page.events != [] {
      assert page.events[|page.events| - 1] in page.events;
    }
  }

  function NextOldest(oldest: nat, page: Page): nat {
    if page.events == [] then oldest else page.events[0].seqNo
  }

  /** A backward page has every event from its first one on. */
  lemma BackwardReach(log: Log, page: seq<Event>, start: nat, before: nat, next: nat, cursor: nat)
    requires log.Valid() && IsSlice(page, log.events, start, before)
    requires start <= before <= cursor + 1 && log.low < before
    requires next == if page == [] then before else page[0].seqNo
    ensures log.low < next <= before
    ensures forall s | s in log.events && next <= s < before :: log.events[s] in page
    ensures forall p | p in page :: p.seqNo in log.events && log.events[p.seqNo] == p && p.seqNo < before
    ensures (forall s | s in log.events :: s >= start) ==> forall s | s in log.events :: s >= next
    ensures Once(page, next, cursor)
  {
    if page != [] {
      assert page[0] in page;
    }
    forall s | s in log.events && start <= s < before
      ensures s >= next
    {
      assert log.events[s] in page;
    }
  }

  lemma BackwardPageKeeps(shown: seq<Event>, log: Log, epoch: nat, oldest: nat, cursor: nat, hasMore: bool, cut: nat,
                          page: Page)
    requires log.Valid() && Synced(shown, log, epoch, oldest, cursor, hasMore)
    requires page == Answer(log, Backward(oldest, epoch), cut) && page.epoch == epoch
    ensures NextOldest(oldest, page) <= oldest
    ensures Synced(shown + page.events, log, epoch, NextOldest(oldest, page), cursor, page.hasMore)
  {
    hide Covers, Once, Range, IsSlice;
    var start, next := Min(oldest, cut), NextOldest(oldest, page);
    RangeIs(log.events, start, oldest);
    BackwardReach(log, page.events, start, oldest, next, cursor);
    PageCovers(shown, page.events, log, oldest, cursor, next, cursor);
    PageOnce(shown, page.events, oldest, cursor, next, cursor);
  }

  lemma LatestPageIs(log: Log, cut: nat, page: Page, start: nat)
    requires log.Valid()
    requires page == Answer(log, Latest, cut) && start == Min(log.latest + 1, cut)
    ensures page.epoch == log.epoch && page.cursor == log.latest
    ensures IsSlice(page.events, log.events, start, log.latest + 1)
    ensures page.hasMore <==> (exists s | s in log.events :: s < start) || !log.exhausted
  {
    hide Range, IsSlice;
    RangeIs(log.events, start, log.latest + 1);
  }

  lemma LatestPageFits(log: Log, cut: nat, page: Page)
    requires log.Valid()
    requires page == Answer(log, Latest, cut)
    ensures page.epoch == log.epoch && page.cursor == log.latest
    ensures Synced(page.events, log, log.epoch, NextOldest(page.cursor + 1, page), page.cursor, page.hasMore)
  {
    hide Covers, Once, IsSlice, Answer;
    var start, next := Min(log.latest + 1, cut), NextOldest(page.cursor + 1, page);
    LatestPageIs(log, cut, page, start);
    BackwardReach(log, page.events, start, log.latest + 1, next, log.latest);
    NothingCovers(log);
    assert [] + page.events == page.events;
    PageCovers([], page.events, log, log.latest + 1, log.latest, next, log.latest);
  }

  lemma NothingCovers(log: Log)
    requires log.Valid()
    ensures Covers([], log, log.latest + 1, log.latest)
  {
  }

  /** The turns events belong to. */
  function Turns(events: seq<Event>): set<string> {
    set e | e in events && e.turn.Some? :: e.turn.value
  }

  lemma TurnsOfMore(shown: seq<Event>, more: seq<Event>)
    ensures Turns(shown + more) == Turns(shown) + Turns(more)
  {
  }

  /** A page shows a turn that is not among those known. */
  predicate ShowsAnother(page: seq<Event>, known: set<string>) {
    !(Turns(page) <= known)
  }

  // ----- the pages of one call -----

  /** All of them are of this epoch, and all but the last, or all, say that there is more. */
  predicate GoOn(pages: seq<Page>, n: nat, epoch: nat)
    requires n <= |pages|
  {
    forall i | 0 <= i < n :: pages[i].epoch == epoch && pages[i].hasMore
  }

  function EventsOf(pages: seq<Page>): seq<Event> {
    if pages == [] then [] else EventsOf(pages[..|pages| - 1]) + pages[|pages| - 1].events
  }

  lemma EventsOfMore(pages: seq<Page>, page: Page)
    ensures EventsOf(pages + [page]) == EventsOf(pages) + page.events
  {
    assert (pages + [page])[..|pages|] == pages;
  }

  lemma NoPages(epoch: nat)
    ensures EventsOf([]) == [] && GoOn([], 0, epoch)
  {
  }

  /** What becomes of so many reads forward that brought these pages. */
  predicate CaughtUp(result: Result, pages: seq<Page>, reading: int, epoch: nat) {
    && 0 <= reading - 1 <= |pages| <= reading && GoOn(pages, reading - 1, epoch)
    && (result == Failed <==> |pages| < reading)
    && (result == Restarted <==> |pages| == reading && pages[reading - 1].epoch != epoch)
    && (result == Ok <==> |pages| == reading && pages[reading - 1].epoch == epoch && !pages[reading - 1].hasMore)
  }

  /** The pages that belong to the epoch: all but the one that shows a restart. */
  function OfEpoch(result: Result, pages: seq<Page>): seq<Page> {
    if result == Restarted && pages != [] then pages[..|pages| - 1] else pages
  }

  lemma ReadingFails(pages: seq<Page>, epoch: nat)
    requires GoOn(pages, |pages|, epoch)
    ensures CaughtUp(Failed, pages, |pages| + 1, epoch) && OfEpoch(Failed, pages) == pages
  {
  }

  lemma ReadingEnds(result: Result, pages: seq<Page>, page: Page, epoch: nat)
    requires GoOn(pages, |pages|, epoch) && result != Failed
    requires (result == Restarted <==> page.epoch != epoch) && (result == Ok ==> !page.hasMore)
    ensures CaughtUp(result, pages + [page], |pages| + 1, epoch)
    ensures OfEpoch(result, pages + [page]) == if result == Restarted then pages else pages + [page]
  {
  }

  lemma ReadingGoesOn(pages: seq<Page>, page: Page, epoch: nat)
    requires GoOn(pages, |pages|, epoch) && page.epoch == epoch && page.hasMore
    ensures GoOn(pages + [page], |pages + [page]|, epoch)
  {
  }

  lemma PagesSince(was: seq<Page>, pages: seq<Page>, now: seq<Page>)
    requires now == was + pages
    ensures now[|was|..] == pages && was <= now
  {
  }

  lemma OnePageMore(was: seq<Page>, pages: seq<Page>, before: seq<Page>, now: seq<Page>)
    requires before == was + pages && before <= now && |now| == |before| + 1
    ensures now == was + (pages + [now[|now| - 1]])
  {
  }

  /** Some page shows that the host has restarted. */
  predicate ShowsRestart(pages: seq<Page>, epoch: nat) {
    exists page | page in pages :: page.epoch != epoch
  }

  lemma RestartShown(pages: seq<Page>, more: seq<Page>, epoch: nat)
    ensures !ShowsRestart([], epoch)
    ensures ShowsRestart(pages + more, epoch) <==> ShowsRestart(pages, epoch) || ShowsRestart(more, epoch)
    ensures |more| == 1 ==> (ShowsRestart(more, epoch) <==> more[0].epoch != epoch)
  {
    if ShowsRestart(pages, epoch) {
      var page :| page in pages && page.epoch != epoch;
      assert page in pages + more;
    }
    if ShowsRestart(more, epoch) {
      var page :| page in more && page.epoch != epoch;
      assert page in pages + more;
    }
  }

  lemma OneMorePage(sent: seq<Page>, before: seq<Page>, after: seq<Page>, epoch: nat)
    requires sent <= before <= after && |after| == |before| + 1
    ensures ShowsRestart(after[|sent|..], epoch)
            <==> ShowsRestart(before[|sent|..], epoch) || after[|before|].epoch != epoch
  {
    assert after[|sent|..] == before[|sent|..] + [after[|before|]];
    RestartShown(before[|sent|..], [after[|before|]], epoch);
  }

  // ----- the reader -----

  datatype Result = Ok | Restarted | Failed

  class Reader {
    const transport: Transport
    var epoch: nat
    var cursor: nat
    var oldest: nat
    var hasMore: bool
    var truncated: bool
    var emittedTurns: set<string>
    var shown: seq<Event>    // what the consumer was given since it last dropped everything
    var gaps: nat            // how often it was told to

    /** Holds whenever the reader waits for the host. */
    ghost predicate Valid()
      reads this, transport
    {
      && transport.Valid()
      && Synced(shown, transport.log, epoch, oldest, cursor, hasMore)
      && Turns(shown) <= emittedTurns
      && (gaps == 0 ==> emittedTurns == Turns(shown))
    }

    /** What the reader says about older history is what the last page said. */
    predicate FlagsAreOfLast()
      reads this, transport
    {
      && transport.sent != []
      && hasMore == transport.sent[|transport.sent| - 1].hasMore
      && truncated == transport.sent[|transport.sent| - 1].truncated
    }

    constructor (transport: Transport)
      requires transport.Valid() && 0 in transport.log.used && transport.log.epoch != 0
      ensures Valid() && this.transport == transport && shown == [] && gaps == 0 && epoch == 0
    {
      this.transport := transport;
      epoch, cursor, oldest, hasMore, truncated := 0, 0, 1, false, false;
      emittedTurns, shown, gaps := {}, [], 0;
    }

    /** The private `read`: whatever happens meanwhile, the reader stays in step. */
    method Read(request: Request) returns (page: Option<Page>, ghost at: Log)
      requires Valid()
      modifies transport
      ensures Valid()
      ensures at.Valid() && Evolves(old(transport.log), at) && Evolves(at, transport.log)
              && Evolves(old(transport.log), transport.log)
      ensures Synced(shown, at, epoch, oldest, cursor, hasMore)
      ensures Exchange(at, page, transport.log, transport.script)
              == Exchanged(old(transport.log), old(transport.script), request)
      ensures page.Some? ==> exists cut :: page.value == Answer(at, request, cut)
      ensures page.Some? ==> |transport.script| < |old(transport.script)|
      ensures transport.sent == if page.Some? then old(transport.sent) + [page.value] else old(transport.sent)
      ensures transport.calls == old(transport.calls) + 1 && |transport.script| <= |old(transport.script)|
    {
      hide Synced, Evolves, Exchanged;
      ghost var before := transport.log;
      page, at := transport.Read(request);
      EvolvingKeeps(shown, before, at, epoch, oldest, cursor, hasMore);
      EvolvingKeeps(shown, before, transport.log, epoch, oldest, cursor, hasMore);
    }

    method EmitPage(page: Page)
      modifies this`shown, this`emittedTurns
      ensures shown == old(shown) + page.events
      ensures emittedTurns == old(emittedTurns) + Turns(page.events)
    {
      for i := 0 to |page.events|
        invariant shown == old(shown) + page.events[..i]
        invariant emittedTurns == old(emittedTurns) + Turns(page.events[..i])
      {
        var e := page.events[i];
        shown := shown + [e];
        assert page.events[..i + 1] == page.events[..i] + [e];
        if e.turn.Some? {
          emittedTurns := emittedTurns + {e.turn.value};
        }
      }
      assert page.events[..|page.events|] == page.events;
    }

    /** Takes over a latest page. */
    method Adopt(page: Page)
      requires shown == []
      modifies this`epoch, this`cursor, this`oldest, this`hasMore, this`truncated, this`shown, this`emittedTurns
      ensures epoch == page.epoch && cursor == page.cursor && oldest == NextOldest(page.cursor + 1, page)
      ensures hasMore == page.hasMore && truncated == page.truncated
      ensures shown == page.events && emittedTurns == old(emittedTurns) + Turns(page.events)
    {
      epoch, cursor := page.epoch, page.cursor;
      oldest := if page.events == [] then page.cursor + 1 else page.events[0].seqNo;
      hasMore, truncated := page.hasMore, page.truncated;
      EmitPage(page);
    }

    /** Takes over a page of history. */
    method Prepend(page: Page)
      modifies this`oldest, this`hasMore, this`truncated, this`shown, this`emittedTurns
      ensures oldest == NextOldest(old(oldest), page) && hasMore == page.hasMore && truncated == page.truncated
      ensures shown == old(shown) + page.events && emittedTurns == old(emittedTurns) + Turns(page.events)
    {
      EmitPage(page);
      if page.events != [] {
        oldest := page.events[0].seqNo;
      }
      hasMore, truncated := page.hasMore, page.truncated;
    }

    /** The reader stands where the latest page put it, if there was one. */
    predicate Took(x: Exchange, ok: bool)
      reads this, transport
    {
      && transport.log == x.later && transport.script == x.rest
      && (ok <==> x.page.Some?)
      && (ok ==>
            var page := x.page.value;
            && epoch == page.epoch && cursor == page.cursor && oldest == NextOldest(page.cursor + 1, page)
            && hasMore == page.hasMore && truncated == page.truncated && shown == page.events
            && transport.sent != [] && transport.sent[|transport.sent| - 1] == page)
    }

    /** The latest page first. The consumer starts from nothing. */
    method Resync() returns (ok: bool)
      requires Valid() && shown == [] && epoch != transport.log.epoch
      modifies this, transport
      ensures Valid() && gaps == old(gaps)
      ensures ok ==> epoch != old(epoch)
      ensures !ok ==> shown == [] && epoch == old(epoch) && epoch != transport.log.epoch
      ensures Took(Exchanged(old(transport.log), old(transport.script), Latest), ok)
      ensures ok ==> emittedTurns == old(emittedTurns) + Turns(shown)
      ensures |transport.script| <= |old(transport.script)|
      ensures transport.calls == old(transport.calls) + 1 && old(transport.sent) <= transport.sent
      ensures |transport.sent| == |old(transport.sent)| + if ok then 1 else 0
    {
      hide Synced, Evolves, Exchanged, Answer, NextOldest, Log.Valid;
      ghost var before := transport.log;
      var page, at := Read(Latest);
      NotBack(before, at, epoch, shown, oldest, cursor, hasMore);
      NotBack(before, transport.log, epoch, shown, oldest, cursor, hasMore);
      if page.None? {
        return false;
      }
      ghost var cut :| page.value == Answer(at, Latest, cut);
      LatestPageFits(at, cut, page.value);
      Adopt(page.value);
      EvolvingKeeps(shown, at, transport.log, epoch, oldest, cursor, hasMore);
      ok := true;
    }

    /** Takes over a page of newer events. */
    method Advance(page: Page)
      modifies this`cursor, this`shown, this`emittedTurns
      ensures cursor == NextCursor(old(cursor), page)
      ensures shown == old(shown) + page.events && emittedTurns == old(emittedTurns) + Turns(page.events)
    {
      EmitPage(page);
      if page.events != [] {
        cursor := Max(cursor, page.events[|page.events| - 1].seqNo);
      }
      if !page.hasMore {
        cursor := Max(cursor, page.cursor);
      }
    }

    /** Reads one page of newer events. `Ok` says that it came, from the same epoch. */
    method ReadNewer() returns (result: Result)
      requires Valid()
      modifies this, transport
      ensures Valid() && epoch == old(epoch) && gaps == old(gaps) && oldest == old(oldest) && hasMore == old(hasMore)
      ensures cursor >= old(cursor) && Evolves(old(transport.log), transport.log)
      ensures transport.calls == old(transport.calls) + 1
      ensures result == Failed <==> transport.sent == old(transport.sent)
      ensures result != Failed ==>
                && |transport.sent| == |old(transport.sent)| + 1 && old(transport.sent) <= transport.sent
                && (result == Restarted <==> transport.sent[|old(transport.sent)|].epoch != epoch)
                && |transport.script| < |old(transport.script)|
      ensures result == Ok ==>
                var page := transport.sent[|old(transport.sent)|];
                && shown == old(shown) + page.events && emittedTurns == old(emittedTurns) + Turns(page.events)
                && old(transport.log.epoch) == epoch && (!page.hasMore ==> cursor >= old(transport.log.latest))
      ensures result != Ok ==> shown == old(shown) && emittedTurns == old(emittedTurns) && cursor == old(cursor)
      ensures result == Restarted ==> epoch != transport.log.epoch
      ensures var x := Exchanged(old(transport.log), old(transport.script), Forward(old(cursor), epoch));
              && transport.log == x.later && transport.script == x.rest
              && (result == Failed <==> x.page.None?)
              && (result != Failed ==> transport.sent[|old(transport.sent)|] == x.page.value)
      ensures |transport.script| <= |old(transport.script)|
    {
      hide Synced, Evolves, Exchanged, Answer, Log.Valid, NextCursor;
      ghost var before := transport.log;
      var page, at := Read(Forward(cursor, epoch));
      if page.None? {
        return Failed;
      }
      ghost var cut :| page.value == Answer(at, Forward(cursor, epoch), cut);
      AnswerIsOf(at, Forward(cursor, epoch), cut);
      if page.value.epoch != epoch {
        NotBack(at, transport.log, epoch, shown, oldest, cursor, hasMore);
        return Restarted;
      }
      ForwardPageKeeps(shown, at, epoch, oldest, cursor, hasMore, cut, page.value);
      Advance(page.value);
      EvolvingKeeps(shown, at, transport.log, epoch, oldest, cursor, hasMore);
      StillThere(before, at, epoch, old(shown), oldest, old(cursor), hasMore);
      LatestGrows(before, at);
      result := Ok;
    }

    /** Reads forward to the host's newest event, or finds out that the host restarted. It fails exactly where a read
        brings no page; else the last page decides. */
    method CatchUp() returns (result: Result)
      requires Valid()
      modifies this, transport
      ensures Valid() && epoch == old(epoch) && gaps == old(gaps)
      ensures oldest == old(oldest) && cursor >= old(cursor) && hasMore == old(hasMore)
      ensures old(shown) <= shown && old(transport.sent) <= transport.sent
      ensures CaughtUp(result, transport.sent[|old(transport.sent)|..], transport.calls - old(transport.calls), epoch)
      ensures shown == old(shown) + EventsOf(OfEpoch(result, transport.sent[|old(transport.sent)|..]))
      ensures result == Ok && old(transport.log.epoch) == epoch ==> cursor >= old(transport.log.latest)
      ensures result == Restarted ==> epoch != transport.log.epoch
      ensures var x := Exchanged(old(transport.log), old(transport.script), Forward(old(cursor), old(epoch)));
              x.page.Some? && x.page.value.epoch != epoch ==>
                && result == Restarted && shown == old(shown) && emittedTurns == old(emittedTurns)
                && transport.log == x.later && transport.script == x.rest
      ensures |transport.script| <= |old(transport.script)|
    {
      hide Valid, Turns, Log.Valid, Evolves, Exchanged, EventsOf, GoOn, CaughtUp, OfEpoch;
      ghost var first, x := transport.log, Exchanged(transport.log, transport.script, Forward(cursor, epoch));
      ghost var was, pages: seq<Page> := transport.sent, [];
      Steady(this);
      NoPages(epoch);
      while true
        invariant Valid() && epoch == old(epoch) && gaps == old(gaps)
        invariant oldest == old(oldest) && cursor >= old(cursor) && hasMore == old(hasMore)
        invariant |pages| == transport.calls - old(transport.calls) && transport.sent == was + pages
        invariant GoOn(pages, |pages|, epoch) && shown == old(shown) + EventsOf(pages)
        invariant Evolves(first, transport.log)
        invariant if pages == [] then
                    x == Exchanged(transport.log, transport.script, Forward(cursor, epoch))
                    && emittedTurns == old(emittedTurns)
                  else x.page.Some? && x.page.value.epoch == epoch
        invariant |transport.script| <= |old(transport.script)|
        decreases |transport.script|
      {
        ghost var before, read := transport.log, transport.sent;
        Steady(this);
        result := ReadNewer();
        EvolvesTransitive(first, before, transport.log);
        if result == Failed {
          PagesSince(was, pages, transport.sent);
          ReadingFails(pages, epoch);
          return;
        }
        var page := transport.sent[|transport.sent| - 1];
        OnePageMore(was, pages, read, transport.sent);
        EventsOfMore(pages, page);
        if result == Restarted || !page.hasMore {
          PagesSince(was, pages + [page], transport.sent);
          ReadingEnds(result, pages, page, epoch);
          LatestGrows(first, before);
          return;
        }
        ReadingGoesOn(pages, page, epoch);
        pages := pages + [page];
      }
    }

    /** Tells the consumer to drop everything and starts over. */
    method Restart() returns (ok: bool)
      requires Valid() && epoch != transport.log.epoch
      modifies this, transport
      ensures Valid() && gaps == old(gaps) + 1
      ensures ok ==> epoch != old(epoch)
      ensures !ok ==> epoch == old(epoch) && shown == []
      ensures Took(Exchanged(old(transport.log), old(transport.script), Latest), ok)
      ensures ok ==> emittedTurns == old(emittedTurns) + Turns(shown)
      ensures |transport.script| <= |old(transport.script)|
      ensures transport.calls == old(transport.calls) + 1 && old(transport.sent) <= transport.sent
      ensures |transport.sent| == |old(transport.sent)| + if ok then 1 else 0
    {
      gaps, shown := gaps + 1, [];
      ok := Resync();
    }

    method Refresh() returns (ok: bool)
      requires Valid()
      modifies this, transport
      ensures Valid()
      ensures gaps == old(gaps) ==>
                epoch == old(epoch) && oldest == old(oldest) && cursor >= old(cursor) && old(shown) <= shown
      ensures gaps != old(gaps) ==> gaps == old(gaps) + 1 && (ok ==> epoch != old(epoch))
      ensures ok && gaps == old(gaps) && old(transport.log.epoch) == epoch ==> cursor >= old(transport.log.latest)
      ensures var x := Exchanged(old(transport.log), old(transport.script), Forward(old(cursor), old(epoch)));
              x.page.Some? && x.page.value.epoch != old(epoch) ==>
                && gaps == old(gaps) + 1 && Took(Exchanged(x.later, x.rest, Latest), ok)
                && (ok ==> emittedTurns == old(emittedTurns) + Turns(shown))
      ensures |transport.script| <= |old(transport.script)| && old(transport.sent) <= transport.sent
      ensures ok <==> |transport.sent| - |old(transport.sent)| == transport.calls - old(transport.calls)
      ensures gaps != old(gaps) <==> ShowsRestart(transport.sent[|old(transport.sent)|..], old(epoch))
    {
      hide Synced, Evolves, Exchanged, Log.Valid, Turns, EventsOf;
      var result := CatchUp();
      match result {
        case Ok => ok := true;
        case Failed => ok := false;
        case Restarted => ok := Restart();
      }
    }

    /** Reads one page of history. `older` says whether it shows a turn that was not there. */
    method ReadOlder() returns (result: Result, older: bool)
      requires Valid()
      modifies this, transport
      ensures Valid() && epoch == old(epoch) && gaps == old(gaps) && cursor == old(cursor)
      ensures oldest <= old(oldest) && old(shown) <= shown
      ensures transport.calls == old(transport.calls) + 1
      ensures result == Ok ==> (older <==> emittedTurns != old(emittedTurns))
      ensures result == Ok ==>
                && |transport.sent| == |old(transport.sent)| + 1
                && old(transport.sent) == transport.sent[..|old(transport.sent)|]
                && var page := transport.sent[|old(transport.sent)|];
                && shown == old(shown) + page.events && emittedTurns == old(emittedTurns) + Turns(page.events)
                && FlagsAreOfLast()
      ensures result == Restarted ==> epoch != transport.log.epoch
      ensures old(transport.sent) <= transport.sent
      ensures if result == Failed then transport.sent == old(transport.sent)
              else
                && |transport.sent| == |old(transport.sent)| + 1
                && (result == Restarted <==> transport.sent[|old(transport.sent)|].epoch != epoch)
      ensures var x := Exchanged(old(transport.log), old(transport.script), Backward(old(oldest), epoch));
              && transport.log == x.later && transport.script == x.rest
              && (result == Ok <==> x.page.Some? && x.page.value.epoch == epoch)
              && (result == Ok ==> transport.sent[|old(transport.sent)|] == x.page.value
                                   && oldest == NextOldest(old(oldest), x.page.value))
    {
      hide Synced, Evolves, Exchanged, Answer, NextOldest, Log.Valid;
      older := false;
      var page, at := Read(Backward(oldest, epoch));
      if page.None? {
        return Failed, older;
      }
      ghost var cut :| page.value == Answer(at, Backward(oldest, epoch), cut);
      AnswerIsOf(at, Backward(oldest, epoch), cut);
      if page.value.epoch != epoch {
        NotBack(at, transport.log, epoch, shown, oldest, cursor, hasMore);
        return Restarted, older;
      }
      older := exists e | e in page.value.events :: e.turn.Some? && e.turn.value !in emittedTurns;
      BackwardPageKeeps(shown, at, epoch, oldest, cursor, hasMore, cut, page.value);
      OlderTurn(page.value.events, emittedTurns);
      Prepend(page.value);
      EvolvingKeeps(shown, at, transport.log, epoch, oldest, cursor, hasMore);
      result := Ok;
    }

    /** A restart that a page of this call has shown. */
    method StartOver(ghost sent: seq<Page>)
      requires Valid() && epoch != transport.log.epoch
      requires sent <= transport.sent && ShowsRestart(transport.sent[|sent|..], epoch)
      modifies this, transport
      ensures Valid() && gaps == old(gaps) + 1 && transport.calls == old(transport.calls) + 1
      ensures sent <= transport.sent && ShowsRestart(transport.sent[|sent|..], old(epoch))
    {
      hide ShowsRestart;
      ghost var came := transport.sent;
      var _ := Restart();
      assert transport.sent[|sent|..] == came[|sent|..] + transport.sent[|came|..];
      RestartShown(came[|sent|..], transport.sent[|came|..], old(epoch));
    }

    /** One request for older history: reads on until it has shown a turn that was not there, the host has no more,
        or the budget of pages is spent. */
    method LoadOlder() returns (ok: bool)
      requires Valid()
      modifies this, transport
      ensures Valid()
      ensures gaps == old(gaps) ==>
                epoch == old(epoch) && cursor == old(cursor) && oldest <= old(oldest) && old(shown) <= shown
      ensures gaps != old(gaps) ==> !ok && gaps == old(gaps) + 1
      ensures old(transport.sent) <= transport.sent
      ensures gaps != old(gaps) <==> ShowsRestart(transport.sent[|old(transport.sent)|..], old(epoch))
      ensures ok <==> |transport.sent| - |old(transport.sent)| == transport.calls - old(transport.calls)
                      && !ShowsRestart(transport.sent[|old(transport.sent)|..], old(epoch))
      ensures ok ==>
                !hasMore || emittedTurns != old(emittedTurns)
                || transport.calls == old(transport.calls) + 4
      ensures ok ==> transport.calls <= old(transport.calls) + 4
      ensures ok ==> forall i | |old(transport.sent)| <= i < |transport.sent| - 1 ::
                transport.sent[i].hasMore && Turns(transport.sent[i].events) <= old(emittedTurns)
      ensures ok && old(emittedTurns == Turns(shown)) ==> emittedTurns == Turns(shown)
      ensures ok ==> if transport.calls == old(transport.calls) then
                       !hasMore && hasMore == old(hasMore) && shown == old(shown)
                     else FlagsAreOfLast()
      ensures var x := Exchanged(old(transport.log), old(transport.script), Backward(old(oldest), old(epoch)));
              old(hasMore) && x.page.Some? && x.page.value.epoch == old(epoch) ==>
                if x.page.value.hasMore && !ShowsAnother(x.page.value.events, old(emittedTurns))
                then transport.calls > old(transport.calls) + 1
                else transport.calls == old(transport.calls) + 1
    {
      hide Synced, Exchanged, Turns, ShowsRestart;
      ghost var sent: seq<Page> := transport.sent;
      assert transport.sent[|sent|..] == [];
      RestartShown([], [], epoch);
      ghost var x := Exchanged(transport.log, transport.script, Backward(oldest, epoch));
      var pages := 0;
      while hasMore && pages < MAX_HISTORY_PAGES_PER_REQUEST
        invariant Valid() && epoch == old(epoch) && gaps == old(gaps) && cursor == old(cursor)
        invariant oldest <= old(oldest) && old(shown) <= shown
        invariant emittedTurns == old(emittedTurns)
        invariant old(emittedTurns == Turns(shown)) ==> emittedTurns == Turns(shown)
        invariant pages <= MAX_HISTORY_PAGES_PER_REQUEST && transport.calls == old(transport.calls) + pages
        invariant |transport.sent| == |old(transport.sent)| + pages && old(transport.sent) <= transport.sent
        invariant !ShowsRestart(transport.sent[|old(transport.sent)|..], epoch)
        invariant forall i | |old(transport.sent)| <= i < |transport.sent| ::
            Turns(transport.sent[i].events) <= old(emittedTurns)
            && (i < |transport.sent| - 1 ==> transport.sent[i].hasMore)
        invariant if pages == 0 then hasMore == old(hasMore) && shown == old(shown)
                  else FlagsAreOfLast()
        invariant if pages == 0 then x == Exchanged(transport.log, transport.script, Backward(oldest, epoch))
                  else x.page.Some? && transport.sent[|old(transport.sent)|] == x.page.value
        decreases MAX_HISTORY_PAGES_PER_REQUEST - pages
      {
        ghost var before, read := shown, transport.sent;
        var result, showsAnOlderTurn := ReadOlder();
        if result == Failed {
          return false;
        }
        OneMorePage(sent, read, transport.sent, epoch);
        if result == Restarted {
          StartOver(sent);
          return false;
        }
        TurnsOfMore(before, transport.sent[|transport.sent| - 1].events);
        pages := pages + 1;
        if showsAnOlderTurn {
          break;
        }
      }
      ok := true;
    }

    predicate HintIsNew(epoch: nat, cursor: nat)
      reads this
    {
      epoch != this.epoch || cursor > this.cursor
    }
  }

  lemma AnswerIsOf(log: Log, request: Request, cut: nat)
    ensures Answer(log, request, cut).epoch == log.epoch
  {
  }

  /** An epoch the host has left does not come back. */
  lemma NotBack(at: Log, later: Log, epoch: nat, shown: seq<Event>, oldest: nat, cursor: nat, hasMore: bool)
    requires Evolves(at, later) && at.epoch != epoch && Synced(shown, at, epoch, oldest, cursor, hasMore)
    ensures later.epoch != epoch
  {
  }

  lemma Steady(reader: Reader)
    requires reader.Valid()
    ensures reader.transport.log.Valid() && Evolves(reader.transport.log, reader.transport.log)
  {
    EvolvesReflexive(reader.transport.log);
  }

  /** An answer from the reader's epoch means that the host was in it when asked. */
  lemma StillThere(before: Log, at: Log, epoch: nat, shown: seq<Event>, oldest: nat, cursor: nat, hasMore: bool)
    requires Evolves(before, at) && at.epoch == epoch && Synced(shown, before, epoch, oldest, cursor, hasMore)
    ensures before.epoch == epoch
  {
  }

  lemma LatestGrows(first: Log, at: Log)
    requires Evolves(first, at)
    ensures first.epoch == at.epoch ==> first.latest <= at.latest
  {
  }

  lemma OlderTurn(events: seq<Event>, emitted: set<string>)
    ensures (exists e | e in events :: e.turn.Some? && e.turn.value !in emitted) <==> emitted + Turns(events) != emitted
  {
    if e :| e in events && e.turn.Some? && e.turn.value !in emitted {
      assert e.turn.value in Turns(events);
    }
  }

  /** A hint that is not new may be ignored: what the host had when it sent it, and has not changed since, the
      consumer has. */
  lemma IgnoredHint(reader: Reader, hinted: Log)
    requires reader.Valid() && hinted.Valid() && Evolves(hinted, reader.transport.log)
    requires !reader.HintIsNew(hinted.epoch, hinted.latest) && reader.transport.log.epoch == hinted.epoch
    ensures forall s | s in hinted.events && s in reader.transport.log.events && s >= reader.oldest ::
              IsCurrent(reader.shown, reader.transport.log.events[s])
  {
    hide IsCurrent;
  }

  /** A hint of the host's present state is ignored exactly by a reader that has caught up with it. */
  lemma PresentHint(reader: Reader)
    requires reader.Valid()
    ensures var log := reader.transport.log;
            !reader.HintIsNew(log.epoch, log.latest) <==> reader.epoch == log.epoch && reader.cursor == log.latest
  {
  }

  // ----- what counts as an older turn -----

  /** `loadOlder` promises to read on past pages that "only repeat turns the transcript already has", and tests for
      turns it ever emitted. On one page the two agree unless all its turns were emitted and one is not in the
      transcript. */
  lemma PageTestsAgree(reader: Reader, page: seq<Event>)
    requires reader.Valid()
    ensures (ShowsAnother(page, reader.emittedTurns) <==> ShowsAnother(page, Turns(reader.shown)))
            <==> (Turns(page) <= reader.emittedTurns ==> Turns(page) <= Turns(reader.shown))
    ensures ShowsAnother(page, reader.emittedTurns) ==> ShowsAnother(page, Turns(reader.shown))
  {
  }

  /** On every page they agree exactly when every turn ever emitted is in the transcript, as before any restart. */
  lemma TestsAgree(reader: Reader)
    requires reader.Valid()
    ensures (forall page :: ShowsAnother(page, reader.emittedTurns) <==> ShowsAnother(page, Turns(reader.shown)))
            <==> reader.emittedTurns == Turns(reader.shown)
    ensures reader.gaps == 0 ==> reader.emittedTurns == Turns(reader.shown)
  {
    hide Synced;
    if turn :| turn in reader.emittedTurns && turn !in Turns(reader.shown) {
      var page := [Event(0, None, Some(turn), "")];
      assert page[0] in page && Turns(page) == {turn};
      assert ShowsAnother(page, Turns(reader.shown)) && !ShowsAnother(page, reader.emittedTurns);
    }
  }

  // ----- a run in which they differ -----

  const RECORD_A := Event(1, Some("a"), Some("first"), "")
  const RECORD_B := Event(6, Some("b"), Some("second"), "")
  const OPENED := Log(1, map[1 := RECORD_A], 0, 1, true, false, {0, 1})
  const RESTARTED := Log(2, map[6 := RECORD_B], 5, 6, false, false, {0, 1, 2})
  const REPLAYED := RECORD_A.(seqNo := 5)
  const HISTORY := Page(2, [REPLAYED], true, 6, false)

  /** The host restarts, has one new turn, and answers; later it finds the old turn in its history. */
  const OPENING := [Answered(1), Delivered]
  const RESTARTING := [Change(Move.Restart(2, 5, true)), Change(Append(Some("b"), Some("second"), "")),
                       Answered(6), Delivered]
  const RESYNCING := [Answered(6), Delivered]
  const SCROLLING := [Change(Backfill("a", "first", "")), Answered(5), Delivered]

  lemma Prompt(log: Log, cut: nat, rest: seq<Happening>, request: Request)
    ensures Exchanged(log, [Answered(cut), Delivered] + rest, request)
            == Exchange(log, Some(Answer(log, request, cut)), log, rest)
  {
    hide Answer;
    var script := [Answered(cut), Delivered] + rest;
    assert script[1..] == [Delivered] + rest && script[1..][1..] == rest;
    assert Idled(log, script) == (log, script) && Idled(log, script[1..]) == (log, script[1..]);
  }

  lemma AfterChange(log: Log, move: Move, rest: seq<Happening>, request: Request)
    ensures Exchanged(log, [Change(move)] + rest, request) == Exchanged(After(log, move), rest, request)
  {
    hide Answer, After;
    var script := [Change(move)] + rest;
    assert script[1..] == rest;
    assert Idled(log, script) == Idled(After(log, move), rest);
  }

  lemma OpeningRead(rest: seq<Happening>)
    ensures Exchanged(OPENED, OPENING + rest, Latest)
            == Exchange(OPENED, Some(Page(1, [RECORD_A], false, 1, false)), OPENED, rest)
  {
    Prompt(OPENED, 1, rest, Latest);
    assert Range(OPENED.events, 1, 1) == [];
    assert Range(OPENED.events, 1, 2) == [RECORD_A];
  }

  lemma RestartRead(rest: seq<Happening>)
    ensures var x := Exchanged(OPENED, RESTARTING + rest, Forward(1, 1));
            x.page.Some? && x.page.value.epoch == 2 && x.later == RESTARTED && x.rest == rest
  {
    hide Exchanged;
    var moved := After(OPENED, Move.Restart(2, 5, true));
    var last := [Answered(6), Delivered] + rest;
    var later := [Change(Append(Some("b"), Some("second"), ""))] + last;
    assert RESTARTING + rest == [Change(Move.Restart(2, 5, true))] + later;
    AfterChange(OPENED, Move.Restart(2, 5, true), later, Forward(1, 1));
    AfterChange(moved, Append(Some("b"), Some("second"), ""), last, Forward(1, 1));
    assert moved == Log(2, map[], 5, 5, false, false, {0, 1, 2});
    assert After(moved, Append(Some("b"), Some("second"), "")) == RESTARTED;
    Prompt(RESTARTED, 6, rest, Forward(1, 1));
  }

  lemma ResyncRead(rest: seq<Happening>)
    ensures Exchanged(RESTARTED, RESYNCING + rest, Latest)
            == Exchange(RESTARTED, Some(Page(2, [RECORD_B], true, 6, false)), RESTARTED, rest)
  {
    Prompt(RESTARTED, 6, rest, Latest);
    assert Range(RESTARTED.events, 6, 6) == [];
    assert Range(RESTARTED.events, 6, 7) == [RECORD_B];
  }

  lemma ScrollRead()
    ensures Exchanged(RESTARTED, SCROLLING, Backward(6, 2)).page == Some(HISTORY)
  {
    hide Exchanged;
    var log := After(RESTARTED, Backfill("a", "first", ""));
    assert log.events == map[5 := REPLAYED, 6 := RECORD_B];
    assert SCROLLING == [Change(Backfill("a", "first", ""))] + ([Answered(5), Delivered] + []);
    AfterChange(RESTARTED, Backfill("a", "first", ""), [Answered(5), Delivered] + [], Backward(6, 2));
    Prompt(log, 5, [], Backward(6, 2));
    assert Range(log.events, 5, 5) == [];
    assert Range(log.events, 5, 6) == [REPLAYED];
  }

  /** A reader is opened, and the host restarts: the transcript has only the second turn, the first was emitted. */
  method OpenAndRestart(transport: Transport) returns (reader: Reader)
    requires transport.log == OPENED && transport.script == OPENING + (RESTARTING + (RESYNCING + SCROLLING))
    modifies transport
    ensures fresh(reader) && reader.Valid() && reader.transport == transport && reader.gaps == 1
    ensures reader.epoch == 2 && reader.oldest == 6 && reader.hasMore
    ensures Turns(reader.shown) == {"second"} && reader.emittedTurns == {"first", "second"}
    ensures transport.log == RESTARTED && transport.script == SCROLLING
  {
    hide Synced, Exchanged, Answer, Evolves;
    OpeningRead(RESTARTING + (RESYNCING + SCROLLING));
    reader := new Reader(transport);
    var ok := reader.Resync();
    assert Turns([RECORD_A]) == {"first"};
    RestartRead(RESYNCING + SCROLLING);
    ResyncRead(SCROLLING);
    ok := reader.Refresh();
    assert Turns([RECORD_B]) == {"second"};
  }

  /** The first page of history shows a turn the transcript does not have, and `loadOlder` reads on past it. */
  method ReadsPastAnOlderTurn(transport: Transport) returns (reader: Reader, pages: int)
    requires transport.log == OPENED && transport.script == OPENING + (RESTARTING + (RESYNCING + SCROLLING))
    modifies transport
    ensures Exchanged(RESTARTED, SCROLLING, Backward(6, 2)).page == Some(HISTORY)
    ensures HISTORY.hasMore && ShowsAnother(HISTORY.events, {"second"})
    ensures pages > 1
  {
    hide Synced, Exchanged, Answer, Evolves;
    reader := OpenAndRestart(transport);
    pages := transport.calls;
    ScrollRead();
    assert Turns(HISTORY.events) == {"first"} by {
      assert REPLAYED in HISTORY.events;
    }
    var ok := reader.LoadOlder();
    pages := transport.calls - pages;
  }

  /** A reader for its whole life: opened, refreshed and scrolled in any order, with anything happening on the host
      and on the wire. Within one epoch of the reader its marks only move apart. */
  method Follow(transport: Transport, older: seq<bool>) returns (reader: Reader)
    requires transport.Valid() && 0 in transport.log.used && transport.log.epoch != 0
    modifies transport
    ensures fresh(reader) && reader.transport == transport && reader.Valid()
    ensures Once(reader.shown, reader.oldest, reader.cursor)
    ensures reader.epoch == transport.log.epoch ==>
              Covers(reader.shown, transport.log, reader.oldest, reader.cursor)
    ensures reader.epoch == transport.log.epoch && !reader.hasMore && reader.cursor == transport.log.latest ==>
              forall s | s in transport.log.events :: IsCurrent(reader.shown, transport.log.events[s])
  {
    reader := new Reader(transport);
    var ok := reader.Resync();
    if !ok {
      return;
    }
    for i := 0 to |older|
      invariant fresh(reader) && reader.transport == transport && reader.Valid()
    {
      if older[i] {
        ok := reader.LoadOlder();
      } else {
        ok := reader.Refresh();
      }
    }
  }

  /** What the consumer has, once the reader is up to date with the host and has read all history: exactly the
      host's records, each in its newest version, and every event once. */
  lemma FullReplica(shown: seq<Event>, log: Log, epoch: nat, oldest: nat, cursor: nat)
    requires log.Valid() && Synced(shown, log, epoch, oldest, cursor, false)
    requires epoch == log.epoch && cursor == log.latest
    ensures forall s | s in log.events :: IsCurrent(shown, log.events[s])
    ensures forall s | s in log.events && log.events[s].id.Some? ::
              log.events[s].id.value in View(shown) && View(shown)[log.events[s].id.value] == log.events[s]
  {
  }
}
