/** Paging over whole runs: each plan once per epoch, and how many runs and ticks an epoch takes. */
module JobCoverage {
  import opened Wrappers
  import opened JobRuns
  import Arith

  // ---------------------------------------------------------------- each plan once

  /** The pages of epoch `e`, in order, walk exactly the indices below `n`, each page from where the last one ended. */
  predicate Covered(pages: seq<Page>, e: nat, n: nat)
    decreases |pages|
  {
    if pages == [] then n == 0
    else
      var last := pages[|pages| - 1];
      if last.epoch == e then last.from < last.to && last.to == n && Covered(pages[..|pages| - 1], e, last.from)
      else Covered(pages[..|pages| - 1], e, n)
  }

  ghost predicate CoveredToTheCursor(pages: seq<Page>, b: Book) { forall e :: Covered(pages, e, CursorOf(b, e)) }

  /** How many of the pages of epoch `e` walk index `i`. */
  function Visits(pages: seq<Page>, e: nat, i: nat): nat {
    if pages == [] then 0
    else
      var last := pages[|pages| - 1];
      Visits(pages[..|pages| - 1], e, i) + (if last.epoch == e && last.from <= i < last.to then 1 else 0)
  }

  lemma {:induction false} CoveredVisitsOnce(pages: seq<Page>, e: nat, n: nat, i: nat)
    requires Covered(pages, e, n)
    ensures Visits(pages, e, i) == if i < n then 1 else 0
    decreases |pages|
  {
    if pages != [] {
      var last := pages[|pages| - 1];
      CoveredVisitsOnce(pages[..|pages| - 1], e, if last.epoch == e then last.from else n, i);
    }
  }

  lemma MinedPageCovers(pages: seq<Page>, b: Book, end: nat)
    requires CoveredToTheCursor(pages, b) && Cursor(b) < end
    ensures CoveredToTheCursor(pages + [Page(b.epoch, Cursor(b), end)], Paged(b, end))
  {
    var page := Page(b.epoch, Cursor(b), end);
    var after := pages + [page];
    assert after[|after| - 1] == page && after[..|after| - 1] == pages;
    forall e ensures Covered(after, e, CursorOf(Paged(b, end), e)) {
      assert Covered(pages, e, CursorOf(b, e));
    }
  }

  lemma SameCursors(pages: seq<Page>, b: Book, c: Book)
    requires CoveredToTheCursor(pages, b) && b.cursors == c.cursors
    ensures CoveredToTheCursor(pages, c)
  {
    forall e ensures Covered(pages, e, CursorOf(c, e)) {
      assert Covered(pages, e, CursorOf(b, e));
    }
  }

  lemma MoveKeepsCovered(walked: seq<Page>, b: Book, m: Move, limit: nat)
    requires limit > 0 && Sound(b) && CoveredToTheCursor(walked, b)
    ensures CoveredToTheCursor(walked + Moved(b, m, limit).pages, Moved(b, m, limit).book)
  {
    var t := Moved(b, m, limit);
    if t.pages == [] {
      assert walked + t.pages == walked;
      SameCursors(walked, b, t.book);
    } else {
      var end := PageEnd(b, limit, m.taken);
      PageAdvances(b, limit, m.taken);
      MinedPageCovers(walked, b, end);
      SameCursors(walked + t.pages, Paged(b, end), t.book);
    }
  }

  lemma {:induction false} MovesKeepCovered(walked: seq<Page>, b: Book, moves: seq<Move>, limit: nat)
    requires limit > 0 && Sound(b) && CoveredToTheCursor(walked, b)
    ensures CoveredToTheCursor(walked + AllMoved(b, moves, limit).pages, AllMoved(b, moves, limit).book)
    decreases |moves|
  {
    if moves == [] {
      assert walked + [] == walked;
    } else {
      var init := moves[..|moves| - 1];
      var so := AllMoved(b, init, limit);
      MovesKeepCovered(walked, b, init, limit);
      MovesKeepSound(b, init, limit);
      MoveKeepsCovered(walked + so.pages, so.book, moves[|moves| - 1], limit);
      assert walked + (so.pages + Moved(so.book, moves[|moves| - 1], limit).pages)
          == walked + so.pages + Moved(so.book, moves[|moves| - 1], limit).pages;
    }
  }

  /** A page of our own after what others did. */
  lemma TryKeepsCovered(walked: seq<Page>, b: Book, t: Try, live: bool, limit: nat)
    requires limit > 0 && Sound(b) && CoveredToTheCursor(walked, b)
    ensures var so := AllMoved(b, t.before, limit);
            && Sound(so.book) && CoveredToTheCursor(walked + so.pages, so.book)
            && (StopsAt(so.book, live, t.answer).None? ==>
                  var end := PageEnd(so.book, limit, t.answer.taken);
                  Sound(Paged(so.book, end)) &&
                  CoveredToTheCursor(walked + (so.pages + [Page(so.book.epoch, Cursor(so.book), end)]),
                                     Paged(so.book, end)))
  {
    var so := AllMoved(b, t.before, limit);
    MovesKeepSound(b, t.before, limit);
    MovesKeepCovered(walked, b, t.before, limit);
    if StopsAt(so.book, live, t.answer).None? {
      var end := PageEnd(so.book, limit, t.answer.taken);
      PageAdvances(so.book, limit, t.answer.taken);
      PageKeepsSound(so.book, end);
      MinedPageCovers(walked + so.pages, so.book, end);
      assert walked + so.pages + [Page(so.book.epoch, Cursor(so.book), end)]
          == walked + (so.pages + [Page(so.book.epoch, Cursor(so.book), end)]);
    }
  }

  lemma FrontConcat(walked: seq<Page>, here: seq<Page>, rest: Outcome)
    ensures walked + Front(here, rest).pages == walked + here + rest.pages
  {
  }

  lemma {:induction false} RunKeepsCovered(walked: seq<Page>, b: Book, tries: seq<Try>, live: bool, limit: nat)
    requires limit > 0 && Sound(b) && CoveredToTheCursor(walked, b)
    ensures Sound(Pages(b, tries, live, limit).book)
    ensures CoveredToTheCursor(walked + Pages(b, tries, live, limit).pages, Pages(b, tries, live, limit).book)
    decreases |tries|
  {
    var o := Pages(b, tries, live, limit);
    if tries == [] {
      assert walked + o.pages == walked;
    } else {
      TryKeepsCovered(walked, b, tries[0], live, limit);
      var t := AllMoved(b, tries[0].before, limit);
      if StopsAt(t.book, live, tries[0].answer).Some? {
        SameCursors(walked + t.pages, t.book, o.book);
      } else {
        var end := PageEnd(t.book, limit, tries[0].answer.taken);
        var here := t.pages + [Page(t.book.epoch, Cursor(t.book), end)];
        if end != t.book.plans {
          var rest := Pages(Paged(t.book, end), tries[1..], live, limit);
          RunKeepsCovered(walked + here, Paged(t.book, end), tries[1..], live, limit);
          FrontConcat(walked, here, rest);
        }
      }
    }
  }

  /** A page is as long as the limit allows. */
  predicate WithinLimit(pages: seq<Page>, limit: nat) {
    forall i :: 0 <= i < |pages| ==> pages[i].from < pages[i].to <= pages[i].from + limit
  }

  lemma {:induction false} MovesShape(b: Book, moves: seq<Move>, limit: nat)
    requires limit > 0 && Sound(b)
    ensures var t := AllMoved(b, moves, limit); |t.pages| + t.book.out <= b.out && WithinLimit(t.pages, limit)
    decreases |moves|
  {
    if moves != [] {
      MovesShape(b, moves[..|moves| - 1], limit);
      MovesKeepSound(b, moves[..|moves| - 1], limit);
      var so, m := AllMoved(b, moves[..|moves| - 1], limit).book, moves[|moves| - 1];
      if m.PageLands? && so.out > 0 && Due(so) {
        PageAdvances(so, limit, m.taken);
      }
    }
  }

  /** How a job's loop ends, whatever the chain answers: every page was one of its own calls, or one that was out. */
  lemma {:induction false} RunShape(b: Book, tries: seq<Try>, live: bool, limit: nat)
    requires limit > 0 && Sound(b)
    ensures var o := Pages(b, tries, live, limit);
            && |o.pages| + o.book.out <= b.out + |tries|
            && (o.stop.PageCap? ==> |o.pages| >= |tries|)
            && (o.stop.Complete? ==> !Due(o.book) && Cursor(o.book) == o.book.plans && o.pages != [])
            && (!live && b.out == 0 ==> o.pages == [])
            && WithinLimit(o.pages, limit)
    decreases |tries|
  {
    if tries != [] {
      var now := AllMoved(b, tries[0].before, limit).book;
      MovesKeepSound(b, tries[0].before, limit);
      MovesShape(b, tries[0].before, limit);
      if StopsAt(now, live, tries[0].answer).None? {
        var end := PageEnd(now, limit, tries[0].answer.taken);
        PageAdvances(now, limit, tries[0].answer.taken);
        PageKeepsSound(now, end);
        if end != now.plans {
          RunShape(Paged(now, end), tries[1..], live, limit);
        }
      }
    }
  }

  /** One tick runs the job only if the keeper lists it as due. */
  datatype Tick = Tick(before: seq<Move>, tries: seq<Try>)

  function TickRun(b: Book, t: Tick, live: bool, limit: nat): Outcome
    requires limit > 0
  {
    var now := AllMoved(b, t.before, limit);
    if Due(now.book) then Front(now.pages, Pages(now.book, t.tries, live, limit))
    else Outcome(now.book, now.pages, Skipped)
  }

  function Ticks(b: Book, ticks: seq<Tick>, live: bool, limit: nat): Outcome
    requires limit > 0
    decreases |ticks|
  {
    if ticks == [] then Outcome(b, [], Skipped)
    else
      var so := Ticks(b, ticks[..|ticks| - 1], live, limit);
      Front(so.pages, TickRun(so.book, ticks[|ticks| - 1], live, limit))
  }

  lemma TickKeepsCovered(walked: seq<Page>, b: Book, t: Tick, live: bool, limit: nat)
    requires limit > 0 && Sound(b) && CoveredToTheCursor(walked, b)
    ensures var o := TickRun(b, t, live, limit); Sound(o.book) && CoveredToTheCursor(walked + o.pages, o.book)
  {
    var now := AllMoved(b, t.before, limit);
    MovesKeepSound(b, t.before, limit);
    MovesKeepCovered(walked, b, t.before, limit);
    if Due(now.book) {
      RunKeepsCovered(walked + now.pages, now.book, t.tries, live, limit);
      var rest := Pages(now.book, t.tries, live, limit).pages;
      assert walked + now.pages + rest == walked + (now.pages + rest);
    }
  }

  lemma {:induction false} TicksKeepCovered(b: Book, ticks: seq<Tick>, live: bool, limit: nat)
    requires limit > 0 && Sound(b) && CoveredToTheCursor([], b)
    ensures Sound(Ticks(b, ticks, live, limit).book)
    ensures CoveredToTheCursor(Ticks(b, ticks, live, limit).pages, Ticks(b, ticks, live, limit).book)
    decreases |ticks|
  {
    if ticks != [] {
      TicksKeepCovered(b, ticks[..|ticks| - 1], live, limit);
      var so := Ticks(b, ticks[..|ticks| - 1], live, limit);
      TickKeepsCovered(so.pages, so.book, ticks[|ticks| - 1], live, limit);
    }
  }

  /**
   * Over any run of ticks, with plans created and pruned, epochs starting, calls failing and pages given up for lost
   * landing anywhere in between, every plan index below an epoch's cursor was walked by exactly one page of that epoch,
   * and no other index was.
   */
  lemma EachPlanOncePerEpoch(b: Book, ticks: seq<Tick>, live: bool, limit: nat, e: nat, i: nat)
    requires limit > 0 && Sound(b) && b.cursors == map[]
    ensures Visits(Ticks(b, ticks, live, limit).pages, e, i) ==
            if i < CursorOf(Ticks(b, ticks, live, limit).book, e) then 1 else 0
  {
    TicksKeepCovered(b, ticks, live, limit);
    var o := Ticks(b, ticks, live, limit);
    assert Covered(o.pages, e, CursorOf(o.book, e));
    CoveredVisitsOnce(o.pages, e, CursorOf(o.book, e), i);
  }

  // ---------------------------------------------------------------- how many runs it takes

  function CeilDiv(a: nat, b: nat): nat
    requires b > 0
  {
    (a + b - 1) / b
  }

  /** How many of the pages are of epoch `e`. */
  function PagesOf(pages: seq<Page>, e: nat): nat {
    if pages == [] then 0 else PagesOf(pages[..|pages| - 1], e) + (if pages[|pages| - 1].epoch == e then 1 else 0)
  }

  /** A page that lands late is as long as the limit and the list allow. */
  predicate FullMoves(moves: seq<Move>, limit: nat) {
    forall i :: 0 <= i < |moves| && moves[i].PageLands? ==> moves[i].taken == 0 || moves[i].taken >= limit
  }

  /** Whatever else a call may meet, so is a page it mines. */
  predicate FullWhenMined(tries: seq<Try>, limit: nat) {
    forall i :: 0 <= i < |tries| ==>
                  FullMoves(tries[i].before, limit) &&
                  (tries[i].answer.Mines? ==> tries[i].answer.taken == 0 || tries[i].answer.taken >= limit)
  }

  predicate FullTicks(ticks: seq<Tick>, limit: nat) {
    forall i :: 0 <= i < |ticks| ==> FullMoves(ticks[i].before, limit) && FullWhenMined(ticks[i].tries, limit)
  }

  /** Every epoch took ceil(cursor / limit) pages, and an unfinished one stands at a whole number of them. */
  ghost predicate Counted(pages: seq<Page>, b: Book, limit: nat)
    requires limit > 0
  {
    && (forall e :: PagesOf(pages, e) == CeilDiv(CursorOf(b, e), limit))
    && (b.epoch > b.lastExecuted ==> Cursor(b) == PagesOf(pages, b.epoch) * limit)
  }

  lemma CeilDivOf(a: nat, b: nat, q: nat)
    requires b > 0 && q * b < a <= q * b + b
    ensures CeilDiv(a, b) == q + 1
  {
    assert a + b - 1 == (q + 1) * b + (a - q * b - 1);
    Arith.DivModUnique(a + b - 1, b, q + 1, a - q * b - 1);
  }

  lemma CeilDivOfNothing(b: nat)
    requires b > 0
    ensures CeilDiv(0, b) == 0
  {
    Arith.DivModUnique(b - 1, b, 0, b - 1);
  }

  lemma OneMorePage(c: nat, q: nat, end: nat, limit: nat)
    requires limit > 0 && c == q * limit && c < end <= c + limit
    ensures CeilDiv(end, limit) == q + 1 && (end == c + limit ==> end == (q + 1) * limit)
  {
    CeilDivOf(end, limit, q);
    assert (q + 1) * limit == q * limit + limit;
  }

  lemma PagesOfAppend(pages: seq<Page>, p: Page, e: nat)
    ensures PagesOf(pages + [p], e) == PagesOf(pages, e) + (if p.epoch == e then 1 else 0)
  {
    assert (pages + [p])[..|pages|] == pages;
  }

  lemma PageKeepsCounted(pages: seq<Page>, b: Book, limit: nat, taken: nat)
    requires limit > 0 && Sound(b) && Due(b) && Counted(pages, b, limit) && (taken == 0 || taken >= limit)
    ensures var end := PageEnd(b, limit, taken);
            Counted(pages + [Page(b.epoch, Cursor(b), end)], Paged(b, end), limit)
  {
    var end := PageEnd(b, limit, taken);
    var page := Page(b.epoch, Cursor(b), end);
    PageAdvances(b, limit, taken);
    OneMorePage(Cursor(b), PagesOf(pages, b.epoch), end, limit);
    CountedAfterPage(pages, b, end, limit, page);
  }

  lemma CountedAfterPage(pages: seq<Page>, b: Book, end: nat, limit: nat, page: Page)
    requires limit > 0 && page.epoch == b.epoch && forall e :: PagesOf(pages, e) == CeilDiv(CursorOf(b, e), limit)
    requires CeilDiv(end, limit) == PagesOf(pages, b.epoch) + 1
    requires end < b.plans ==> end == (PagesOf(pages, b.epoch) + 1) * limit
    requires end <= b.plans
    ensures Counted(pages + [page], Paged(b, end), limit)
  {
    forall e ensures PagesOf(pages + [page], e) == CeilDiv(CursorOf(Paged(b, end), e), limit) {
      PagesOfAppend(pages, page, e);
      assert PagesOf(pages, e) == CeilDiv(CursorOf(b, e), limit);
    }
    PagesOfAppend(pages, page, b.epoch);
  }

  lemma SameCounted(pages: seq<Page>, b: Book, c: Book, limit: nat)
    requires limit > 0 && Counted(pages, b, limit)
    requires c.cursors == b.cursors && c.epoch == b.epoch && c.lastExecuted == b.lastExecuted
    ensures Counted(pages, c, limit)
  {
    forall e ensures PagesOf(pages, e) == CeilDiv(CursorOf(c, e), limit) {
      assert PagesOf(pages, e) == CeilDiv(CursorOf(b, e), limit);
    }
  }

  lemma NextEpochKeepsCounted(pages: seq<Page>, b: Book, limit: nat)
    requires limit > 0 && Sound(b) && Counted(pages, b, limit)
    ensures Counted(pages, b.(epoch := b.epoch + 1), limit)
  {
    CeilDivOfNothing(limit);
    var c := b.(epoch := b.epoch + 1);
    forall e ensures PagesOf(pages, e) == CeilDiv(CursorOf(c, e), limit) {
      assert PagesOf(pages, e) == CeilDiv(CursorOf(b, e), limit);
    }
    assert PagesOf(pages, c.epoch) == CeilDiv(CursorOf(c, c.epoch), limit);
  }

  lemma MoveKeepsCounted(pages: seq<Page>, b: Book, m: Move, limit: nat)
    requires limit > 0 && Sound(b) && Counted(pages, b, limit) && FullMoves([m], limit)
    ensures Counted(pages + Moved(b, m, limit).pages, Moved(b, m, limit).book, limit)
  {
    var t := Moved(b, m, limit);
    if t.pages != [] {
      assert m == [m][0];
      PageKeepsCounted(pages, b, limit, m.taken);
      SameCounted(pages + t.pages, Paged(b, PageEnd(b, limit, m.taken)), t.book, limit);
    } else {
      assert pages + t.pages == pages;
      if m == NextEpoch {
        NextEpochKeepsCounted(pages, b, limit);
      } else {
        SameCounted(pages, b, t.book, limit);
      }
    }
  }

  lemma {:induction false} MovesKeepCounted(pages: seq<Page>, b: Book, moves: seq<Move>, limit: nat)
    requires limit > 0 && Sound(b) && Counted(pages, b, limit) && FullMoves(moves, limit)
    ensures Counted(pages + AllMoved(b, moves, limit).pages, AllMoved(b, moves, limit).book, limit)
    decreases |moves|
  {
    if moves == [] {
      assert pages + [] == pages;
    } else {
      var init, m := moves[..|moves| - 1], moves[|moves| - 1];
      var so := AllMoved(b, init, limit);
      MovesKeepCounted(pages, b, init, limit);
      MovesKeepSound(b, init, limit);
      MoveKeepsCounted(pages + so.pages, so.book, m, limit);
      assert pages + (so.pages + Moved(so.book, m, limit).pages) == pages + so.pages + Moved(so.book, m, limit).pages;
    }
  }

  lemma TryKeepsCounted(walked: seq<Page>, b: Book, t: Try, live: bool, limit: nat)
    requires limit > 0 && Sound(b) && Counted(walked, b, limit) && FullWhenMined([t], limit)
    ensures var so := AllMoved(b, t.before, limit);
            && Sound(so.book) && Counted(walked + so.pages, so.book, limit)
            && (StopsAt(so.book, live, t.answer).None? ==>
                  var end := PageEnd(so.book, limit, t.answer.taken);
                  Sound(Paged(so.book, end)) &&
                  Counted(walked + (so.pages + [Page(so.book.epoch, Cursor(so.book), end)]), Paged(so.book, end),
                          limit))
  {
    assert t == [t][0];
    var so := AllMoved(b, t.before, limit);
    MovesKeepSound(b, t.before, limit);
    MovesKeepCounted(walked, b, t.before, limit);
    if StopsAt(so.book, live, t.answer).None? {
      var end := PageEnd(so.book, limit, t.answer.taken);
      PageAdvances(so.book, limit, t.answer.taken);
      PageKeepsSound(so.book, end);
      PageKeepsCounted(walked + so.pages, so.book, limit, t.answer.taken);
      assert walked + so.pages + [Page(so.book.epoch, Cursor(so.book), end)]
          == walked + (so.pages + [Page(so.book.epoch, Cursor(so.book), end)]);
    }
  }

  lemma {:induction false} RunKeepsCounted(walked: seq<Page>, b: Book, tries: seq<Try>, live: bool, limit: nat)
    requires limit > 0 && Sound(b) && Counted(walked, b, limit) && FullWhenMined(tries, limit)
    ensures Counted(walked + Pages(b, tries, live, limit).pages, Pages(b, tries, live, limit).book, limit)
    decreases |tries|
  {
    var o := Pages(b, tries, live, limit);
    if tries == [] {
      assert walked + o.pages == walked;
    } else {
      TryKeepsCounted(walked, b, tries[0], live, limit);
      var t := AllMoved(b, tries[0].before, limit);
      if StopsAt(t.book, live, tries[0].answer).Some? {
        SameCounted(walked + t.pages, t.book, o.book, limit);
      } else {
        var end := PageEnd(t.book, limit, tries[0].answer.taken);
        var here := t.pages + [Page(t.book.epoch, Cursor(t.book), end)];
        if end != t.book.plans {
          var rest := Pages(Paged(t.book, end), tries[1..], live, limit);
          RunKeepsCounted(walked + here, Paged(t.book, end), tries[1..], live, limit);
          FrontConcat(walked, here, rest);
        }
      }
    }
  }

  lemma TickKeepsCounted(walked: seq<Page>, b: Book, t: Tick, live: bool, limit: nat)
    requires limit > 0 && Sound(b) && Counted(walked, b, limit)
    requires FullMoves(t.before, limit) && FullWhenMined(t.tries, limit)
    ensures var o := TickRun(b, t, live, limit); Sound(o.book) && Counted(walked + o.pages, o.book, limit)
  {
    var now := AllMoved(b, t.before, limit);
    MovesKeepSound(b, t.before, limit);
    MovesKeepCounted(walked, b, t.before, limit);
    if Due(now.book) {
      RunKeepsCounted(walked + now.pages, now.book, t.tries, live, limit);
      RunKeepsSound(now.book, t.tries, live, limit);
      var rest := Pages(now.book, t.tries, live, limit).pages;
      assert walked + now.pages + rest == walked + (now.pages + rest);
    }
  }

  lemma {:induction false} TicksKeepCounted(b: Book, ticks: seq<Tick>, live: bool, limit: nat)
    requires limit > 0 && Sound(b) && Counted([], b, limit) && FullTicks(ticks, limit)
    ensures Sound(Ticks(b, ticks, live, limit).book)
    ensures Counted(Ticks(b, ticks, live, limit).pages, Ticks(b, ticks, live, limit).book, limit)
    decreases |ticks|
  {
    if ticks != [] {
      TicksKeepCounted(b, ticks[..|ticks| - 1], live, limit);
      var so := Ticks(b, ticks[..|ticks| - 1], live, limit);
      TickKeepsCounted(so.pages, so.book, ticks[|ticks| - 1], live, limit);
    }
  }

  lemma {:induction false} RunKeepsSound(b: Book, tries: seq<Try>, live: bool, limit: nat)
    requires limit > 0 && Sound(b)
    ensures Sound(Pages(b, tries, live, limit).book)
    decreases |tries|
  {
    if tries != [] {
      var now := AllMoved(b, tries[0].before, limit).book;
      MovesKeepSound(b, tries[0].before, limit);
      if StopsAt(now, live, tries[0].answer).None? {
        var end := PageEnd(now, limit, tries[0].answer.taken);
        PageAdvances(now, limit, tries[0].answer.taken);
        PageKeepsSound(now, end);
        RunKeepsSound(Paged(now, end), tries[1..], live, limit);
      }
    }
  }

  /**
   * Over any run of ticks, with plans created and pruned, epochs starting, calls failing and pages given up for lost
   * landing anywhere in between, every epoch takes exactly ceil(cursor / limit) runs; an epoch that a tick completes,
   * ceil(n / limit) for the n plans listed at its completion.
   */
  lemma EpochTakesCeilRuns(b: Book, ticks: seq<Tick>, live: bool, limit: nat, e: nat)
    requires limit > 0 && Sound(b) && b.cursors == map[] && FullTicks(ticks, limit)
    ensures var o := Ticks(b, ticks, live, limit);
            && PagesOf(o.pages, e) == CeilDiv(CursorOf(o.book, e), limit)
            && (o.stop.Complete? ==> PagesOf(o.pages, o.book.epoch) == CeilDiv(o.book.plans, limit))
  {
    CeilDivOfNothing(limit);
    assert Counted([], b, limit);
    TicksKeepCounted(b, ticks, live, limit);
    var o := Ticks(b, ticks, live, limit);
    if o.stop.Complete? {
      var so := Ticks(b, ticks[..|ticks| - 1], live, limit);
      TicksKeepCounted(b, ticks[..|ticks| - 1], live, limit);
      var t := ticks[|ticks| - 1];
      MovesKeepSound(so.book, t.before, limit);
      RunShape(AllMoved(so.book, t.before, limit).book, t.tries, live, limit);
      assert PagesOf(o.pages, o.book.epoch) == CeilDiv(CursorOf(o.book, o.book.epoch), limit);
    }
  }

  /**
   * Each tick sends at most `m` pages, so whatever fails or lands late an epoch takes at least ceil(runs / m) ticks.
   */
  lemma {:induction false} TicksAreEnough(b: Book, ticks: seq<Tick>, live: bool, limit: nat, m: nat)
    requires limit > 0 && m > 0 && Sound(b) && forall i :: 0 <= i < |ticks| ==> |ticks[i].tries| <= m
    ensures var o := Ticks(b, ticks, live, limit); Sound(o.book) && |o.pages| + o.book.out <= b.out + |ticks| * m
    decreases |ticks|
  {
    if ticks != [] {
      var init := ticks[..|ticks| - 1];
      TicksAreEnough(b, init, live, limit, m);
      var so := Ticks(b, init, live, limit);
      var t := ticks[|ticks| - 1];
      MovesKeepSound(so.book, t.before, limit);
      MovesShape(so.book, t.before, limit);
      if Due(AllMoved(so.book, t.before, limit).book) {
        RunShape(AllMoved(so.book, t.before, limit).book, t.tries, live, limit);
        RunKeepsSound(AllMoved(so.book, t.before, limit).book, t.tries, live, limit);
      }
      assert (|ticks| - 1) * m + m == |ticks| * m;
    }
  }

  lemma {:induction false} AtMostAll(pages: seq<Page>, e: nat)
    ensures PagesOf(pages, e) <= |pages|
    decreases |pages|
  {
    if pages != [] {
      AtMostAll(pages[..|pages| - 1], e);
    }
  }

  lemma EpochTakesAtLeastCeilTicks(b: Book, ticks: seq<Tick>, live: bool, limit: nat, m: nat, e: nat)
    requires limit > 0 && m > 0 && Sound(b) && b.out == 0 && forall i :: 0 <= i < |ticks| ==> |ticks[i].tries| <= m
    ensures CeilDiv(PagesOf(Ticks(b, ticks, live, limit).pages, e), m) <= |ticks|
  {
    TicksAreEnough(b, ticks, live, limit, m);
    AtMostAll(Ticks(b, ticks, live, limit).pages, e);
    CeilDivReached(PagesOf(Ticks(b, ticks, live, limit).pages, e), |ticks|, m);
  }

  // ---------------------------------------------------------------- how many ticks it takes

  /** The runs a due epoch still needs when every page is full. */
  function RunsLeft(b: Book, limit: nat): nat
    requires limit > 0
  {
    if Due(b) && Cursor(b) < b.plans then CeilDiv(b.plans - Cursor(b), limit) else 0
  }

  /** Every call mines a full page and nobody touches the plan list. */
  predicate Smooth(tries: seq<Try>, limit: nat) {
    forall i :: 0 <= i < |tries| ==> tries[i].before == [] && tries[i].answer.Mines? && tries[i].answer.taken >= limit
  }

  lemma CeilDivPositive(a: nat, b: nat)
    requires a > 0 && b > 0
    ensures CeilDiv(a, b) > 0
  {
    Arith.DivBounds(a + b - 1, b);
    if CeilDiv(a, b) <= 0 {
      Arith.MulLe(CeilDiv(a, b), 0, b);
    }
  }

  lemma OneFullPage(b: Book, limit: nat)
    requires limit > 0 && Sound(b) && Due(b)
    ensures RunsLeft(b, limit) > 0
    ensures var end := PageEnd(b, limit, limit); RunsLeft(Paged(b, end), limit) == RunsLeft(b, limit) - 1
    ensures PageEnd(b, limit, limit) == b.plans <==> RunsLeft(b, limit) == 1
  {
    var left := b.plans - Cursor(b);
    Arith.DivStep(left + limit - 1, limit);
    Arith.DivBounds(left + limit - 1, limit);
    if left <= limit {
      Arith.DivModUnique(left + limit - 1, limit, 1, left - 1);
    } else {
      assert CeilDiv(left - limit, limit) == CeilDiv(left, limit) - 1;
      CeilDivPositive(left - limit, limit);
    }
  }

  /** A tick of `m` smooth calls does as many of the runs left as it may, and completes when that is all of them. */
  lemma {:induction false} SmoothRun(b: Book, tries: seq<Try>, limit: nat)
    requires limit > 0 && Sound(b) && Due(b) && Smooth(tries, limit)
    ensures var o := Pages(b, tries, true, limit); var runs := RunsLeft(b, limit);
            && Sound(o.book)
            && |o.pages| == (if runs < |tries| then runs else |tries|)
            && RunsLeft(o.book, limit) == runs - |o.pages|
            && (o.stop.Complete? <==> runs <= |tries|)
            && (Due(o.book) <==> RunsLeft(o.book, limit) > 0)
    decreases |tries|
  {
    OneFullPage(b, limit);
    if tries != [] {
      assert AllMoved(b, tries[0].before, limit) == Trail(b, []);
      var end := PageEnd(b, limit, tries[0].answer.taken);
      assert end == PageEnd(b, limit, limit);
      PageAdvances(b, limit, limit);
      PageKeepsSound(b, end);
      if end != b.plans {
        SmoothRun(Paged(b, end), tries[1..], limit);
      }
    }
  }

  /** `k` ticks, each of at most `m` smooth calls. */
  predicate SmoothTicks(ticks: seq<Tick>, m: nat, limit: nat) {
    forall i :: 0 <= i < |ticks| ==> ticks[i].before == [] && |ticks[i].tries| == m && Smooth(ticks[i].tries, limit)
  }

  lemma SmoothTickDoes(b: Book, t: Tick, limit: nat)
    requires limit > 0 && Sound(b) && (Due(b) <==> RunsLeft(b, limit) > 0)
    requires t.before == [] && Smooth(t.tries, limit)
    ensures Sound(TickRun(b, t, true, limit).book)
    ensures |TickRun(b, t, true, limit).pages|
            == (if RunsLeft(b, limit) < |t.tries| then RunsLeft(b, limit) else |t.tries|)
    ensures RunsLeft(TickRun(b, t, true, limit).book, limit) == RunsLeft(b, limit) - |TickRun(b, t, true, limit).pages|
    ensures Due(TickRun(b, t, true, limit).book) <==> RunsLeft(TickRun(b, t, true, limit).book, limit) > 0
  {
    assert AllMoved(b, t.before, limit) == Trail(b, []);
    if Due(b) {
      SmoothRun(b, t.tries, limit);
    }
  }

  /** Of `runs` needed, as many as `most` were done; the epoch is due while any are left. */
  predicate Progress(o: Outcome, runs: nat, most: nat, limit: nat)
    requires limit > 0
  {
    && Sound(o.book)
    && |o.pages| == (if runs < most then runs else most)
    && RunsLeft(o.book, limit) == runs - |o.pages|
    && (Due(o.book) <==> RunsLeft(o.book, limit) > 0)
  }

  lemma ProgressAdds(so: Outcome, t: Tick, runs: nat, most: nat, limit: nat)
    requires limit > 0 && Progress(so, runs, most, limit) && t.before == [] && Smooth(t.tries, limit)
    ensures Progress(Front(so.pages, TickRun(so.book, t, true, limit)), runs, most + |t.tries|, limit)
  {
    SmoothTickDoes(so.book, t, limit);
  }

  lemma {:induction false} SmoothTicksDo(b: Book, ticks: seq<Tick>, m: nat, limit: nat)
    requires limit > 0 && Sound(b) && Due(b) && SmoothTicks(ticks, m, limit)
    ensures Progress(Ticks(b, ticks, true, limit), RunsLeft(b, limit), |ticks| * m, limit)
    decreases |ticks|
  {
    if ticks == [] {
      OneFullPage(b, limit);
    } else {
      var init := ticks[..|ticks| - 1];
      SmoothTicksDo(b, init, m, limit);
      ProgressAdds(Ticks(b, init, true, limit), ticks[|ticks| - 1], RunsLeft(b, limit), |init| * m, limit);
      assert (|ticks| - 1) * m + m == |ticks| * m;
    }
  }

  lemma CeilDivReached(runs: nat, k: nat, m: nat)
    requires m > 0
    ensures runs <= k * m <==> CeilDiv(runs, m) <= k
  {
    var q := CeilDiv(runs, m);
    Arith.DivBounds(runs + m - 1, m);
    if q <= k {
      Arith.MulLe(q, k, m);
    } else {
      Arith.MulLe(k + 1, q, m);
      assert (k + 1) * m == k * m + m;
    }
  }

  /**
   * When no call fails and the list stands still, a due epoch that starts at index 0 is complete after `k` ticks
   * exactly when k reaches ceil(runs / maxPagesPerJob), `runs` being ceil(n / limit).
   */
  lemma SmoothEpochTakesCeilTicks(b: Book, ticks: seq<Tick>, maxPagesPerJob: nat, limit: nat)
    requires limit > 0 && maxPagesPerJob > 0 && Sound(b) && Due(b) && Cursor(b) == 0
    requires SmoothTicks(ticks, maxPagesPerJob, limit)
    ensures var runs := CeilDiv(b.plans, limit); var o := Ticks(b, ticks, true, limit);
            && (!Due(o.book) <==> CeilDiv(runs, maxPagesPerJob) <= |ticks|)
            && (!Due(o.book) ==> |o.pages| == runs)
  {
    OneFullPage(b, limit);
    SmoothTicksDo(b, ticks, maxPagesPerJob, limit);
    CeilDivReached(CeilDiv(b.plans, limit), |ticks|, maxPagesPerJob);
  }
}
