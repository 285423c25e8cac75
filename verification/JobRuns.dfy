/** `runJob` against a vault that takes new plans, may cut a page short and may refuse one: what every tick walks. */
module JobRuns {
  import opened Wrappers
  import opened Text
  import opened Paging
  import Arith

  /**
   * The vault's books for one stock: epochs, `nextPlanIndex` by epoch, and how many plans are listed; and how many
   * pages of ours are out, sent with no answer had for them.
   */
  datatype Book = Book(epoch: nat, lastExecuted: nat, cursors: map<nat, nat>, plans: nat, out: nat)

  function CursorOf(b: Book, e: nat): nat { if e in b.cursors then b.cursors[e] else 0 }

  function Cursor(b: Book): nat { CursorOf(b, b.epoch) }

  predicate Due(b: Book) { b.epoch > b.lastExecuted && b.plans > 0 }

  predicate PageOpen(b: Book) { b.epoch > b.lastExecuted && Cursor(b) > 0 }

  predicate Sound(b: Book) {
    b.lastExecuted <= b.epoch && (PageOpen(b) ==> Cursor(b) < b.plans) && forall e :: e in b.cursors ==> e <= b.epoch
  }

  /** A page that ends at plan `end`; reaching the end of the list executes the epoch. */
  function Paged(b: Book, end: nat): Book {
    b.(cursors := b.cursors[b.epoch := end], lastExecuted := if end == b.plans then b.epoch else b.lastExecuted)
  }

  /** The vault takes between one plan and the page limit, never past the end of the list. */
  function PageEnd(b: Book, limit: nat, taken: nat): nat
    requires limit > 0
  {
    var most := if Cursor(b) + limit > b.plans then b.plans else Cursor(b) + limit;
    if taken == 0 || Cursor(b) + taken > most then most else Cursor(b) + taken
  }

  datatype Page = Page(epoch: nat, from: nat, to: nat)

  /**
   * What happens between two of our calls. A prune is refused while a page is open. A page that is out may land at
   * last, taking `taken` plans, or revert when its epoch is no longer due.
   */
  datatype Move = NewPlan | Prune | NextEpoch | PageLands(taken: nat)

  /** The books, and the pages that have mined, in order. */
  datatype Trail = Trail(book: Book, pages: seq<Page>)

  function Moved(b: Book, m: Move, limit: nat): Trail
    requires limit > 0
  {
    match m
    case NewPlan => Trail(b.(plans := b.plans + 1), [])
    case Prune => Trail(if b.plans > 0 && !PageOpen(b) then b.(plans := b.plans - 1) else b, [])
    case NextEpoch => Trail(b.(epoch := b.epoch + 1), [])
    case PageLands(taken) =>
      if b.out == 0 then Trail(b, [])
      else if !Due(b) then Trail(b.(out := b.out - 1), [])
      else
        var end := PageEnd(b, limit, taken);
        Trail(Paged(b, end).(out := b.out - 1), [Page(b.epoch, Cursor(b), end)])
  }

  function AllMoved(b: Book, moves: seq<Move>, limit: nat): Trail
    requires limit > 0
  {
    if moves == [] then Trail(b, [])
    else
      var so := AllMoved(b, moves[..|moves| - 1], limit);
      var t := Moved(so.book, moves[|moves| - 1], limit);
      Trail(t.book, so.pages + t.pages)
  }

  /** What a mined page logs: the vault's other events, the page, the epoch when it is done, then the keeper's. */
  datatype Amounts = Amounts(net: nat, out: nat, filled: nat, tip: nat)

  function PageLogs(b: Book, end: nat, vault: string, keeper: string, a: Amounts): seq<Log> {
    [Log(vault, OtherEvent), Log(vault, EpochPageExecuted(b.epoch, Cursor(b), end, a.net, a.out, a.filled))] +
    (if end == b.plans then [Log(vault, EpochExecuted)] else []) +
    [Log(keeper, JobRun(end == b.plans)), Log(keeper, TipsForwarded(a.tip))]
  }

  /** The chain's answer to one page: the call may be refused, lost, reverted, or mined with a page of `taken` plans. */
  datatype Answer = Refused | SendThrows | ReceiptTimesOut | RevertsOnChain | Mines(taken: nat, amounts: Amounts)

  datatype Try = Try(before: seq<Move>, answer: Answer)

  datatype Stop = Skipped | DryRun | Threw | Reverted | Complete | PageCap

  datatype Outcome = Outcome(book: Book, pages: seq<Page>, stop: Stop)

  function Front(pages: seq<Page>, o: Outcome): Outcome { o.(pages := pages + o.pages) }

  /** What a call that is not a mined page leaves behind, if this answer is one. */
  function StopsAt(b: Book, live: bool, answer: Answer): Option<Stop> {
    if !Due(b) || answer.Refused? then Some(Skipped)
    else if !live then Some(DryRun)
    else
      match answer
      case SendThrows => Some(Threw)
      case ReceiptTimesOut => Some(Threw)
      case RevertsOnChain => Some(Reverted)
      case _ => None
  }

  /** A send that threw, or whose receipt was not had in time, may have gone out. */
  function Left(b: Book, stop: Stop): Book { if stop == Threw then b.(out := b.out + 1) else b }

  /** The job's pages, one per answer, until one of them stops it. */
  function Pages(b: Book, tries: seq<Try>, live: bool, limit: nat): Outcome
    requires limit > 0
    decreases |tries|
  {
    if tries == [] then Outcome(b, [], PageCap)
    else
      var t := AllMoved(b, tries[0].before, limit);
      var stop := StopsAt(t.book, live, tries[0].answer);
      if stop.Some? then Outcome(Left(t.book, stop.value), t.pages, stop.value)
      else
        var end := PageEnd(t.book, limit, tries[0].answer.taken);
        var walked := t.pages + [Page(t.book.epoch, Cursor(t.book), end)];
        if end == t.book.plans then Outcome(Paged(t.book, end), walked, Complete)
        else Front(walked, Pages(Paged(t.book, end), tries[1..], live, limit))
  }

  /** The receipt of a page tells `runJob` whether the epoch is complete, and which plans the page walked. */
  lemma ReceiptTellsTheTruth(b: Book, end: nat, vault: string, keeper: string, a: Amounts)
    requires Cursor(b) < end <= b.plans
    ensures SummaryOf(PageLogs(b, end, vault, keeper, a), vault).completed <==> end == b.plans
    ensures SummaryOf(PageLogs(b, end, vault, keeper, a), vault).fromIndex == Some(Cursor(b))
    ensures SummaryOf(PageLogs(b, end, vault, keeper, a), vault).toIndex == Some(end)
    ensures SummaryOf(PageLogs(b, end, vault, keeper, a), vault).tips == a.tip
  {
    var logs := PageLogs(b, end, vault, keeper, a);
    var page := EpochPageExecuted(b.epoch, Cursor(b), end, a.net, a.out, a.filled);
    PageEvents(b, end, vault, keeper, a);
    SummaryOfContiguousPages(logs, vault, [page]);
    CompletedMeans(logs, vault);
    KeeperSays(b, end, vault, keeper, a);
  }

  /** The keeper's own two logs: the run, complete or not, and the tip. */
  lemma KeeperSays(b: Book, end: nat, vault: string, keeper: string, a: Amounts)
    ensures var logs := PageLogs(b, end, vault, keeper, a);
            (exists i :: 0 <= i < |logs| && SaysDone(logs[i])) <==> end == b.plans
    ensures TipsOf(PageLogs(b, end, vault, keeper, a)) == a.tip
  {
    var logs := PageLogs(b, end, vault, keeper, a);
    assert forall i :: 0 <= i < |logs| ==> (SaysDone(logs[i]) ==> end == b.plans);
    assert SaysDone(logs[|logs| - 2]) <==> end == b.plans;
    assert TipsOf(logs) == TipsOf(logs[..|logs| - 1]) + a.tip;
    NoTips(logs[..|logs| - 1]);
  }

  lemma {:induction false} NoTips(logs: seq<Log>)
    requires forall i :: 0 <= i < |logs| ==> !logs[i].event.TipsForwarded?
    ensures TipsOf(logs) == 0
    decreases |logs|
  {
    if logs != [] {
      NoTips(logs[..|logs| - 1]);
    }
  }

  lemma EventsAppend(logs: seq<Log>, l: Log, vault: string)
    ensures Lower(l.address) == Lower(vault) ==> EventsOf(logs + [l], vault) == EventsOf(logs, vault) + [l.event]
    ensures Lower(l.address) != Lower(vault) ==> EventsOf(logs + [l], vault) == EventsOf(logs, vault)
  {
    assert (logs + [l])[..|logs|] == logs;
  }

  lemma PagesAppend(events: seq<Event>, e: Event)
    ensures PagesIn(events + [e]) == if e.EpochPageExecuted? then PagesIn(events) + [e] else PagesIn(events)
  {
    assert (events + [e])[..|events|] == events;
  }

  /** The vault's pages among the logs, and whether they say the epoch is done. */
  predicate LogsSay(logs: seq<Log>, vault: string, pages: seq<Event>, done: bool) {
    PagesIn(EventsOf(logs, vault)) == pages && (EpochExecuted in EventsOf(logs, vault) <==> done)
  }

  /** A log that is neither a page nor an executed epoch adds neither, whoever emitted it. */
  lemma QuietAppend(logs: seq<Log>, l: Log, vault: string, pages: seq<Event>, done: bool)
    requires LogsSay(logs, vault, pages, done) && !l.event.EpochPageExecuted? && l.event != EpochExecuted
    ensures LogsSay(logs + [l], vault, pages, done)
  {
    EventsAppend(logs, l, vault);
    PagesAppend(EventsOf(logs, vault), l.event);
  }

  lemma PageAppend(logs: seq<Log>, page: Event, vault: string, pages: seq<Event>, done: bool)
    requires LogsSay(logs, vault, pages, done) && page.EpochPageExecuted?
    ensures LogsSay(logs + [Log(vault, page)], vault, pages + [page], done)
  {
    EventsAppend(logs, Log(vault, page), vault);
    PagesAppend(EventsOf(logs, vault), page);
  }

  lemma DoneAppend(logs: seq<Log>, vault: string, pages: seq<Event>, done: bool)
    requires LogsSay(logs, vault, pages, done)
    ensures LogsSay(logs + [Log(vault, EpochExecuted)], vault, pages, true)
  {
    EventsAppend(logs, Log(vault, EpochExecuted), vault);
    PagesAppend(EventsOf(logs, vault), EpochExecuted);
  }

  lemma FirstLogsSay(vault: string, page: Event)
    requires page.EpochPageExecuted?
    ensures LogsSay([Log(vault, OtherEvent), Log(vault, page)], vault, [page], false)
  {
    assert LogsSay([], vault, [], false);
    QuietAppend([], Log(vault, OtherEvent), vault, [], false);
    assert [] + [Log(vault, OtherEvent)] == [Log(vault, OtherEvent)];
    PageAppend([Log(vault, OtherEvent)], page, vault, [], false);
    assert [Log(vault, OtherEvent)] + [Log(vault, page)] == [Log(vault, OtherEvent), Log(vault, page)];
    assert [] + [page] == [page];
  }

  lemma LastLogsSay(logs: seq<Log>, vault: string, pages: seq<Event>, done: bool, run: Log, tips: Log)
    requires LogsSay(logs, vault, pages, false) && run.event.JobRun? && tips.event.TipsForwarded?
    ensures LogsSay(logs + (if done then [Log(vault, EpochExecuted)] else []) + [run, tips], vault, pages, done)
  {
    var all := logs + (if done then [Log(vault, EpochExecuted)] else []);
    if done {
      DoneAppend(logs, vault, pages, false);
    } else {
      assert all == logs;
    }
    assert LogsSay(all, vault, pages, done);
    QuietAppend(all, run, vault, pages, done);
    QuietAppend(all + [run], tips, vault, pages, done);
    assert all + [run] + [tips] == all + [run, tips];
  }

  lemma PageEvents(b: Book, end: nat, vault: string, keeper: string, a: Amounts)
    ensures LogsSay(PageLogs(b, end, vault, keeper, a), vault,
                    [EpochPageExecuted(b.epoch, Cursor(b), end, a.net, a.out, a.filled)], end == b.plans)
  {
    var page := EpochPageExecuted(b.epoch, Cursor(b), end, a.net, a.out, a.filled);
    FirstLogsSay(vault, page);
    LastLogsSay([Log(vault, OtherEvent), Log(vault, page)], vault, [page], end == b.plans,
                Log(keeper, JobRun(end == b.plans)), Log(keeper, TipsForwarded(a.tip)));
  }

  /** What the loop has done so far, and what is left of it. */
  ghost predicate RunSoFar(b: Book, tries: seq<Try>, live: bool, limit: nat, page: nat, book: Book, pages: seq<Page>)
    requires limit > 0 && page <= |tries|
  {
    var rest := Pages(book, tries[page..], live, limit);
    Sound(book) && Pages(b, tries, live, limit) == rest.(pages := pages + rest.pages)
  }

  lemma TryStops(b: Book, tries: seq<Try>, live: bool, limit: nat, page: nat, book: Book, pages: seq<Page>)
    requires limit > 0 && page < |tries| && RunSoFar(b, tries, live, limit, page, book, pages)
    requires StopsAt(AllMoved(book, tries[page].before, limit).book, live, tries[page].answer).Some?
    ensures var t := AllMoved(book, tries[page].before, limit);
            var stop := StopsAt(t.book, live, tries[page].answer).value;
            Pages(b, tries, live, limit) == Outcome(Left(t.book, stop), pages + t.pages, stop)
  {
  }

  lemma TryCompletes(b: Book, tries: seq<Try>, live: bool, limit: nat, page: nat, book: Book, pages: seq<Page>)
    requires limit > 0 && page < |tries| && RunSoFar(b, tries, live, limit, page, book, pages)
    requires StopsAt(AllMoved(book, tries[page].before, limit).book, live, tries[page].answer).None?
    requires var now := AllMoved(book, tries[page].before, limit).book;
             PageEnd(now, limit, tries[page].answer.taken) == now.plans
    ensures var t := AllMoved(book, tries[page].before, limit);
            Pages(b, tries, live, limit)
            == Outcome(Paged(t.book, t.book.plans),
                       pages + (t.pages + [Page(t.book.epoch, Cursor(t.book), t.book.plans)]), Complete)
  {
  }

  lemma TryMines(b: Book, tries: seq<Try>, live: bool, limit: nat, page: nat, book: Book, pages: seq<Page>)
    requires limit > 0 && page < |tries| && RunSoFar(b, tries, live, limit, page, book, pages)
    requires StopsAt(AllMoved(book, tries[page].before, limit).book, live, tries[page].answer).None?
    requires var now := AllMoved(book, tries[page].before, limit).book;
             PageEnd(now, limit, tries[page].answer.taken) != now.plans
    ensures var t := AllMoved(book, tries[page].before, limit);
            var end := PageEnd(t.book, limit, tries[page].answer.taken);
            RunSoFar(b, tries, live, limit, page + 1, Paged(t.book, end),
                     pages + (t.pages + [Page(t.book.epoch, Cursor(t.book), end)]))
  {
    var t := AllMoved(book, tries[page].before, limit);
    var end := PageEnd(t.book, limit, tries[page].answer.taken);
    var rest := Pages(Paged(t.book, end), tries[page + 1..], live, limit);
    var walked := t.pages + [Page(t.book.epoch, Cursor(t.book), end)];
    MovesKeepSound(book, tries[page].before, limit);
    PageKeepsSound(t.book, end);
    assert tries[page..][1..] == tries[page + 1..];
    assert Pages(book, tries[page..], live, limit) == Front(walked, rest);
    assert pages + (walked + rest.pages) == pages + walked + rest.pages;
  }

  /** `o.pages` are all the pages that mined meanwhile, the late ones of earlier calls with them. */
  method RunJob(b: Book, tries: seq<Try>, live: bool, limit: nat, vault: string, keeper: string) returns (o: Outcome)
    requires limit > 0 && Sound(b)
    ensures o == Pages(b, tries, live, limit)
  {
    var book, pages := b, [];
    RunStarts(b, tries, live, limit);
    for page := 0 to |tries|
      invariant RunSoFar(b, tries, live, limit, page, book, pages)
    {
      var t := AllMoved(book, tries[page].before, limit);
      var now := t.book;
      var stop := StopsAt(now, live, tries[page].answer);
      if stop.Some? {
        TryStops(b, tries, live, limit, page, book, pages);
        return Outcome(Left(now, stop.value), pages + t.pages, stop.value);
      }
      MovesKeepSound(book, tries[page].before, limit);
      var end := PageEnd(now, limit, tries[page].answer.taken);
      var receipt := PageLogs(now, end, vault, keeper, tries[page].answer.amounts);
      var s := Summarize(receipt, vault);
      ReceiptTellsTheTruth(now, end, vault, keeper, tries[page].answer.amounts);
      if end == now.plans {
        TryCompletes(b, tries, live, limit, page, book, pages);
      } else {
        TryMines(b, tries, live, limit, page, book, pages);
      }
      book, pages := Paged(now, end), pages + (t.pages + [Page(now.epoch, s.fromIndex.value, s.toIndex.value)]);
      if s.completed {
        return Outcome(book, pages, Complete);
      }
    }
    assert tries[|tries|..] == [] && pages + [] == pages;
    o := Outcome(book, pages, PageCap);
  }

  lemma RunStarts(b: Book, tries: seq<Try>, live: bool, limit: nat)
    requires limit > 0 && Sound(b)
    ensures RunSoFar(b, tries, live, limit, 0, b, [])
  {
    assert tries[0..] == tries && [] + Pages(b, tries, live, limit).pages == Pages(b, tries, live, limit).pages;
  }

  // ---------------------------------------------------------------- what each answer comes to

  /** The list of plans is not through for this epoch. */
  predicate SomethingDue(b: Book) { b.epoch > b.lastExecuted && b.plans > 0 }

  /** No more calls are made, and no page of our own was mined. */
  predicate EndsWith(o: Outcome, t: Trail, stop: Stop) { o.pages == t.pages && o.stop == stop && o.book == t.book }

  predicate ThrowsLeavingOneOut(o: Outcome, t: Trail) {
    o.pages == t.pages && o.stop == Threw && o.book == t.book.(out := t.book.out + 1)
  }

  /**
   * One call of the loop, by what the chain answers: with nothing due, or a call that would be refused, the job is left
   * for now; so it is in a dry run, where nothing is sent; a send or a receipt that fails throws, and its page may be
   * out; a revert ends the job without throwing; a mined page walks on from the cursor, and ends the job exactly when
   * it reaches the end of the list.
   */
  lemma OneCall(b: Book, tries: seq<Try>, live: bool, limit: nat)
    requires limit > 0 && Sound(b) && tries != []
    ensures var t, o := AllMoved(b, tries[0].before, limit), Pages(b, tries, live, limit);
            var now, answer := t.book, tries[0].answer;
            if !SomethingDue(now) || answer.Refused? then EndsWith(o, t, Skipped)
            else if !live then EndsWith(o, t, DryRun)
            else
              match answer
              case RevertsOnChain => EndsWith(o, t, Reverted)
              case Mines(taken, _) =>
                var page := Page(now.epoch, Cursor(now), PageEnd(now, limit, taken));
                page.from < page.to <= page.from + limit && page.to <= now.plans && t.pages + [page] <= o.pages &&
                if page.to == now.plans then o.stop == Complete && o.pages == t.pages + [page]
                else
                  var next := now.(cursors := now.cursors[now.epoch := page.to]);
                  var rest := Pages(next, tries[1..], live, limit);
                  o.book == rest.book && o.stop == rest.stop && o.pages == t.pages + [page] + rest.pages
              case SendThrows => ThrowsLeavingOneOut(o, t)
              case ReceiptTimesOut => ThrowsLeavingOneOut(o, t)
  {
    var t := AllMoved(b, tries[0].before, limit);
    MovesKeepSound(b, tries[0].before, limit);
    if StopsAt(t.book, live, tries[0].answer).None? {
      PageAdvances(t.book, limit, tries[0].answer.taken);
    }
  }

  /** With the pages of a tick used up the job is left for the next one. */
  lemma NoMoreCalls(b: Book, live: bool, limit: nat)
    requires limit > 0
    ensures Pages(b, [], live, limit) == Outcome(b, [], PageCap)
  {
  }

  // ---------------------------------------------------------------- the vault stays sound

  lemma MoveKeepsSound(b: Book, m: Move, limit: nat)
    requires limit > 0 && Sound(b)
    ensures Sound(Moved(b, m, limit).book)
  {
    if m.PageLands? && b.out > 0 && Due(b) {
      PageAdvances(b, limit, m.taken);
      PageKeepsSound(b, PageEnd(b, limit, m.taken));
    }
  }

  lemma {:induction false} MovesKeepSound(b: Book, moves: seq<Move>, limit: nat)
    requires limit > 0 && Sound(b)
    ensures Sound(AllMoved(b, moves, limit).book)
    decreases |moves|
  {
    if moves != [] {
      MovesKeepSound(b, moves[..|moves| - 1], limit);
      MoveKeepsSound(AllMoved(b, moves[..|moves| - 1], limit).book, moves[|moves| - 1], limit);
    }
  }

  lemma PageKeepsSound(b: Book, end: nat)
    requires Sound(b) && Due(b) && Cursor(b) < end <= b.plans
    ensures Sound(Paged(b, end))
  {
  }

  lemma PageAdvances(b: Book, limit: nat, taken: nat)
    requires limit > 0 && Sound(b) && Due(b)
    ensures Cursor(b) < PageEnd(b, limit, taken) <= b.plans
    ensures PageEnd(b, limit, taken) <= Cursor(b) + limit
  {
  }
}
