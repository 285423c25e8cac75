/** `runJob` and `summarize`: one job paged over the vault's cursor, tick after tick. */
module Paging {
  import opened Wrappers
  import opened Text
  import Arith

  // ---------------------------------------------------------------- what a receipt says

  datatype Event =
    | EpochPageExecuted(epochId: nat, fromIndex: nat, toIndex: nat, netUsdg: nat, stockOut: nat, plansFilled: nat)
    | EpochExecuted
    | PlanTooLarge(planId: nat)
    | BoostWithdrawFailed(usdg: nat)
    | JobRun(completed: bool)
    | TipsForwarded(amount: nat)
    | OtherEvent

  datatype Log = Log(address: string, event: Event)

  datatype Summary = Summary(netUsdg: nat, stockOut: nat, plansFilled: nat, epochId: Option<nat>,
                             fromIndex: Option<nat>, toIndex: Option<nat>, tooLarge: seq<nat>, boostFailed: seq<nat>,
                             completed: bool, tips: nat)

  function EventsOf(logs: seq<Log>, vault: string): seq<Event> {
    if logs == [] then []
    else
      var l := logs[|logs| - 1];
      EventsOf(logs[..|logs| - 1], vault) + (if Lower(l.address) == Lower(vault) then [l.event] else [])
  }

  function PagesIn(events: seq<Event>): seq<Event>
    ensures forall e :: e in PagesIn(events) ==> e.EpochPageExecuted? && e in events
  {
    if events == [] then []
    else
      var e := events[|events| - 1];
      PagesIn(events[..|events| - 1]) + (if e.EpochPageExecuted? then [e] else [])
  }

  function Total(pages: seq<Event>, amount: Event -> nat): nat {
    if pages == [] then 0 else Total(pages[..|pages| - 1], amount) + amount(pages[|pages| - 1])
  }

  lemma TotalAppend(pages: seq<Event>, e: Event, amount: Event -> nat)
    ensures Total(pages + [e], amount) == Total(pages, amount) + amount(e)
  {
    assert (pages + [e])[..|pages|] == pages;
  }

  function NetOf(e: Event): nat { if e.EpochPageExecuted? then e.netUsdg else 0 }

  function StockOf(e: Event): nat { if e.EpochPageExecuted? then e.stockOut else 0 }

  function FilledOf(e: Event): nat { if e.EpochPageExecuted? then e.plansFilled else 0 }

  function TipsOf(logs: seq<Log>): nat {
    if logs == [] then 0
    else
      var e := logs[|logs| - 1].event;
      TipsOf(logs[..|logs| - 1]) + (if e.TipsForwarded? then e.amount else 0)
  }

  predicate SaysDone(l: Log) { l.event == JobRun(true) }

  predicate Least(from: Option<nat>, pages: seq<Event>)
    requires forall e :: e in pages ==> e.EpochPageExecuted?
  {
    (from.None? <==> pages == []) &&
    (from.Some? ==> (exists i :: 0 <= i < |pages| && pages[i].fromIndex == from.value) &&
                    forall i :: 0 <= i < |pages| ==> from.value <= pages[i].fromIndex)
  }

  predicate Greatest(to: Option<nat>, pages: seq<Event>)
    requires forall e :: e in pages ==> e.EpochPageExecuted?
  {
    (to.None? <==> pages == []) &&
    (to.Some? ==> (exists i :: 0 <= i < |pages| && pages[i].toIndex == to.value) &&
                  forall i :: 0 <= i < |pages| ==> pages[i].toIndex <= to.value)
  }

  /** What one event of the vault adds to the summary. */
  function Noted(s: Summary, e: Event): Summary {
    match e
    case EpochPageExecuted(id, from, to, net, out, filled) =>
      s.(netUsdg := s.netUsdg + net, stockOut := s.stockOut + out, plansFilled := s.plansFilled + filled,
      epochId := Some(id),
      fromIndex := if s.fromIndex.None? then Some(from)
                   else if s.fromIndex.value < from then s.fromIndex else Some(from),
      toIndex := if s.toIndex.None? || to > s.toIndex.value then Some(to) else s.toIndex)
    case EpochExecuted => s.(completed := true)
    case PlanTooLarge(id) => s.(tooLarge := s.tooLarge + [id])
    case BoostWithdrawFailed(usdg) => s.(boostFailed := s.boostFailed + [usdg])
    case _ => s
  }

  /** The second pass reads the keeper's events from every log. */
  function KeeperNoted(s: Summary, e: Event): Summary {
    match e
    case JobRun(completed) => s.(completed := s.completed || completed)
    case TipsForwarded(amount) => s.(tips := s.tips + amount)
    case _ => s
  }

  const NOTHING := Summary(0, 0, 0, None, None, None, [], [], false, 0)

  function VaultSummary(events: seq<Event>): Summary {
    if events == [] then NOTHING else Noted(VaultSummary(events[..|events| - 1]), events[|events| - 1])
  }

  function WithKeeper(s: Summary, logs: seq<Log>): Summary {
    if logs == [] then s else KeeperNoted(WithKeeper(s, logs[..|logs| - 1]), logs[|logs| - 1].event)
  }

  function SummaryOf(logs: seq<Log>, vault: string): Summary {
    WithKeeper(VaultSummary(EventsOf(logs, vault)), logs)
  }

  method Summarize(logs: seq<Log>, vault: string) returns (s: Summary)
    ensures s == SummaryOf(logs, vault)
  {
    var events := FilterByAddress(logs, vault);
    s := NOTHING;
    for i := 0 to |events|
      invariant s == VaultSummary(events[..i])
    {
      assert events[..i + 1][..i] == events[..i];
      s := Noted(s, events[i]);
    }
    assert events[..|events|] == events;
    for i := 0 to |logs|
      invariant s == WithKeeper(VaultSummary(events), logs[..i])
    {
      assert logs[..i + 1][..i] == logs[..i];
      s := KeeperNoted(s, logs[i].event);
    }
    assert logs[..|logs|] == logs;
  }

  method FilterByAddress(logs: seq<Log>, vault: string) returns (events: seq<Event>)
    ensures events == EventsOf(logs, vault)
  {
    events := [];
    for i := 0 to |logs|
      invariant events == EventsOf(logs[..i], vault)
    {
      assert logs[..i + 1][..i] == logs[..i];
      if Lower(logs[i].address) == Lower(vault) {
        events := events + [logs[i].event];
      }
    }
    assert logs[..|logs|] == logs;
  }

  /** One more event adds its amount to a total if it is a page, and nothing otherwise. */
  lemma TotalOfMore(events: seq<Event>, e: Event, amount: Event -> nat)
    ensures Total(PagesIn(events + [e]), amount)
         == Total(PagesIn(events), amount) + (if e.EpochPageExecuted? then amount(e) else 0)
  {
    assert (events + [e])[..|events|] == events;
    if e.EpochPageExecuted? {
      TotalAppend(PagesIn(events), e, amount);
    } else {
      assert PagesIn(events + [e]) == PagesIn(events);
    }
  }

  lemma SummaryOfMore(events: seq<Event>, e: Event)
    ensures VaultSummary(events + [e]) == Noted(VaultSummary(events), e)
  {
    assert (events + [e])[..|events|] == events;
  }

  lemma {:induction false} NetIsConserved(events: seq<Event>)
    ensures VaultSummary(events).netUsdg == Total(PagesIn(events), NetOf)
    decreases |events|
  {
    if events != [] {
      var init, e := events[..|events| - 1], events[|events| - 1];
      assert events == init + [e];
      NetIsConserved(init);
      SummaryOfMore(init, e);
      TotalOfMore(init, e, NetOf);
    }
  }

  lemma {:induction false} StockIsConserved(events: seq<Event>)
    ensures VaultSummary(events).stockOut == Total(PagesIn(events), StockOf)
    decreases |events|
  {
    if events != [] {
      var init, e := events[..|events| - 1], events[|events| - 1];
      assert events == init + [e];
      StockIsConserved(init);
      SummaryOfMore(init, e);
      TotalOfMore(init, e, StockOf);
    }
  }

  lemma {:induction false} FilledIsConserved(events: seq<Event>)
    ensures VaultSummary(events).plansFilled == Total(PagesIn(events), FilledOf)
    decreases |events|
  {
    if events != [] {
      var init, e := events[..|events| - 1], events[|events| - 1];
      assert events == init + [e];
      FilledIsConserved(init);
      SummaryOfMore(init, e);
      TotalOfMore(init, e, FilledOf);
    }
  }

  /** The figures are the page events' totals: nothing is dropped, nothing is counted twice. */
  lemma SumsAreConserved(events: seq<Event>)
    ensures VaultSummary(events).netUsdg == Total(PagesIn(events), NetOf)
    ensures VaultSummary(events).stockOut == Total(PagesIn(events), StockOf)
    ensures VaultSummary(events).plansFilled == Total(PagesIn(events), FilledOf)
  {
    NetIsConserved(events);
    StockIsConserved(events);
    FilledIsConserved(events);
  }

  lemma {:induction false} NoTipsInVaultEvents(events: seq<Event>)
    ensures VaultSummary(events).tips == 0
    decreases |events|
  {
    if events != [] {
      NoTipsInVaultEvents(events[..|events| - 1]);
    }
  }

  lemma LeastGrows(from: Option<nat>, before: seq<Event>, e: Event)
    requires e.EpochPageExecuted? && forall p :: p in before ==> p.EpochPageExecuted?
    requires Least(from, before)
    ensures Least(if from.None? then Some(e.fromIndex)
                  else if from.value < e.fromIndex then from else Some(e.fromIndex),
                  before + [e])
  {
    var pages := before + [e];
    assert pages[|before|] == e && forall i :: 0 <= i < |before| ==> pages[i] == before[i];
  }

  lemma GreatestGrows(to: Option<nat>, before: seq<Event>, e: Event)
    requires e.EpochPageExecuted? && forall p :: p in before ==> p.EpochPageExecuted?
    requires Greatest(to, before)
    ensures Greatest(if to.None? || e.toIndex > to.value then Some(e.toIndex) else to, before + [e])
  {
    var pages := before + [e];
    assert pages[|before|] == e && forall i :: 0 <= i < |before| ==> pages[i] == before[i];
  }

  lemma {:induction false} LeastIsTight(events: seq<Event>)
    ensures Least(VaultSummary(events).fromIndex, PagesIn(events))
    decreases |events|
  {
    if events != [] {
      var init, e := events[..|events| - 1], events[|events| - 1];
      assert events == init + [e];
      LeastIsTight(init);
      SummaryOfMore(init, e);
      if e.EpochPageExecuted? {
        LeastGrows(VaultSummary(init).fromIndex, PagesIn(init), e);
      } else {
        assert PagesIn(events) == PagesIn(init);
      }
    }
  }

  lemma {:induction false} GreatestIsTight(events: seq<Event>)
    ensures Greatest(VaultSummary(events).toIndex, PagesIn(events))
    decreases |events|
  {
    if events != [] {
      var init, e := events[..|events| - 1], events[|events| - 1];
      assert events == init + [e];
      GreatestIsTight(init);
      SummaryOfMore(init, e);
      if e.EpochPageExecuted? {
        GreatestGrows(VaultSummary(init).toIndex, PagesIn(init), e);
      } else {
        assert PagesIn(events) == PagesIn(init);
      }
    }
  }

  /** The range runs from the least index a page started at to the greatest a page ended at. */
  lemma SpanIsTight(events: seq<Event>)
    ensures Least(VaultSummary(events).fromIndex, PagesIn(events))
    ensures Greatest(VaultSummary(events).toIndex, PagesIn(events))
  {
    LeastIsTight(events);
    GreatestIsTight(events);
  }

  function PlansTooLarge(events: seq<Event>): seq<nat> {
    if events == [] then []
    else
      var e := events[|events| - 1];
      PlansTooLarge(events[..|events| - 1]) + (if e.PlanTooLarge? then [e.planId] else [])
  }

  function BoostFailures(events: seq<Event>): seq<nat> {
    if events == [] then []
    else
      var e := events[|events| - 1];
      BoostFailures(events[..|events| - 1]) + (if e.BoostWithdrawFailed? then [e.usdg] else [])
  }

  /** Every plan that sat out and every failed boost withdrawal is reported, in order; the epoch is the last page's. */
  lemma {:induction false} NothingIsLeftUnsaid(events: seq<Event>)
    ensures VaultSummary(events).tooLarge == PlansTooLarge(events)
    ensures VaultSummary(events).boostFailed == BoostFailures(events)
    ensures var pages := PagesIn(events);
            VaultSummary(events).epochId == if pages == [] then None else Some(pages[|pages| - 1].epochId)
    decreases |events|
  {
    if events != [] {
      NothingIsLeftUnsaid(events[..|events| - 1]);
    }
  }

  lemma {:induction false} KeeperPassKeeps(s: Summary, logs: seq<Log>)
    ensures WithKeeper(s, logs) == s.(completed := WithKeeper(s, logs).completed, tips := WithKeeper(s, logs).tips)
    ensures WithKeeper(s, logs).tips == s.tips + TipsOf(logs)
    ensures WithKeeper(s, logs).completed <==> s.completed || exists i :: 0 <= i < |logs| && SaysDone(logs[i])
    decreases |logs|
  {
    if logs != [] {
      var init := logs[..|logs| - 1];
      KeeperPassKeeps(s, init);
      assert SaysDone(logs[|logs| - 1]) <==> logs[|logs| - 1].event.JobRun? && logs[|logs| - 1].event.completed;
      assert forall i :: 0 <= i < |init| ==> init[i] == logs[i];
    }
  }

  lemma {:induction false} DoneEvents(events: seq<Event>)
    ensures VaultSummary(events).completed <==> EpochExecuted in events
    decreases |events|
  {
    if events != [] {
      DoneEvents(events[..|events| - 1]);
      assert events == events[..|events| - 1] + [events[|events| - 1]];
    }
  }

  /** Pages that follow one another, each where the last one ended. */
  predicate Contiguous(pages: seq<Event>) {
    (forall i :: 0 <= i < |pages| ==> pages[i].EpochPageExecuted? && pages[i].fromIndex < pages[i].toIndex) &&
    forall i :: 0 < i < |pages| ==> pages[i].fromIndex == pages[i - 1].toIndex
  }

  lemma {:induction false} ContiguousRises(pages: seq<Event>, i: nat, j: nat)
    requires Contiguous(pages) && i <= j < |pages|
    ensures pages[i].fromIndex <= pages[j].fromIndex && pages[i].toIndex <= pages[j].toIndex
    decreases j - i
  {
    if i < j {
      ContiguousRises(pages, i, j - 1);
      assert pages[j].fromIndex == pages[j - 1].toIndex;
    }
  }

  lemma LeastIsFirst(from: Option<nat>, pages: seq<Event>)
    requires pages != [] && Contiguous(pages) && Least(from, pages)
    ensures from == Some(pages[0].fromIndex)
  {
    var i :| 0 <= i < |pages| && pages[i].fromIndex == from.value;
    ContiguousRises(pages, 0, i);
  }

  lemma GreatestIsLast(to: Option<nat>, pages: seq<Event>)
    requires pages != [] && Contiguous(pages) && Greatest(to, pages)
    ensures to == Some(pages[|pages| - 1].toIndex)
  {
    var i :| 0 <= i < |pages| && pages[i].toIndex == to.value;
    ContiguousRises(pages, i, |pages| - 1);
  }

  /** For contiguous pages the printed range is exactly the plans they walked, and the sums are their totals. */
  lemma SummaryOfContiguousPages(logs: seq<Log>, vault: string, pages: seq<Event>)
    requires pages == PagesIn(EventsOf(logs, vault)) && pages != [] && Contiguous(pages)
    ensures SummaryOf(logs, vault).fromIndex == Some(pages[0].fromIndex)
    ensures SummaryOf(logs, vault).toIndex == Some(pages[|pages| - 1].toIndex)
    ensures SummaryOf(logs, vault).netUsdg == Total(pages, NetOf)
    ensures SummaryOf(logs, vault).stockOut == Total(pages, StockOf)
    ensures SummaryOf(logs, vault).plansFilled == Total(pages, FilledOf)
    ensures SummaryOf(logs, vault).tips == TipsOf(logs)
  {
    var events := EventsOf(logs, vault);
    SumsAreConserved(events);
    SpanIsTight(events);
    LeastIsFirst(VaultSummary(events).fromIndex, pages);
    GreatestIsLast(VaultSummary(events).toIndex, pages);
    NoTipsInVaultEvents(events);
    KeeperPassKeeps(VaultSummary(events), logs);
  }

  /** A receipt says "complete" exactly when the vault finished the epoch or some `JobRun` says so. */
  lemma CompletedMeans(logs: seq<Log>, vault: string)
    ensures SummaryOf(logs, vault).completed <==>
            EpochExecuted in EventsOf(logs, vault) || exists i :: 0 <= i < |logs| && SaysDone(logs[i])
  {
    DoneEvents(EventsOf(logs, vault));
    KeeperPassKeeps(VaultSummary(EventsOf(logs, vault)), logs);
  }
}
