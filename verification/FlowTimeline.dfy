/** `FlowTimeline`: which row of the dialog shows which step of the sequence. */
module FlowTimeline {
  import opened Wrappers
  import opened TxTypes
  import opened UseTx
  import opened TxFlow

  datatype Row = Row(flow: FlowStep, state: Option<StepState>)

  function StateAt(states: seq<StepState>, k: nat): Option<StepState> {
    if k < |states| then Some(states[k]) else None
  }

  function Rows(flow: seq<FlowStep>, states: seq<StepState>, sent: nat): seq<Row> {
    if flow == [] then []
    else if IsSent(flow[0]) then [Row(flow[0], StateAt(states, sent))] + Rows(flow[1..], states, sent + 1)
    else [Row(flow[0], None)] + Rows(flow[1..], states, sent)
  }

  /** The row at `r`, and what comes after it. */
  lemma OneMoreRow(flow: seq<FlowStep>, states: seq<StepState>, r: nat, sent: nat)
    requires r < |flow|
    ensures Rows(flow[r..], states, sent)
         == (if IsSent(flow[r]) then [Row(flow[r], StateAt(states, sent))] + Rows(flow[r + 1..], states, sent + 1)
             else [Row(flow[r], None)] + Rows(flow[r + 1..], states, sent))
  {
    assert flow[r..][1..] == flow[r + 1..];
  }

  /** The source's loop: the counter of sent steps advances only on rows that are neither skipped nor deferred. */
  method MapRows(flow: seq<FlowStep>, states: seq<StepState>) returns (rows: seq<Row>)
    ensures rows == Rows(flow, states, 0)
  {
    rows := [];
    var sent := 0;
    assert flow[0..] == flow;
    for r := 0 to |flow|
      invariant rows + Rows(flow[r..], states, sent) == Rows(flow, states, 0)
    {
      OneMoreRow(flow, states, r, sent);
      ghost var before := rows;
      if flow[r].skipped || flow[r].deferred {
        rows := rows + [Row(flow[r], None)];
        assert rows + Rows(flow[r + 1..], states, sent) == before + Rows(flow[r..], states, sent);
      } else {
        rows := rows + [Row(flow[r], StateAt(states, sent))];
        assert rows + Rows(flow[r + 1..], states, sent + 1) == before + Rows(flow[r..], states, sent);
        sent := sent + 1;
      }
    }
    assert rows + [] == rows;
  }

  function SentTitles(flow: seq<FlowStep>): seq<string> {
    if flow == [] then [] else (if IsSent(flow[0]) then [flow[0].title] else []) + SentTitles(flow[1..])
  }

  function Titles(steps: seq<TxStep>): seq<string> {
    seq(|steps|, i requires 0 <= i < |steps| => steps[i].title)
  }

  /** What every order builder promises the timeline: the rows that send are the steps, by label and in order. */
  predicate Aligned(flow: seq<FlowStep>, steps: seq<TxStep>) {
    SentTitles(flow) == Titles(steps)
  }

  function StatesShown(rows: seq<Row>): seq<StepState> {
    if rows == [] then []
    else (if IsSent(rows[0].flow) && rows[0].state.Some? then [rows[0].state.value] else []) + StatesShown(rows[1..])
  }

  /** A row shows the state of its own step: same label; a row that sends nothing shows none. */
  predicate ShowsItsOwn(row: Row) {
    if IsSent(row.flow) then row.state.Some? && row.state.value.title == row.flow.title else row.state.None?
  }

  /** The states from `sent` on carry the labels of the rows that send, in order. */
  predicate Titled(flow: seq<FlowStep>, states: seq<StepState>, sent: nat) {
    sent + |SentTitles(flow)| == |states| &&
    forall j :: 0 <= j < |SentTitles(flow)| ==> states[sent + j].title == SentTitles(flow)[j]
  }

  function NextSent(f: FlowStep, sent: nat): nat { if IsSent(f) then sent + 1 else sent }

  lemma TitledTail(flow: seq<FlowStep>, states: seq<StepState>, sent: nat)
    requires flow != [] && Titled(flow, states, sent)
    ensures Titled(flow[1..], states, NextSent(flow[0], sent))
    ensures IsSent(flow[0]) ==> sent < |states| && states[sent].title == flow[0].title
  {
    var rest := SentTitles(flow[1..]);
    if IsSent(flow[0]) {
      assert SentTitles(flow) == [flow[0].title] + rest;
      assert states[sent + 0].title == SentTitles(flow)[0];
      forall j | 0 <= j < |rest| ensures states[sent + 1 + j].title == rest[j] {
        assert states[sent + (j + 1)].title == SentTitles(flow)[j + 1];
      }
    } else {
      assert SentTitles(flow) == rest;
    }
  }

  lemma {:induction false} RowsShowTheirOwnFrom(flow: seq<FlowStep>, states: seq<StepState>, sent: nat)
    requires Titled(flow, states, sent)
    ensures |Rows(flow, states, sent)| == |flow|
    ensures forall r :: 0 <= r < |flow| ==>
              Rows(flow, states, sent)[r].flow == flow[r] && ShowsItsOwn(Rows(flow, states, sent)[r])
    decreases |flow|
  {
    if flow != [] {
      TitledTail(flow, states, sent);
      RowsShowTheirOwnFrom(flow[1..], states, NextSent(flow[0], sent));
      assert Rows(flow, states, sent)[1..] == Rows(flow[1..], states, NextSent(flow[0], sent));
    }
  }

  lemma ShownOfMore(row: Row, rest: seq<Row>)
    ensures StatesShown([row] + rest)
         == (if IsSent(row.flow) && row.state.Some? then [row.state.value] + StatesShown(rest) else StatesShown(rest))
  {
    assert ([row] + rest)[1..] == rest && [] + StatesShown(rest) == StatesShown(rest);
  }

  lemma {:induction false} RowsShowEveryStateFrom(flow: seq<FlowStep>, states: seq<StepState>, sent: nat)
    requires Titled(flow, states, sent)
    ensures StatesShown(Rows(flow, states, sent)) == states[sent..]
    decreases |flow|
  {
    if flow != [] {
      TitledTail(flow, states, sent);
      var rest := Rows(flow[1..], states, NextSent(flow[0], sent));
      RowsShowEveryStateFrom(flow[1..], states, NextSent(flow[0], sent));
      if IsSent(flow[0]) {
        ShownOfMore(Row(flow[0], Some(states[sent])), rest);
        assert states[sent..] == [states[sent]] + states[sent + 1..];
      } else {
        ShownOfMore(Row(flow[0], None), rest);
      }
    }
  }

  /**
   * In every reachable state of the flow, the timeline of an aligned order shows each step's state on the row of that
   * step, every step once and in order.
   */
  lemma TimelineShowsEveryStepOnItsRow(es: seq<Event>, flow: seq<FlowStep>)
    requires var s := Exec(START, es);
             s.hook.state.steps != [] && s.owner < |s.orders| && Aligned(flow, s.orders[s.owner].steps)
    ensures var rows := Rows(flow, Exec(START, es).hook.state.steps, 0);
            |rows| == |flow| && StatesShown(rows) == Exec(START, es).hook.state.steps &&
            forall r :: 0 <= r < |flow| ==> rows[r].flow == flow[r] && ShowsItsOwn(rows[r])
  {
    StatesCarryTheOrdersTitles(es);
    var s := Exec(START, es);
    var states := s.hook.state.steps;
    assert Titled(flow, states, 0) by {
      assert |states| == |Titles(s.orders[s.owner].steps)|;
    }
    RowsShowTheirOwnFrom(flow, states, 0);
    RowsShowEveryStateFrom(flow, states, 0);
    assert states[0..] == states;
  }

  /** Alignment survives a splice: keep the first `k` rows and steps when none of those rows is held back. */
  lemma SpliceStaysAligned(flow: seq<FlowStep>, steps: seq<TxStep>, k: nat, flow': seq<FlowStep>, steps': seq<TxStep>)
    requires Aligned(flow, steps) && Aligned(flow', steps')
    requires k <= |flow| && k <= |steps| && forall r :: 0 <= r < k ==> IsSent(flow[r])
    ensures Aligned(flow[..k] + flow', steps[..k] + steps')
  {
    PrefixAligned(flow, steps, k);
    SentTitlesConcat(flow[..k], flow');
    assert Titles(steps[..k] + steps') == Titles(steps[..k]) + Titles(steps');
  }

  lemma PrefixAligned(flow: seq<FlowStep>, steps: seq<TxStep>, k: nat)
    requires Aligned(flow, steps) && k <= |flow| && k <= |steps| && forall r :: 0 <= r < k ==> IsSent(flow[r])
    ensures Aligned(flow[..k], steps[..k])
  {
    SentTitlesConcat(flow[..k], flow[k..]);
    assert flow == flow[..k] + flow[k..];
    AllSent(flow[..k]);
    forall j | 0 <= j < k ensures SentTitles(flow[..k])[j] == steps[j].title {
      assert SentTitles(flow)[j] == Titles(steps)[j];
    }
  }

  lemma {:induction false} SentTitlesConcat(a: seq<FlowStep>, b: seq<FlowStep>)
    ensures SentTitles(a + b) == SentTitles(a) + SentTitles(b)
    decreases |a|
  {
    if a == [] {
      assert a + b == b;
    } else {
      var head := if IsSent(a[0]) then [a[0].title] else [];
      assert (a + b)[0] == a[0] && (a + b)[1..] == a[1..] + b;
      SentTitlesConcat(a[1..], b);
      assert head + (SentTitles(a[1..]) + SentTitles(b)) == head + SentTitles(a[1..]) + SentTitles(b);
    }
  }

  lemma {:induction false} AllSent(flow: seq<FlowStep>)
    requires forall r :: 0 <= r < |flow| ==> IsSent(flow[r])
    ensures |SentTitles(flow)| == |flow|
    decreases |flow|
  {
    if flow != [] {
      AllSent(flow[1..]);
    }
  }
}
