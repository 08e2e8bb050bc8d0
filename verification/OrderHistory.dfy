/**
 The order table read backwards: what an order's valid events so far say about its state, and so when
 each event is accepted, without looking at the table.
 */
module OrderHistory {
  import opened Ordering
  import opened OrderFlow

  /** A valid row of this event was written. */
  ghost predicate Had(rows: seq<AuditRow>, e: OrderEvent)
  {
    exists i :: 0 <= i < |rows| && rows[i].valid && rows[i].event == e
  }

  lemma HadSnoc(rows: seq<AuditRow>, r: AuditRow, e: OrderEvent)
    ensures Had(rows + [r], e) <==> Had(rows, e) || (r.valid && r.event == e)
  {
    var all := rows + [r];
    if i :| 0 <= i < |rows| && rows[i].valid && rows[i].event == e { assert all[i] == rows[i]; }
    if r.valid && r.event == e { assert all[|rows|] == r; }
    if i :| 0 <= i < |all| && all[i].valid && all[i].event == e {
      if i < |rows| { assert rows[i] == all[i]; }
    }
  }

  /** The order is on the book and nothing has ended or is ending it. */
  ghost predicate Working(rows: seq<AuditRow>)
  {
    && Had(rows, OrderAccepted)
    && !Had(rows, FullFill) && !Had(rows, CancelRequested) && !Had(rows, Reject)
  }

  ghost predicate Untouched(rows: seq<AuditRow>)
  {
    !Had(rows, OrderAccepted) && !Had(rows, Reject)
  }

  /** The state that the valid events of an order add up to. */
  ghost predicate Tells(rows: seq<AuditRow>, s: OrderState)
  {
    match s
    case New => Untouched(rows)
    case Accepted => Working(rows) && !Had(rows, PartialFill)
    case PartiallyFilled => Working(rows) && Had(rows, PartialFill)
    case Filled => Had(rows, FullFill)
    case CancelPending => Had(rows, CancelRequested) && !Had(rows, CancelConfirmed)
    case Cancelled => Had(rows, CancelConfirmed)
    case Rejected => Had(rows, Reject)
  }

  /** When an event is accepted, by the valid events before it. */
  ghost predicate Welcome(rows: seq<AuditRow>, e: OrderEvent)
  {
    match e
    case OrderSubmitted => Untouched(rows)
    case OrderAccepted => Untouched(rows)
    case PartialFill => Working(rows)
    case FullFill => Working(rows)
    case CancelRequested => Working(rows)
    case CancelConfirmed => Had(rows, CancelRequested) && !Had(rows, CancelConfirmed)
    case Reject =>
      !Had(rows, Reject) && !Had(rows, PartialFill) && !Had(rows, FullFill) && !Had(rows, CancelRequested)
  }

  /** What valid events never occur together or without each other. */
  ghost predicate Coherent(rows: seq<AuditRow>)
  {
    && (Had(rows, PartialFill) || Had(rows, FullFill) || Had(rows, CancelRequested) ==> Had(rows, OrderAccepted))
    && (Had(rows, CancelConfirmed) ==> Had(rows, CancelRequested))
    && (Had(rows, Reject) ==> !Had(rows, PartialFill) && !Had(rows, FullFill) && !Had(rows, CancelRequested))
    && !(Had(rows, FullFill) && Had(rows, CancelRequested))
  }

  /** One event, judged by the history alone. */
  lemma NextEvent(id: string, rows: seq<AuditRow>, s: OrderState, e: OrderEvent)
    requires Coherent(rows) && forall t :: Tells(rows, t) <==> t == s
    ensures var r := RowFor(id, s, e);
            && (r.valid <==> Welcome(rows, e))
            && Coherent(rows + [r]) && forall t :: Tells(rows + [r], t) <==> t == r.to
  {
    var r := RowFor(id, s, e);
    forall x ensures Had(rows + [r], x) <==> Had(rows, x) || (r.valid && r.event == x) { HadSnoc(rows, r, x); }
    assert Tells(rows, s);
  }

  /** Over every life of an order, its valid events say which state it is in, and only that one. */
  lemma {:induction false} HistoryTellsState(id: string, cmds: seq<Command>)
    requires NoRestart(cmds)
    ensures Coherent(RowsAfter(id, cmds))
    ensures forall s :: Tells(RowsAfter(id, cmds), s) <==> s == StateAfter(cmds)
  {
    if cmds != [] {
      var rest, c := cmds[..|cmds| - 1], cmds[|cmds| - 1];
      HistoryTellsState(id, rest);
      NextEvent(id, RowsAfter(id, rest), StateAfter(rest), c.event);
      assert cmds == rest + [c];
      ReferenceSnoc(id, rest, c);
    }
  }

  lemma {:induction false} PrefixRows(id: string, cmds: seq<Command>, j: nat)
    requires NoRestart(cmds) && j <= |cmds|
    ensures |RowsAfter(id, cmds)| == |cmds| && RowsAfter(id, cmds)[..j] == RowsAfter(id, cmds[..j])
  {
    AuditChain(id, cmds);
    if j == |cmds| {
      assert cmds[..j] == cmds;
    } else {
      var rest := cmds[..|cmds| - 1];
      PrefixRows(id, rest, j);
      assert rest[..j] == cmds[..j];
      AuditChain(id, rest);
      assert RowsAfter(id, cmds)[..|rest|] == RowsAfter(id, rest);
      assert RowsAfter(id, cmds)[..j] == RowsAfter(id, rest)[..j];
    }
  }

  lemma RowAt(id: string, cmds: seq<Command>, j: nat)
    requires NoRestart(cmds) && j < |cmds|
    ensures |RowsAfter(id, cmds)| == |cmds|
    ensures RowsAfter(id, cmds)[j] == RowFor(id, StateAfter(cmds[..j]), cmds[j].event)
  {
    PrefixRows(id, cmds, j + 1);
    var upTo := cmds[..j + 1];
    assert upTo == cmds[..j] + [cmds[j]];
    ReferenceSnoc(id, cmds[..j], cmds[j]);
    AuditChain(id, cmds[..j]);
    assert RowsAfter(id, cmds)[j] == RowsAfter(id, cmds)[..j + 1][j];
  }

  /** Row `j` of an order is valid exactly when the valid rows before it welcome its event. */
  lemma ValidIff(id: string, cmds: seq<Command>, j: nat)
    requires NoRestart(cmds) && j < |cmds|
    ensures |RowsAfter(id, cmds)| == |cmds|
    ensures var rows := RowsAfter(id, cmds); rows[j].valid <==> Welcome(rows[..j], cmds[j].event)
  {
    PrefixRows(id, cmds, j);
    RowAt(id, cmds, j);
    HistoryTellsState(id, cmds[..j]);
    NextEvent(id, RowsAfter(id, cmds[..j]), StateAfter(cmds[..j]), cmds[j].event);
  }

  /**
   Over every run, for an order that is not reset: each audit row is valid exactly when the order's valid
   rows before it welcome its event, and all its valid rows together say which state it is in.
   */
  lemma RunsAcceptIff(calls: seq<Call>, id: string)
    requires NoRestart(CommandsFor(calls, id))
    ensures var rows := RowsOf(Run(calls).audit, id);
            forall j :: 0 <= j < |rows| ==> (rows[j].valid <==> Welcome(rows[..j], rows[j].event))
    ensures forall s :: Tells(RowsOf(Run(calls).audit, id), s) <==> s == StateOf(Run(calls), id)
  {
    var cmds, rows := CommandsFor(calls, id), RowsOf(Run(calls).audit, id);
    OrdersAreIndependent(calls, id);
    AuditChain(id, cmds);
    HistoryTellsState(id, cmds);
    forall j | 0 <= j < |rows| ensures rows[j].valid <==> Welcome(rows[..j], rows[j].event) {
      ValidIff(id, cmds, j);
      RowAt(id, cmds, j);
    }
  }

  /** An invalid row keeps the state and says what was tried: from where, by which event, and where that leads. */
  lemma DetailMeaning(id: string, before: OrderState, e: OrderEvent, other: OrderState)
    ensures var r := RowFor(id, before, e);
            && r.orderId == id && r.event == e && r.from == before && (r.valid <==> r.detail == Ok)
            && (!r.valid ==>
                  && r.to == before && r.detail.from == before && r.detail.via == e
                  && (ApplyEvent(other, e).1 ==> r.detail.to == ApplyEvent(other, e).0))
  {
  }

  // ----- what is allowed can also be reached -----

  /** Where a list of events leads if every one of them is accepted. */
  ghost predicate Leads(s: OrderState, events: seq<OrderEvent>, t: OrderState)
    decreases events
  {
    if events == [] then s == t
    else ApplyEvent(s, events[0]).1 && Leads(ApplyEvent(s, events[0]).0, events[1..], t)
  }

  lemma LeadsBy(s: OrderState, e: OrderEvent, rest: seq<OrderEvent>, t: OrderState)
    requires ApplyEvent(s, e).1 && Leads(ApplyEvent(s, e).0, rest, t)
    ensures Leads(s, [e] + rest, t)
  {
    assert ([e] + rest)[1..] == rest;
  }

  lemma Stays(s: OrderState)
    ensures Leads(s, [], s)
  {
  }

  lemma FromAccepted(t: OrderState) returns (events: seq<OrderEvent>)
    requires t in {Accepted, PartiallyFilled, Filled, CancelPending, Cancelled, Rejected}
    ensures Leads(Accepted, events, t)
  {
    Stays(t);
    match t {
      case Accepted => events := [];
      case Rejected =>
        LeadsBy(Accepted, Reject, [], t);
        events := [Reject] + [];
      case _ => events := FromWorking(Accepted, t);
    }
  }

  lemma FromWorking(s: OrderState, t: OrderState) returns (events: seq<OrderEvent>)
    requires s in {Accepted, PartiallyFilled} && t in {PartiallyFilled, Filled, CancelPending, Cancelled}
    ensures Leads(s, events, t)
  {
    Stays(t);
    match t {
      case PartiallyFilled =>
        LeadsBy(s, PartialFill, [], t);
        events := [PartialFill] + [];
      case Filled =>
        LeadsBy(s, FullFill, [], t);
        events := [FullFill] + [];
      case CancelPending =>
        LeadsBy(s, CancelRequested, [], t);
        events := [CancelRequested] + [];
      case Cancelled =>
        LeadsBy(CancelPending, CancelConfirmed, [], t);
        LeadsBy(s, CancelRequested, [CancelConfirmed] + [], t);
        events := [CancelRequested] + ([CancelConfirmed] + []);
    }
  }

  /** Every state that is still open to an order can be brought about by accepted events. */
  lemma LaterIsReached(s: OrderState, t: OrderState)
    requires t in Later(s)
    ensures exists events :: Leads(s, events, t)
  {
    Stays(s);
    if s != t {
      match s {
        case New =>
          if t == Rejected {
            Stays(t);
            LeadsBy(New, Reject, [], t);
          } else {
            var events := FromAccepted(t);
            LeadsBy(New, OrderAccepted, events, t);
          }
        case Accepted => var events := FromAccepted(t);
        case PartiallyFilled => var events := FromWorking(s, t);
        case CancelPending =>
          Stays(Cancelled);
          LeadsBy(CancelPending, CancelConfirmed, [], Cancelled);
        case _ =>
      }
    }
  }

  // ----- the fixed scripts, step by step -----

  function Trail(script: seq<OrderEvent>): (states: seq<OrderState>)
  {
    Map(RowsAfter("", Delivered(script)), (r: AuditRow) => r.to)
  }

  lemma TrailSnoc(script: seq<OrderEvent>, e: OrderEvent)
    ensures Trail(script + [e]) == Trail(script) + [ApplyEvent(StateAfter(Delivered(script)), e).0]
  {
    MapAppend(script, [e], (x: OrderEvent) => Deliver(x));
    assert Delivered(script + [e]) == Delivered(script) + [Deliver(e)];
    ReferenceSnoc("", Delivered(script), Deliver(e));
    MapSnoc(RowsAfter("", Delivered(script)), RowFor("", StateAfter(Delivered(script)), e), (r: AuditRow) => r.to);
  }

  lemma TrailOfTwo(a: OrderEvent, b: OrderEvent)
    ensures var s := ApplyEvent(New, a).0; Trail([a, b]) == [s, ApplyEvent(s, b).0]
  {
    TrailSnoc([], a);
    TrailSnoc([a], b);
    DeliveredSnoc([], a);
    assert [] + [a] == [a] && [a] + [b] == [a, b];
    assert Trail([]) == [];
  }

  lemma TrailOfFour(a: OrderEvent, b: OrderEvent, c: OrderEvent, d: OrderEvent)
    ensures var s := ApplyEvent(New, a).0;
            var t := ApplyEvent(s, b).0;
            var u := ApplyEvent(t, c).0;
            Trail([a, b, c, d]) == [s, t, u, ApplyEvent(u, d).0]
  {
    TrailOfTwo(a, b);
    TwoSteps(a, b);
    TrailSnoc([a, b], c);
    DeliveredSnoc([a, b], c);
    TrailSnoc([a, b, c], d);
    assert [a, b] + [c] == [a, b, c] && [a, b, c] + [d] == [a, b, c, d];
  }

  /** The states the four scripts pass through. */
  lemma ScenarioTrails()
    ensures Trail(Script("happy_path")) == [New, Accepted, PartiallyFilled, Filled]
    ensures Trail(Script("cancel_path")) == [New, Accepted, CancelPending, Cancelled]
    ensures Trail(Script("invalid_cancel")) == [New, Accepted, Filled, Filled]
    ensures Trail(Script("reject_early")) == [New, Rejected]
  {
    HappyTrail();
    CancelTrail();
    InvalidCancelTrail();
    TrailOfTwo(OrderSubmitted, Reject);
  }

  lemma HappyTrail()
    ensures Trail(Script("happy_path")) == [New, Accepted, PartiallyFilled, Filled]
  {
    TrailOfFour(OrderSubmitted, OrderAccepted, PartialFill, FullFill);
  }

  lemma CancelTrail()
    ensures Trail(Script("cancel_path")) == [New, Accepted, CancelPending, Cancelled]
  {
    TrailOfFour(OrderSubmitted, OrderAccepted, CancelRequested, CancelConfirmed);
  }

  lemma InvalidCancelTrail()
    ensures Trail(Script("invalid_cancel")) == [New, Accepted, Filled, Filled]
  {
    TrailOfFour(OrderSubmitted, OrderAccepted, FullFill, CancelRequested);
  }
}
