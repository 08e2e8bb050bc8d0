/**
 The order-flow simulator (order_flow_simulator/state_machine.py and simulator.py):
 a transition table, an in-memory state per order and an append-only audit log.
 */
module OrderFlow {
  import opened Ordering

  datatype OrderState = New | Accepted | PartiallyFilled | Filled | CancelPending | Cancelled | Rejected

  datatype OrderEvent =
    | OrderSubmitted | OrderAccepted | PartialFill | FullFill | CancelRequested | CancelConfirmed | Reject

  datatype Detail = Ok | InvalidTransition(from: OrderState, to: OrderState, via: OrderEvent)

  datatype AuditRow = AuditRow(
    orderId: string, event: OrderEvent, from: OrderState, to: OrderState, valid: bool, detail: Detail)

  /** The states an event may leave, and the state it leads to. */
  function Rule(e: OrderEvent): (r: (set<OrderState>, OrderState))
  {
    match e
    case OrderSubmitted => ({New}, New)
    case OrderAccepted => ({New}, Accepted)
    case PartialFill => ({Accepted, PartiallyFilled}, PartiallyFilled)
    case FullFill => ({Accepted, PartiallyFilled}, Filled)
    case CancelRequested => ({Accepted, PartiallyFilled}, CancelPending)
    case CancelConfirmed => ({CancelPending}, Cancelled)
    case Reject => ({New, Accepted}, Rejected)
  }

  function ApplyEvent(current: OrderState, e: OrderEvent): (r: (OrderState, bool, Detail))
  {
    var (allowed, to) := Rule(e);
    if current !in allowed then (current, false, InvalidTransition(current, to, e)) else (to, true, Ok)
  }

  // ----- the reference: one order on its own -----

  /** What happens to an order: an event arrives, or a scenario puts it back to `New`. */
  datatype Command = Deliver(event: OrderEvent) | Restart

  function StateAfter(cmds: seq<Command>): (s: OrderState)
  {
    if cmds == [] then New
    else match cmds[|cmds| - 1]
      case Restart => New
      case Deliver(e) => ApplyEvent(StateAfter(cmds[..|cmds| - 1]), e).0
  }

  function RowFor(id: string, before: OrderState, e: OrderEvent): (r: AuditRow)
  {
    var (after, valid, detail) := ApplyEvent(before, e);
    AuditRow(id, e, before, after, valid, detail)
  }

  function RowsAfter(id: string, cmds: seq<Command>): (rows: seq<AuditRow>)
  {
    if cmds == [] then []
    else
      var rest := cmds[..|cmds| - 1];
      match cmds[|cmds| - 1]
      case Restart => RowsAfter(id, rest)
      case Deliver(e) => RowsAfter(id, rest) + [RowFor(id, StateAfter(rest), e)]
  }

  /** How the reference grows by one command. */
  lemma ReferenceSnoc(id: string, cmds: seq<Command>, c: Command)
    ensures StateAfter(cmds + [c]) == if c.Restart? then New else ApplyEvent(StateAfter(cmds), c.event).0
    ensures RowsAfter(id, cmds + [c])
            == RowsAfter(id, cmds) + (if c.Restart? then [] else [RowFor(id, StateAfter(cmds), c.event)])
  {
    assert (cmds + [c])[..|cmds|] == cmds;
  }

  // ----- the simulator as a state machine over all orders -----

  datatype Call = Call(orderId: string, command: Command)

  datatype Sim = Sim(states: map<string, OrderState>, audit: seq<AuditRow>)

  const START := Sim(map[], [])

  function StateOf(sim: Sim, id: string): (s: OrderState)
  {
    if id in sim.states then sim.states[id] else New
  }

  function Step(sim: Sim, call: Call): (next: Sim)
  {
    var id := call.orderId;
    match call.command
    case Restart => sim.(states := sim.states[id := New])
    case Deliver(e) =>
      var row := RowFor(id, StateOf(sim, id), e);
      Sim(if row.valid then sim.states[id := row.to] else sim.states, sim.audit + [row])
  }

  function Run(calls: seq<Call>): (sim: Sim)
  {
    if calls == [] then START else Step(Run(calls[..|calls| - 1]), calls[|calls| - 1])
  }

  /** The commands one order receives, in order. */
  function CommandsFor(calls: seq<Call>, id: string): (cmds: seq<Command>)
  {
    if calls == [] then []
    else
      var last := calls[|calls| - 1];
      CommandsFor(calls[..|calls| - 1], id) + (if last.orderId == id then [last.command] else [])
  }

  function RowsOf(audit: seq<AuditRow>, id: string): (rows: seq<AuditRow>)
  {
    Filter(audit, (r: AuditRow) => r.orderId == id)
  }

  lemma RowsOfSnoc(audit: seq<AuditRow>, row: AuditRow, id: string)
    ensures RowsOf(audit + [row], id) == RowsOf(audit, id) + (if row.orderId == id then [row] else [])
  {
    FilterAppend(audit, [row], (r: AuditRow) => r.orderId == id);
  }

  lemma CommandsSnoc(calls: seq<Call>, id: string)
    requires calls != []
    ensures var rest, last := calls[..|calls| - 1], calls[|calls| - 1];
            CommandsFor(calls, id) == CommandsFor(rest, id) + (if last.orderId == id then [last.command] else [])
  {
  }

  /** A call about another order changes nothing for this one. */
  lemma OtherOrder(sim: Sim, call: Call, id: string)
    requires call.orderId != id
    ensures StateOf(Step(sim, call), id) == StateOf(sim, id)
    ensures RowsOf(Step(sim, call).audit, id) == RowsOf(sim.audit, id)
  {
    if call.command.Deliver? {
      RowsOfSnoc(sim.audit, RowFor(call.orderId, StateOf(sim, call.orderId), call.command.event), id);
    }
  }

  /** A call about this order is one command of the reference. */
  lemma SameOrder(sim: Sim, call: Call, cmds: seq<Command>)
    requires StateOf(sim, call.orderId) == StateAfter(cmds)
    requires RowsOf(sim.audit, call.orderId) == RowsAfter(call.orderId, cmds)
    ensures StateOf(Step(sim, call), call.orderId) == StateAfter(cmds + [call.command])
    ensures RowsOf(Step(sim, call).audit, call.orderId) == RowsAfter(call.orderId, cmds + [call.command])
  {
    ReferenceSnoc(call.orderId, cmds, call.command);
    if call.command.Deliver? {
      RowsOfSnoc(sim.audit, RowFor(call.orderId, StateAfter(cmds), call.command.event), call.orderId);
    }
  }

  /** Whatever the interleaving, each order sees exactly its own commands. */
  lemma {:induction false} OrdersAreIndependent(calls: seq<Call>, id: string)
    ensures StateOf(Run(calls), id) == StateAfter(CommandsFor(calls, id))
    ensures RowsOf(Run(calls).audit, id) == RowsAfter(id, CommandsFor(calls, id))
  {
    if calls != [] {
      var rest, last := calls[..|calls| - 1], calls[|calls| - 1];
      OrdersAreIndependent(rest, id);
      CommandsSnoc(calls, id);
      var sim, mine := Run(rest), CommandsFor(rest, id);
      assert Run(calls) == Step(sim, last);
      NextCall(sim, last, id, mine);
    }
  }

  lemma NextCall(sim: Sim, call: Call, id: string, cmds: seq<Command>)
    requires StateOf(sim, id) == StateAfter(cmds) && RowsOf(sim.audit, id) == RowsAfter(id, cmds)
    ensures var after := cmds + (if call.orderId == id then [call.command] else []);
            && StateOf(Step(sim, call), id) == StateAfter(after)
            && RowsOf(Step(sim, call).audit, id) == RowsAfter(id, after)
  {
    if call.orderId == id {
      SameOrder(sim, call, cmds);
    } else {
      OtherOrder(sim, call, id);
      assert cmds + [] == cmds;
    }
  }

  /** Two interleavings of the same per-order commands end alike for every order. */
  lemma InterleavingsAgree(a: seq<Call>, b: seq<Call>)
    requires forall id :: CommandsFor(a, id) == CommandsFor(b, id)
    ensures forall id :: StateOf(Run(a), id) == StateOf(Run(b), id)
    ensures forall id :: RowsOf(Run(a).audit, id) == RowsOf(Run(b).audit, id)
  {
    forall id
      ensures StateOf(Run(a), id) == StateOf(Run(b), id) && RowsOf(Run(a).audit, id) == RowsOf(Run(b).audit, id)
    {
      OrdersAreIndependent(a, id);
      OrdersAreIndependent(b, id);
    }
  }

  // ----- the audit rows of one order form a chain -----

  ghost predicate NoRestart(cmds: seq<Command>)
  {
    forall i :: 0 <= i < |cmds| ==> cmds[i].Deliver?
  }

  /** Where a sequence of rows leaves the order. */
  function Reached(rows: seq<AuditRow>): (s: OrderState)
  {
    if rows == [] then New else rows[|rows| - 1].to
  }

  /** Each row starts where the one before it ended, the first at `New`, and the last ends at `state`. */
  ghost predicate Chained(rows: seq<AuditRow>, state: OrderState)
  {
    && (forall i :: 0 <= i < |rows| ==> rows[i].from == Reached(rows[..i]))
    && state == Reached(rows)
  }

  lemma {:induction false} AuditChain(id: string, cmds: seq<Command>)
    requires NoRestart(cmds)
    ensures Chained(RowsAfter(id, cmds), StateAfter(cmds))
    ensures |RowsAfter(id, cmds)| == |cmds|
  {
    if cmds != [] {
      var rest, rows := cmds[..|cmds| - 1], RowsAfter(id, cmds);
      AuditChain(id, rest);
      var before := RowsAfter(id, rest);
      forall i | 0 <= i < |rows| ensures rows[i].from == Reached(rows[..i]) {
        assert rows[..i] == before[..i];
        if i == |before| { assert before[..i] == before; }
      }
    }
  }

  predicate IsDelivery(c: Command) { c.Deliver? }

  function Redelivered(r: AuditRow): (c: Command) { Deliver(r.event) }

  /** The rows of an order record exactly the events it received. */
  lemma {:induction false} RowsRecordEvents(id: string, cmds: seq<Command>)
    ensures Map(RowsAfter(id, cmds), Redelivered) == Filter(cmds, IsDelivery)
  {
    if cmds != [] {
      var rest, c := cmds[..|cmds| - 1], cmds[|cmds| - 1];
      RowsRecordEvents(id, rest);
      assert cmds == rest + [c];
      FilterSnoc(rest, c, IsDelivery);
      ReferenceSnoc(id, rest, c);
      if c.Deliver? { MapSnoc(RowsAfter(id, rest), RowFor(id, StateAfter(rest), c.event), Redelivered); }
    }
  }

  lemma MapSnoc<T, R>(s: seq<T>, x: T, f: T -> R)
    ensures Map(s + [x], f) == Map(s, f) + [f(x)]
  {
  }

  /**
   What `replay_order` loads after any run records exactly the events the order received, and feeding
   them to a fresh order writes the same rows again, unless the order was reset on the way.
   */
  lemma ReplayReproduces(calls: seq<Call>, id: string)
    ensures var replay := Map(RowsOf(Run(calls).audit, id), Redelivered);
            && replay == Filter(CommandsFor(calls, id), IsDelivery)
            && (NoRestart(CommandsFor(calls, id)) ==> RowsAfter(id, replay) == RowsOf(Run(calls).audit, id))
  {
    var cmds := CommandsFor(calls, id);
    OrdersAreIndependent(calls, id);
    RowsRecordEvents(id, cmds);
    if NoRestart(cmds) { FilterAll(cmds, IsDelivery); }
  }

  /** Over every run that never restarts an order, its audit rows form one chain that ends in its state. */
  lemma RunsAreChains(calls: seq<Call>, id: string)
    requires NoRestart(CommandsFor(calls, id))
    ensures Chained(RowsOf(Run(calls).audit, id), StateOf(Run(calls), id))
  {
    OrdersAreIndependent(calls, id);
    AuditChain(id, CommandsFor(calls, id));
  }

  /** A restart begins a new chain: what follows is what a fresh order would get, after the old rows. */
  lemma {:induction false} RestartStartsAfresh(id: string, before: seq<Command>, later: seq<Command>)
    ensures StateAfter(before + [Restart] + later) == StateAfter(later)
    ensures RowsAfter(id, before + [Restart] + later) == RowsAfter(id, before) + RowsAfter(id, later)
  {
    var all := before + [Restart] + later;
    if later == [] {
      assert all == before + [Restart];
      ReferenceSnoc(id, before, Restart);
    } else {
      var init, c := later[..|later| - 1], later[|later| - 1];
      assert later == init + [c] && all == before + [Restart] + init + [c];
      RestartStartsAfresh(id, before, init);
      ReferenceSnoc(id, before + [Restart] + init, c);
      ReferenceSnoc(id, init, c);
    }
  }

  // ----- progress -----

  function Rank(s: OrderState): (n: nat)
    ensures n <= 4
  {
    match s
    case New => 0
    case Accepted => 1
    case PartiallyFilled => 2
    case CancelPending => 3
    case _ => 4
  }

  predicate Terminal(s: OrderState)
  {
    s == Filled || s == Cancelled || s == Rejected
  }

  predicate Changes(r: AuditRow)
  {
    r.to != r.from
  }

  /** A change of state comes from a valid event and raises the rank. */
  lemma ChangeRaisesRank(id: string, before: OrderState, e: OrderEvent)
    ensures var r := RowFor(id, before, e);
            if Changes(r) then r.valid && Rank(r.from) < Rank(r.to) else Rank(r.from) == Rank(r.to)
  {
  }

  /** Every change of state raises the rank, so an order changes state at most four times. */
  lemma {:induction false} AtMostFourChanges(id: string, cmds: seq<Command>)
    requires NoRestart(cmds)
    ensures |Filter(RowsAfter(id, cmds), Changes)| <= Rank(StateAfter(cmds)) <= 4
  {
    if cmds != [] {
      var rest, e := cmds[..|cmds| - 1], cmds[|cmds| - 1].event;
      AtMostFourChanges(id, rest);
      ChangeRaisesRank(id, StateAfter(rest), e);
      FilterSnoc(RowsAfter(id, rest), RowFor(id, StateAfter(rest), e), Changes);
    }
  }

  /** The states an order can still be in after it has been in `s`. */
  function Later(s: OrderState): (r: set<OrderState>)
    ensures s in r
  {
    match s
    case New => {New, Accepted, PartiallyFilled, Filled, CancelPending, Cancelled, Rejected}
    case Accepted => {Accepted, PartiallyFilled, Filled, CancelPending, Cancelled, Rejected}
    case PartiallyFilled => {PartiallyFilled, Filled, CancelPending, Cancelled}
    case CancelPending => {CancelPending, Cancelled}
    case Filled => {Filled}
    case Cancelled => {Cancelled}
    case Rejected => {Rejected}
  }

  lemma {:induction false} RowIsApplied(id: string, cmds: seq<Command>, j: nat)
    requires NoRestart(cmds) && j < |cmds|
    ensures |RowsAfter(id, cmds)| == |cmds|
    ensures RowsAfter(id, cmds)[j] == RowFor(id, RowsAfter(id, cmds)[j].from, cmds[j].event)
  {
    var rest, c := cmds[..|cmds| - 1], cmds[|cmds| - 1];
    assert cmds == rest + [c];
    ReferenceSnoc(id, rest, c);
    AuditChain(id, rest);
    if j < |rest| { RowIsApplied(id, rest, j); }
  }

  /** Row `j` starts where row `j - 1` ended. */
  lemma RowsLink(id: string, cmds: seq<Command>, j: nat)
    requires NoRestart(cmds) && 0 < j < |cmds|
    ensures |RowsAfter(id, cmds)| == |cmds|
    ensures RowsAfter(id, cmds)[j].from == RowsAfter(id, cmds)[j - 1].to
  {
    AuditChain(id, cmds);
    var rows := RowsAfter(id, cmds);
    assert rows[j].from == Reached(rows[..j]);
  }

  lemma LaterClosed(s: OrderState, x: OrderState, e: OrderEvent)
    requires x in Later(s)
    ensures ApplyEvent(x, e).0 in Later(s)
  {
  }

  /** In one chain, everything after row `i` stays within what row `i` still allows. */
  lemma {:induction false} StaysReachable(id: string, cmds: seq<Command>, i: nat, j: nat)
    requires NoRestart(cmds) && i <= j < |cmds|
    ensures |RowsAfter(id, cmds)| == |cmds|
    ensures RowsAfter(id, cmds)[j].to in Later(RowsAfter(id, cmds)[i].to)
  {
    RowIsApplied(id, cmds, j);
    if i < j {
      StaysReachable(id, cmds, i, j - 1);
      RowsLink(id, cmds, j);
      LaterClosed(RowsAfter(id, cmds)[i].to, RowsAfter(id, cmds)[j].from, cmds[j].event);
    }
  }

  /** An order that reached CancelPending is never filled. */
  lemma CancelPendingNeverFills(id: string, cmds: seq<Command>, i: nat, j: nat)
    requires NoRestart(cmds) && i <= j < |cmds| && |RowsAfter(id, cmds)| == |cmds|
    requires RowsAfter(id, cmds)[i].to == CancelPending
    ensures RowsAfter(id, cmds)[j].to != Filled && RowsAfter(id, cmds)[j].to != PartiallyFilled
  {
    StaysReachable(id, cmds, i, j);
  }

  /** After a terminal row every later row is an invalid self-loop. */
  lemma TerminalIsFinal(id: string, cmds: seq<Command>, i: nat, j: nat)
    requires NoRestart(cmds) && i < j < |cmds| && |RowsAfter(id, cmds)| == |cmds|
    requires Terminal(RowsAfter(id, cmds)[i].to)
    ensures var r := RowsAfter(id, cmds)[j];
            !r.valid && r.from == r.to == RowsAfter(id, cmds)[i].to && r.detail.InvalidTransition?
  {
    StaysReachable(id, cmds, i, j - 1);
    RowsLink(id, cmds, j);
    RowIsApplied(id, cmds, j);
  }

  function Restarts(cmds: seq<Command>): (n: nat)
  {
    if cmds == [] then 0
    else Restarts(cmds[..|cmds| - 1]) + (if cmds[|cmds| - 1].Restart? then 1 else 0)
  }

  /** With resets allowed: each reset makes room for four more changes. */
  lemma {:induction false} ChangesPerReset(id: string, cmds: seq<Command>)
    ensures |Filter(RowsAfter(id, cmds), Changes)| <= 4 * Restarts(cmds) + Rank(StateAfter(cmds))
  {
    if cmds != [] {
      var rest, c := cmds[..|cmds| - 1], cmds[|cmds| - 1];
      ChangesPerReset(id, rest);
      if c.Deliver? {
        ChangeRaisesRank(id, StateAfter(rest), c.event);
        FilterSnoc(RowsAfter(id, rest), RowFor(id, StateAfter(rest), c.event), Changes);
      }
    }
  }

  // ----- the same for every run -----

  /** Over every run, an order changes state at most four times per life. */
  lemma RunsChangeFourTimesPerReset(calls: seq<Call>, id: string)
    ensures |Filter(RowsOf(Run(calls).audit, id), Changes)| <= 4 * (Restarts(CommandsFor(calls, id)) + 1)
  {
    OrdersAreIndependent(calls, id);
    ChangesPerReset(id, CommandsFor(calls, id));
  }

  lemma {:induction false} CommandsAppend(a: seq<Call>, b: seq<Call>, id: string)
    ensures CommandsFor(a + b, id) == CommandsFor(a, id) + CommandsFor(b, id)
  {
    if b == [] {
      assert a + b == a;
    } else {
      CommandsAppend(a, b[..|b| - 1], id);
      assert (a + b)[..|a + b| - 1] == a + b[..|b| - 1];
      CommandsSnoc(a + b, id);
      CommandsSnoc(b, id);
    }
  }

  /**
   Over every run, whatever happens to an order after a reset is what the later calls alone would do to a
   fresh simulator: its state is theirs, and their rows follow the rows from before the reset.
   */
  lemma RunsRestartAfresh(before: seq<Call>, later: seq<Call>, id: string)
    ensures var calls := before + [Call(id, Restart)] + later;
            && StateOf(Run(calls), id) == StateOf(Run(later), id)
            && RowsOf(Run(calls).audit, id) == RowsOf(Run(before).audit, id) + RowsOf(Run(later).audit, id)
  {
    var reset := [Call(id, Restart)];
    CommandsAppend(before + reset, later, id);
    CommandsAppend(before, reset, id);
    assert CommandsFor(reset, id) == [Restart] by { CommandsSnoc(reset, id); }
    OrdersAreIndependent(before + reset + later, id);
    OrdersAreIndependent(before, id);
    OrdersAreIndependent(later, id);
    RestartStartsAfresh(id, CommandsFor(before, id), CommandsFor(later, id));
  }

  /** Over every run, an order that is not reset changes state at most four times. */
  lemma RunsChangeAtMostFourTimes(calls: seq<Call>, id: string)
    requires NoRestart(CommandsFor(calls, id))
    ensures |Filter(RowsOf(Run(calls).audit, id), Changes)| <= 4
  {
    OrdersAreIndependent(calls, id);
    AtMostFourChanges(id, CommandsFor(calls, id));
  }

  /** Over every run, an order that reached CancelPending is not filled afterwards. */
  lemma RunsNeverFillAfterCancel(calls: seq<Call>, id: string)
    requires NoRestart(CommandsFor(calls, id))
    ensures var rows := RowsOf(Run(calls).audit, id);
            forall i, j :: 0 <= i <= j < |rows| && rows[i].to == CancelPending ==>
              rows[j].to != Filled && rows[j].to != PartiallyFilled
  {
    var cmds, rows := CommandsFor(calls, id), RowsOf(Run(calls).audit, id);
    OrdersAreIndependent(calls, id);
    AuditChain(id, cmds);
    forall i, j | 0 <= i <= j < |rows| && rows[i].to == CancelPending
      ensures rows[j].to != Filled && rows[j].to != PartiallyFilled
    {
      CancelPendingNeverFills(id, cmds, i, j);
    }
  }

  /** Over every run, what follows a terminal row of an order are invalid self-loops. */
  lemma RunsStopAtTerminal(calls: seq<Call>, id: string)
    requires NoRestart(CommandsFor(calls, id))
    ensures var rows := RowsOf(Run(calls).audit, id);
            forall i, j :: 0 <= i < j < |rows| && Terminal(rows[i].to) ==>
              !rows[j].valid && rows[j].from == rows[j].to == rows[i].to
  {
    var cmds, rows := CommandsFor(calls, id), RowsOf(Run(calls).audit, id);
    OrdersAreIndependent(calls, id);
    AuditChain(id, cmds);
    forall i, j | 0 <= i < j < |rows| && Terminal(rows[i].to)
      ensures !rows[j].valid && rows[j].from == rows[j].to == rows[i].to
    {
      TerminalIsFinal(id, cmds, i, j);
    }
  }

  // ----- the class -----

  function Script(name: string): (r: seq<OrderEvent>)
  {
    match name
    case "happy_path" => [OrderSubmitted, OrderAccepted, PartialFill, FullFill]
    case "cancel_path" => [OrderSubmitted, OrderAccepted, CancelRequested, CancelConfirmed]
    case "invalid_cancel" => [OrderSubmitted, OrderAccepted, FullFill, CancelRequested]
    case "reject_early" => [OrderSubmitted, Reject]
    case _ => []
  }

  predicate KnownScenario(name: string)
  {
    name in {"happy_path", "cancel_path", "invalid_cancel", "reject_early"}
  }

  datatype SimulationResult =
    | UnknownScenario
    | Finished(orderId: string, finalState: OrderState, events: seq<AuditRow>, invalidCount: nat)

  function Delivered(script: seq<OrderEvent>): (cmds: seq<Command>)
  {
    Map(script, (e: OrderEvent) => Deliver(e))
  }

  predicate Invalid(r: AuditRow)
  {
    !r.valid
  }

  class OrderFlowSimulator {
    var states: map<string, OrderState>
    var audit: seq<AuditRow>

    ghost function Snapshot(): (s: Sim)
      reads this
    {
      Sim(states, audit)
    }

    constructor ()
      ensures Snapshot() == START
    {
      states, audit := map[], [];
    }

    /** `apply`: one event, one audit row. */
    method Apply(orderId: string, e: OrderEvent) returns (row: AuditRow)
      modifies this
      ensures Snapshot() == Step(old(Snapshot()), Call(orderId, Deliver(e)))
      ensures row == RowFor(orderId, StateOf(old(Snapshot()), orderId), e)
    {
      var before := if orderId in states then states[orderId] else New;
      var (after, valid, detail) := ApplyEvent(before, e);
      if orderId !in states && e == OrderSubmitted {
        states := states[orderId := New];
        before := New;
        var (after2, valid2, detail2) := ApplyEvent(before, e);
        after, valid, detail := after2, valid2, detail2;
      }
      if valid {
        states := states[orderId := after];
      }
      row := AuditRow(orderId, e, before, if valid then after else before, valid, detail);
      audit := audit + [row];
    }

    /** Applies a script to an order that has just been reset. */
    method RunScript(oid: string, script: seq<OrderEvent>) returns (events: seq<AuditRow>, invalid: nat)
      requires StateOf(Snapshot(), oid) == New
      modifies this
      ensures events == RowsAfter(oid, Delivered(script))
      ensures StateOf(Snapshot(), oid) == StateAfter(Delivered(script))
      ensures invalid == |Filter(events, Invalid)|
      ensures audit == old(audit) + events
      ensures forall id :: id != oid ==> StateOf(Snapshot(), id) == StateOf(old(Snapshot()), id)
    {
      invalid, events := 0, [];
      ghost var cmds := Delivered(script);
      for i := 0 to |script|
        invariant events == RowsAfter(oid, cmds[..i])
        invariant StateOf(Snapshot(), oid) == StateAfter(cmds[..i])
        invariant invalid == |Filter(events, Invalid)|
        invariant audit == old(audit) + events
        invariant forall id :: id != oid ==> StateOf(Snapshot(), id) == StateOf(old(Snapshot()), id)
      {
        PrefixSnoc(cmds, i);
        ReferenceSnoc(oid, cmds[..i], Deliver(script[i]));
        var row := Apply(oid, script[i]);
        FilterSnoc(events, row, Invalid);
        AppendAssociative(old(audit), events, [row]);
        events := events + [row];
        if !row.valid {
          invalid := invalid + 1;
        }
      }
      assert cmds[..|script|] == cmds;
    }

    /** `run_scenario`: resets the order without an audit row, then applies the script. */
    method RunScenario(name: string, requested: string) returns (result: SimulationResult)
      modifies this
      ensures !KnownScenario(name) ==> result == UnknownScenario && Snapshot() == old(Snapshot())
      ensures KnownScenario(name) ==>
                && result.Finished?
                && result.orderId == (if requested == "" then "ORD-" + name else requested)
                && result.events == RowsAfter(result.orderId, Delivered(Script(name)))
                && result.finalState == StateAfter(Delivered(Script(name))) == StateOf(Snapshot(), result.orderId)
                && result.invalidCount == |Filter(result.events, Invalid)|
                && audit == old(audit) + result.events
                && (forall id :: id != result.orderId ==> StateOf(Snapshot(), id) == StateOf(old(Snapshot()), id))
    {
      if !KnownScenario(name) {
        return UnknownScenario;
      }
      var oid := if requested == "" then "ORD-" + name else requested;
      states := states[oid := New];
      var events, invalid := RunScript(oid, Script(name));
      return Finished(oid, if oid in states then states[oid] else New, events, invalid);
    }

    /** `replay_order`: the rows of one order, read-only. */
    method ReplayOrder(orderId: string) returns (out: seq<AuditRow>)
      ensures out == RowsOf(audit, orderId)
    {
      out := [];
      for i := 0 to |audit|
        invariant out == RowsOf(audit[..i], orderId)
      {
        assert audit[..i + 1] == audit[..i] + [audit[i]];
        RowsOfSnoc(audit[..i], audit[i], orderId);
        if audit[i].orderId == orderId {
          out := out + [audit[i]];
        }
      }
      assert audit[..|audit|] == audit;
    }
  }

  lemma DeliveredSnoc(script: seq<OrderEvent>, e: OrderEvent)
    ensures StateAfter(Delivered(script + [e])) == ApplyEvent(StateAfter(Delivered(script)), e).0
  {
    MapAppend(script, [e], (x: OrderEvent) => Deliver(x));
    assert Delivered(script + [e]) == Delivered(script) + [Deliver(e)];
    ReferenceSnoc("", Delivered(script), Deliver(e));
  }

  lemma FourSteps(a: OrderEvent, b: OrderEvent, c: OrderEvent, d: OrderEvent)
    ensures StateAfter(Delivered([a, b, c, d]))
            == ApplyEvent(ApplyEvent(ApplyEvent(ApplyEvent(New, a).0, b).0, c).0, d).0
  {
    TwoSteps(a, b);
    DeliveredSnoc([a, b], c);
    DeliveredSnoc([a, b, c], d);
    assert [a, b] + [c] == [a, b, c] && [a, b, c] + [d] == [a, b, c, d];
  }

  lemma TwoSteps(a: OrderEvent, b: OrderEvent)
    ensures StateAfter(Delivered([a, b])) == ApplyEvent(ApplyEvent(New, a).0, b).0
  {
    DeliveredSnoc([], a);
    DeliveredSnoc([a], b);
    assert [] + [a] == [a] && [a] + [b] == [a, b];
  }

  /** Where the named scenarios end. */
  lemma ScenarioOutcomes()
    ensures StateAfter(Delivered(Script("happy_path"))) == Filled
    ensures StateAfter(Delivered(Script("cancel_path"))) == Cancelled
    ensures StateAfter(Delivered(Script("invalid_cancel"))) == Filled
    ensures StateAfter(Delivered(Script("reject_early"))) == Rejected
  {
    FourSteps(OrderSubmitted, OrderAccepted, PartialFill, FullFill);
    FourSteps(OrderSubmitted, OrderAccepted, CancelRequested, CancelConfirmed);
    FourSteps(OrderSubmitted, OrderAccepted, FullFill, CancelRequested);
    TwoSteps(OrderSubmitted, Reject);
  }
}
