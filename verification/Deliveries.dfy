/** What a purchase is delivered as: a support period without a ticket, or a ticket of the buyer's for the team. */
module Deliveries {
  import opened Options
  import opened Ledger
  import opened Protocol
  import opened ProtocolInvariant
  import opened ProtocolSteps
  import opened ProtocolTheorems

  /** Only priority support is ever extended, and only if it was asked for. */
  predicate MayExtend(r: CallRequest)
    requires r.Buy?
  {
    r.addon == PrioritySupport && r.extend
  }

  /** What a call has in hand between its statements. */
  predicate InHand(r: CallRequest, pc: Phase)
    requires r.Buy?
  {
    match pc
    case Ready(_, ext) => ext ==> MayExtend(r)
    case Paid(_, ext) => ext ==> MayExtend(r)
    case PeriodRead(_, ext, _) => (ext ==> MayExtend(r)) && r.addon == PrioritySupport
    case Delivered(_, ext, status, ticket) =>
      && (ext ==> MayExtend(r)) && (ticket.None? <==> r.addon == PrioritySupport)
      && status == if r.addon == PrioritySupport then Applied else Queued
    case _ => true
  }

  ghost predicate CallRight(w: World, c: CallId)
    requires c in w.calls
  {
    w.calls[c].req.Buy? ==> InHand(w.calls[c].req, Live(w.calls[c].pc))
  }

  /** A row that went through is applied exactly if it is a period, and extends one only as its call asked for. */
  ghost predicate RowRight(w: World, id: RowId)
    requires id in w.rows
  {
    && id in w.born && w.born[id].call in w.calls && w.calls[w.born[id].call].req.Buy?
    && var row := w.rows[id];
    && (row.status != Pending ==>
          && (row.status == Applied <==> row.addon == PrioritySupport)
          && (row.ticket.None? <==> row.addon == PrioritySupport))
    && (row.extension ==> MayExtend(w.calls[w.born[id].call].req))
  }

  /** A ticket is the buyer's, and for something the team has to do. */
  ghost predicate TicketRight(w: World, t: Ticket) {
    t.purchase in w.born && t.user == w.born[t.purchase].user && w.born[t.purchase].addon != PrioritySupport
  }

  ghost predicate Right(w: World) {
    && (forall c {:trigger CallRight(w, c)} | c in w.calls :: CallRight(w, c))
    && (forall id {:trigger RowRight(w, id)} | id in w.rows :: RowRight(w, id))
    && (forall t {:trigger TicketRight(w, t)} | t in w.tickets :: TicketRight(w, t))
  }

  /** The rows and tickets of a step that leaves the ones there are as they were. */
  ghost predicate NothingNew(w: World, w': World) {
    && w'.tickets == w.tickets && w'.born == w.born
    && forall id | id in w'.rows :: id in w.rows && w'.rows[id] == w.rows[id]
  }

  lemma QuietKeeps(w: World, w': World, c: CallId)
    requires Right(w) && OneCallMoves(w, w', c) && NothingNew(w, w') && CallRight(w', c)
    ensures Right(w')
  {
    CallsKept(w, w', c);
    forall id | id in w'.rows
      ensures RowRight(w', id)
    {
      assert RowRight(w, id);
    }
    forall t | t in w'.tickets
      ensures TicketRight(w', t)
    {
      assert TicketRight(w, t);
    }
  }

  lemma CallsKept(w: World, w': World, c: CallId)
    requires Right(w) && OneCallMoves(w, w', c) && CallRight(w', c)
    ensures forall d {:trigger CallRight(w', d)} | d in w'.calls :: CallRight(w', d)
  {
    forall d | d in w'.calls
      ensures CallRight(w', d)
    {
      if d != c {
        assert CallRight(w, d);
      }
    }
  }

  // ---------------------------------------------------------------- step by step

  lemma ClaimKeeps(w: World, w': World, c: CallId, newId: RowId)
    requires Inv(w) && Right(w) && c in w.calls && w.calls[c].req.Buy? && Claim(w, w', c, newId)
    ensures Right(w')
  {
    CallsKept(w, w', c);
    forall id | id in w'.rows
      ensures RowRight(w', id)
    {
      if id in w.rows {
        assert RowRight(w, id);
      }
    }
    forall t | t in w'.tickets
      ensures TicketRight(w', t)
    {
      assert TicketRight(w, t);
    }
  }

  lemma EarlyKeeps(w: World, w': World, c: CallId, now: Time, newId: RowId)
    requires Right(w) && c in w.calls && w.calls[c].req.Buy? && BuyStep(w, w', c, now, newId)
    requires var pc := w.calls[c].pc; pc.Duplicate? || pc.Claimed? || pc.Ready?
    ensures Right(w')
  {
    assert CallRight(w, c);
    QuietKeeps(w, w', c);
  }

  lemma LateKeeps(w: World, w': World, c: CallId, now: Time, newId: RowId)
    requires Right(w) && c in w.calls && w.calls[c].req.Buy? && BuyStep(w, w', c, now, newId)
    requires var pc := w.calls[c].pc;
             pc.PeriodRead? || pc.Undelivered? || pc.Rejected? || pc.Declined? || pc.Returned?
    ensures Right(w')
  {
    assert CallRight(w, c);
    QuietKeeps(w, w', c);
  }

  /** The row that a call works on is its own. */
  lemma OwnRow(w: World, c: CallId, id: RowId)
    requires Inv(w) && c in w.calls && w.calls[c].req.Buy? && RowOf(w.calls[c].pc) == Some(id)
    ensures id in w.born && w.born[id].call == c
    ensures w.born[id].user == w.calls[c].req.user && w.born[id].addon == w.calls[c].req.addon
    ensures id in w.rows ==> w.rows[id].addon == w.calls[c].req.addon
  {
    assert CallInv(w, c);
    assert RowInv(w, id);
  }

  lemma DeliverKeeps(w: World, w': World, c: CallId, id: RowId, ext: bool, now: Time)
    requires Inv(w) && Right(w) && c in w.calls && w.calls[c].req.Buy? && w.calls[c].pc == Paid(id, ext)
    requires Deliver(w, w', c, id, ext, now)
    ensures Right(w')
  {
    assert CallRight(w, c);
    OwnRow(w, c, id);
    CallsKept(w, w', c);
    forall i | i in w'.rows
      ensures RowRight(w', i)
    {
      assert RowRight(w, i);
    }
    forall t | t in w'.tickets
      ensures TicketRight(w', t)
    {
      if t in w.tickets {
        assert TicketRight(w, t);
      }
    }
  }

  lemma SettleKeeps(w: World, w': World, c: CallId, id: RowId, ext: bool, status: Status, ticket: Option<nat>)
    requires Inv(w) && Right(w) && c in w.calls && w.calls[c].req.Buy?
    requires w.calls[c].pc == Delivered(id, ext, status, ticket) && Settle(w, w', c, id, ext, status, ticket)
    ensures Right(w')
  {
    assert CallRight(w, c);
    OwnRow(w, c, id);
    CallsKept(w, w', c);
    forall i | i in w'.rows
      ensures RowRight(w', i)
    {
      assert RowRight(w, i);
    }
    forall t | t in w'.tickets
      ensures TicketRight(w', t)
    {
      assert TicketRight(w, t);
    }
  }

  lemma BuyKeeps(w: World, w': World, c: CallId, now: Time, newId: RowId)
    requires Inv(w) && Right(w) && c in w.calls && w.calls[c].req.Buy? && BuyStep(w, w', c, now, newId)
    ensures Right(w')
  {
    match w.calls[c].pc
    case Asking => ClaimKeeps(w, w', c, newId);
    case Paid(id, ext) => DeliverKeeps(w, w', c, id, ext, now);
    case Delivered(id, ext, status, ticket) => SettleKeeps(w, w', c, id, ext, status, ticket);
    case Duplicate => EarlyKeeps(w, w', c, now, newId);
    case Claimed(_) => EarlyKeeps(w, w', c, now, newId);
    case Ready(_, _) => EarlyKeeps(w, w', c, now, newId);
    case _ => LateKeeps(w, w', c, now, newId);
  }

  lemma QuietClosing(w: World, w': World, c: CallId)
    requires c in w.calls && w.calls[c].req.Close? && CloseStep(w, w', c)
    requires w.calls[c].pc.Opening? || w.calls[c].pc.Decided?
    ensures NothingNew(w, w')
  {
  }

  /** A closing moves its order between queued, fulfilled and refunded, and touches nothing else of any row. */
  ghost predicate OrderMoves(w: World, w': World, i: RowId)
    requires i in w'.rows
  {
    && i in w.rows && w'.rows[i] == w.rows[i].(status := w'.rows[i].status)
    && (w'.rows[i] != w.rows[i] ==>
          && (w.rows[i].status == Queued || w.rows[i].status == Refunded)
          && (w'.rows[i].status == Queued || w'.rows[i].status == Fulfilled || w'.rows[i].status == Refunded))
  }

  lemma DecideMoves(w: World, w': World, c: CallId, row: Row)
    requires c in w.calls && w.calls[c].req.Close? && Decide(w, w', c, row)
    ensures w'.tickets == w.tickets && w'.born == w.born
    ensures forall i | i in w'.rows :: OrderMoves(w, w', i)
  {
  }

  lemma RequeueMoves(w: World, w': World, c: CallId)
    requires c in w.calls && w.calls[c].req.Close? && Requeue(w, w', c)
    ensures w'.tickets == w.tickets && w'.born == w.born
    ensures forall i | i in w'.rows :: OrderMoves(w, w', i)
  {
  }

  lemma OrdersKept(w: World, w': World, c: CallId)
    requires Right(w) && OneCallMoves(w, w', c) && CallRight(w', c) && w'.tickets == w.tickets && w'.born == w.born
    requires forall i | i in w'.rows :: OrderMoves(w, w', i)
    ensures Right(w')
  {
    CallsKept(w, w', c);
    forall i | i in w'.rows
      ensures RowRight(w', i)
    {
      assert OrderMoves(w, w', i) && RowRight(w, i);
    }
    forall t | t in w'.tickets
      ensures TicketRight(w', t)
    {
      assert TicketRight(w, t);
    }
  }

  lemma CloseKeeps(w: World, w': World, c: CallId)
    requires Right(w) && c in w.calls && w.calls[c].req.Close? && CloseStep(w, w', c)
    ensures Right(w')
  {
    CloseCalls(w, w', c);
    var pc := w.calls[c].pc;
    if pc.Seen? {
      DecideMoves(w, w', c, pc.row);
      OrdersKept(w, w', c);
    } else if pc.RefundFailed? {
      RequeueMoves(w, w', c);
      OrdersKept(w, w', c);
    } else {
      QuietClosing(w, w', c);
      QuietKeeps(w, w', c);
    }
  }

  lemma OtherKeeps(w: World, w': World, c: CallId, a: Action)
    requires Right(w) && StepBy(w, w', c, a) && !a.Proceed?
    ensures Right(w')
  {
    if a.Fail? || a.Crash? {
      assert CallRight(w, c);
      QuietKeeps(w, w', c);
    } else {
      forall d | d in w'.calls
        ensures CallRight(w', d)
      {
        assert d in w.calls ==> CallRight(w, d);
      }
      forall i | i in w'.rows
        ensures RowRight(w', i)
      {
        assert RowRight(w, i);
      }
      forall t | t in w'.tickets
        ensures TicketRight(w', t)
      {
        assert TicketRight(w, t);
      }
    }
  }

  lemma StepKeepsRight(w: World, w': World, c: CallId, a: Action)
    requires Inv(w) && Right(w) && StepBy(w, w', c, a)
    ensures Right(w')
  {
    if !a.Proceed? {
      OtherKeeps(w, w', c, a);
    } else if w.calls[c].req.Buy? {
      BuyKeeps(w, w', c, a.now, a.newId);
    } else {
      CloseKeeps(w, w', c);
    }
  }

  lemma {:induction false} RunRight(run: seq<World>, n: nat)
    requires Run(run) && n < |run|
    ensures Right(run[n])
  {
    if n == 0 {
    } else {
      RunRight(run, n - 1);
      RunInv(run, n - 1);
      assert NextAt(run, n - 1);
      var c, a :| StepBy(run[n - 1], run[n], c, a);
      StepKeepsRight(run[n - 1], run[n], c, a);
    }
  }

  // ------------------------------------------------------------------- theorem

  /**
   * In every state of every run: what went through is applied, with no ticket, exactly if it is priority support, and
   * otherwise has its one ticket, which is the buyer's; and no period is an extension unless its buyer agreed to one.
   */
  lemma DeliveredAsBought(run: seq<World>, n: nat, id: RowId)
    requires Run(run) && n < |run| && id in run[n].rows && run[n].rows[id].status != Pending
    ensures var w, row := run[n], run[n].rows[id];
            && (row.status == Applied <==> row.addon == PrioritySupport)
            && (row.ticket.None? <==> row.addon == PrioritySupport)
            && (forall t: nat | t < |w.tickets| ::
                  w.tickets[t].purchase == id ==> w.tickets[t].user == row.user && row.ticket == Some(t))
            && (row.ticket.Some? ==> row.ticket.value < |w.tickets| && w.tickets[row.ticket.value].purchase == id)
            && (row.extension ==>
                  && row.addon == PrioritySupport && id in w.born && w.born[id].call in w.calls
                  && w.calls[w.born[id].call].req.Buy? && w.calls[w.born[id].call].req.extend)
  {
    RunInv(run, n);
    RunRight(run, n);
    var w := run[n];
    assert RowInv(w, id) && RowRight(w, id);
    forall t: nat | t < |w.tickets| && w.tickets[t].purchase == id
      ensures w.tickets[t].user == w.rows[id].user && w.rows[id].ticket == Some(t)
    {
      assert TicketRight(w, w.tickets[t]);
      assert t in OpenedFor(w.tickets, id);
    }
  }
}
