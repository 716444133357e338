/** What the purchase protocol guarantees in every state of every run. */
module ProtocolTheorems {
  import opened Options
  import opened Ledger
  import opened Protocol
  import opened ProtocolInvariant
  import opened ProtocolSteps
  import opened ProtocolMoney
  import Keys
  import Text

  // ------------------------------------------------------------- one decision, one purchase

  /** The ledger charges purchase key `key` by entry `e`, and no equal refund matches it. */
  ghost predicate UnmatchedCharge(entries: seq<Entry>, key: string, id: RowId, e: Entry) {
    && Keys.RowIdShape(id) && e in entries && e.key == Some(Keys.ChargeKey(Some(key), id))
    && forall r | r in entries ::
         !(r.key == Some(Keys.RefundKey(Some(key), id)) && r.user == e.user && r.amount == -e.amount)
  }

  /** A ledger charge under a purchase key belongs to a row created under that key. */
  lemma ChargeHasRow(w: World, key: string, id: RowId, e: Entry)
    requires Inv(w) && Keys.IsPurchaseKey(key) && Keys.RowIdShape(id)
    requires e in w.books.entries && e.key == Some(Keys.ChargeKey(Some(key), id))
    ensures id in w.born && w.born[id].key == key && e.user == w.born[id].user && e.amount == 0 - w.born[id].amount
  {
    Keys.LedgerKeysAreAddonKeys(key, id);
    var j :| j in w.born && EntryOf(e, j, w.born[j]);
    assert RowInv(w, j);
    Keys.LedgerKeysApart(Some(key), id, Some(w.born[j].key), j);
    Text.LastColon(key, id, w.born[j].key, j);
  }

  lemma RefundHasRow(w: World, id: RowId, r: Entry)
    requires Inv(w) && id in w.born && r in w.books.entries && r.key == Some(RefundKeyOf(w.born[id], id))
    ensures r.user == w.born[id].user && r.amount == w.born[id].amount
  {
    assert RowInv(w, id);
    var b := w.born[id];
    Keys.LedgerKeysAreAddonKeys(b.key, id);
    var j :| j in w.born && EntryOf(r, j, w.born[j]);
    assert RowInv(w, j);
    Keys.LedgerKeysApart(Some(b.key), id, Some(w.born[j].key), j);
    Keys.LedgerKeysApart(Some(w.born[j].key), j, Some(b.key), id);
  }

  lemma UnmatchedIsOnTheBooks(w: World, key: string, id: RowId, e: Entry)
    requires Inv(w) && Keys.IsPurchaseKey(key) && UnmatchedCharge(w.books.entries, key, id, e)
    ensures id in w.rows && w.rows[id].key == key
  {
    ChargeHasRow(w, key, id, e);
    assert HasKey(w.books.entries, ChargeKeyOf(w.born[id], id));
    if HasKey(w.books.entries, RefundKeyOf(w.born[id], id)) {
      var r := Find(w.books.entries, RefundKeyOf(w.born[id], id)).value;
      RefundHasRow(w, id, r);
    }
    assert RowInv(w, id);
  }

  lemma TicketHasRow(w: World, t: nat)
    requires Inv(w) && t < |w.tickets|
    ensures var id := w.tickets[t].purchase;
            && id in w.rows && id in w.born && w.rows[id].key == w.born[id].key
            && OpenedFor(w.tickets, id) == {t}
  {
    var id := w.tickets[t].purchase;
    assert w.tickets[t] in w.tickets;
    assert RowInv(w, id);
    assert t in OpenedFor(w.tickets, id);
  }

  /**
   * However purchases sharing a key interleave and wherever they stop, under one key there is at most one
   * row, at most one ticket, at most one charge without its refund, and at most one call ever buys.
   */
  lemma OneDecision(run: seq<World>, n: nat, key: string)
    requires Run(run) && n < |run| && Keys.IsPurchaseKey(key)
    ensures forall i, j | Holds(run[n].rows, key, i) && Holds(run[n].rows, key, j) :: i == j
    ensures forall s, t | OpenedUnder(run[n], key, s) && OpenedUnder(run[n], key, t) :: s == t
    ensures forall i, e, j, f |
              && UnmatchedCharge(run[n].books.entries, key, i, e)
              && UnmatchedCharge(run[n].books.entries, key, j, f) :: e == f
    ensures forall c, d | HasBought(run[n], key, c) && HasBought(run[n], key, d) :: c == d
  {
    var w := run[n];
    RunInv(run, n);
    forall s, t | OpenedUnder(w, key, s) && OpenedUnder(w, key, t)
      ensures s == t
    {
      TicketHasRow(w, s);
      TicketHasRow(w, t);
    }
    forall i, e, j, f | UnmatchedCharge(w.books.entries, key, i, e) && UnmatchedCharge(w.books.entries, key, j, f)
      ensures e == f
    {
      UnmatchedIsOnTheBooks(w, key, i, e);
      UnmatchedIsOnTheBooks(w, key, j, f);
    }
    forall c, d | HasBought(w, key, c) && HasBought(w, key, d)
      ensures c == d
    {
      BuyerOf(w, c, w.calls[c].pc.result.id);
      BuyerOf(w, d, w.calls[d].pc.result.id);
    }
  }

  ghost predicate OpenedUnder(w: World, key: string, t: nat) {
    t < |w.tickets| && w.tickets[t].purchase in w.born && w.born[w.tickets[t].purchase].key == key
  }

  ghost predicate HasBought(w: World, key: string, c: CallId) {
    c in w.calls && w.calls[c].req.Buy? && w.calls[c].req.key == key
    && w.calls[c].pc.Finished? && w.calls[c].pc.result.Bought?
  }

  /** A call that claimed no row has created none, now or before. */
  lemma RowlessCreatesNothing(w: World, c: CallId)
    requires Inv(w) && c in w.calls && RowOf(w.calls[c].pc).None?
    ensures forall id | id in w.born :: w.born[id].call != c
  {
    forall id | id in w.born
      ensures w.born[id].call != c
    {
      assert RowInv(w, id);
    }
  }

  /** The row is there as requested, and its price, if it has one, was charged to the buyer. */
  ghost predicate PaidInFull(w: World, r: CallRequest, id: RowId)
    requires r.Buy?
  {
    && id in w.rows && w.rows[id].user == r.user && w.rows[id].amount == r.Amount() && w.rows[id].key == r.key
    && var charge := Find(w.books.entries, Keys.ChargeKey(Some(r.key), id));
    && (charge.Some? <==> r.Amount() > 0)
    && (charge.Some? ==> charge.value.user == r.user && charge.value.amount == 0 - r.Amount())
  }

  /** No row, no ticket, no money held. */
  ghost predicate NothingLeft(w: World, r: CallRequest, id: RowId)
    requires r.Buy?
  {
    && id !in w.rows && id in w.born && w.born[id].user == r.user && OpenedFor(w.tickets, id) == {}
    && Held(w.books.entries, w.born[id], id, r.user) == 0
  }

  lemma BoughtIsPaid(w: World, c: CallId, id: RowId)
    requires Inv(w) && c in w.calls && w.calls[c].req.Buy? && w.calls[c].pc == Finished(Bought(id))
    ensures PaidInFull(w, w.calls[c].req, id)
  {
    assert CallInv(w, c);
    BuyerOf(w, c, id);
    var charge := Find(w.books.entries, Keys.ChargeKey(Some(w.calls[c].req.key), id));
    if charge.Some? {
      ChargeHasRow(w, w.calls[c].req.key, id, charge.value);
    }
  }

  lemma ReleasedIsGone(w: World, c: CallId, id: RowId)
    requires Inv(w) && c in w.calls && w.calls[c].req.Buy? && w.calls[c].pc == Finished(Released(id))
    ensures NothingLeft(w, w.calls[c].req, id)
  {
    assert CallInv(w, c);
    BuyerOf(w, c, id);
  }

  /** The purchase is there and no longer under way. */
  predicate WentThrough(w: World, id: RowId) {
    id in w.rows && w.rows[id].status != Pending
  }

  lemma WentThroughIff(w: World, id: RowId)
    requires Inv(w) && id in w.born
    ensures w.born[id].call in w.calls
    ensures WentThrough(w, id) <==> Live(w.calls[w.born[id].call].pc) == Finished(Bought(id))
  {
    assert RowInv(w, id);
  }

  /**
   * What a purchase call's answer says is so: the row it names, paid for in full; or nothing left of it; or no row, so
   * no charge, of its own, and one created under its key, which went through exactly if the call that created it
   * bought; or, for an error before the claim, no row ever created by this call.
   */
  lemma AnswersAreTrue(run: seq<World>, n: nat, c: CallId)
    requires Run(run) && n < |run| && c in run[n].calls && run[n].calls[c].req.Buy? && run[n].calls[c].pc.Finished?
    ensures var w, r := run[n], run[n].calls[c].req;
            match w.calls[c].pc.result
            case Bought(id) => PaidInFull(w, r, id)
            case Released(id) => NothingLeft(w, r, id)
            case Repeated(id) =>
              && (forall i | i in w.born :: w.born[i].call != c)
              && id in w.born && w.born[id].key == r.key && w.born[id].call in w.calls
              && (WentThrough(w, id) <==> Live(w.calls[w.born[id].call].pc) == Finished(Bought(id)))
            case Closed => false
            case Failed => forall id | id in w.born :: w.born[id].call != c
  {
    RunInv(run, n);
    var w := run[n];
    assert CallInv(w, c);
    match w.calls[c].pc.result
    case Bought(id) => BoughtIsPaid(w, c, id);
    case Released(id) => ReleasedIsGone(w, c, id);
    case Failed => RowlessCreatesNothing(w, c);
    case Repeated(id) =>
      RowlessCreatesNothing(w, c);
      WentThroughIff(w, id);
    case _ =>
  }

  // ------------------------------------------------------------------- closing an order

  ghost predicate HasClosed(w: World, c: CallId, id: RowId) {
    c in w.calls && w.calls[c].req.Close? && w.calls[c].req.id == id && w.calls[c].pc == Finished(Closed)
  }

  /** Call `c` has won the order and not yet given up or finished. */
  ghost predicate Deciding(w: World, c: CallId, id: RowId) {
    c in w.calls && w.calls[c].req.Close? && w.calls[c].req.id == id
    && (w.calls[c].pc.Decided? || w.calls[c].pc.RefundFailed?)
  }

  /** An order has one decider at most, whether it is still deciding or done. */
  lemma OneDecider(run: seq<World>, n: nat, id: RowId, c: CallId, d: CallId)
    requires Run(run) && n < |run|
    requires HasClosed(run[n], c, id) || Deciding(run[n], c, id)
    requires HasClosed(run[n], d, id) || Deciding(run[n], d, id)
    ensures c == d
  {
    RunInv(run, n);
    assert CallInv(run[n], c) && CallInv(run[n], d);
  }

  /**
   * A closed order is either fulfilled with its charge kept, or refunded with exactly the charged amount
   * returned to the buyer; never both.
   */
  lemma ClosedOutcome(run: seq<World>, n: nat, c: CallId, id: RowId)
    requires Run(run) && n < |run| && HasClosed(run[n], c, id)
    ensures var w := run[n];
            && id in w.rows && id in w.born
            && var row, entries := w.rows[id], w.books.entries;
            var charge := Find(entries, ChargeKeyOf(w.born[id], id));
            var refund := Find(entries, RefundKeyOf(w.born[id], id));
            && row.status == (if w.calls[c].req.refuse then Refunded else Fulfilled)
            && (row.amount > 0 <==> charge.Some?)
            && (charge.Some? ==> charge.value.user == row.user && charge.value.amount == 0 - row.amount)
            && (refund.Some? <==> row.status == Refunded && row.amount > 0)
            && (refund.Some? ==> refund.value.user == row.user && refund.value.amount == row.amount)
  {
    RunInv(run, n);
    var w := run[n];
    assert CallInv(w, c);
    assert RowInv(w, id);
    assert SettledRow(w, id);
    var b := w.born[id];
    if HasKey(w.books.entries, ChargeKeyOf(b, id)) {
      ChargeHasRow(w, b.key, id, Find(w.books.entries, ChargeKeyOf(b, id)).value);
    }
    if HasKey(w.books.entries, RefundKeyOf(b, id)) {
      RefundHasRow(w, id, Find(w.books.entries, RefundKeyOf(b, id)).value);
    }
  }

  /**
   * When nothing is in flight and nothing stopped half-way, an order shows a decision exactly if some closing
   * made it; with `OneDecider`, exactly one did.
   */
  lemma DecisionIffClosed(run: seq<World>, n: nat, id: RowId)
    requires Run(run) && n < |run| && Quiescent(run[n]) && id in run[n].rows
    ensures run[n].rows[id].status == Fulfilled || run[n].rows[id].status == Refunded <==>
            exists c :: HasClosed(run[n], c, id)
  {
    var w := run[n];
    RunInv(run, n);
    assert RowInv(w, id);
    if w.rows[id].status == Fulfilled || w.rows[id].status == Refunded {
      assert SettledRow(w, id);
      assert HasClosed(w, w.closer[id], id);
    }
    forall c | HasClosed(w, c, id)
      ensures w.rows[id].status == Fulfilled || w.rows[id].status == Refunded
    {
      assert CallInv(w, c);
      assert SettledRow(w, id);
    }
  }

  // ------------------------------------------------------ what a step cannot change

  ghost predicate SameRow(w: World, w': World, id: RowId) {
    id in w.rows ==> id in w'.rows && w'.rows[id] == w.rows[id]
  }

  lemma EarlyBuyFrame(w: World, w': World, d: CallId, now: Time, newId: RowId, id: RowId)
    requires d in w.calls && w.calls[d].req.Buy? && BuyStep(w, w', d, now, newId)
    requires id in w.rows ==> id in w.born
    requires var pc := w.calls[d].pc; pc.Asking? || pc.Duplicate? || pc.Claimed? || pc.Ready?
    ensures SameRow(w, w', id)
  {
  }

  lemma MiddleBuyFrame(w: World, w': World, d: CallId, now: Time, newId: RowId, id: RowId)
    requires d in w.calls && w.calls[d].req.Buy? && BuyStep(w, w', d, now, newId)
    requires var pc := w.calls[d].pc; pc.Paid? || pc.PeriodRead? || pc.Undelivered?
    ensures SameRow(w, w', id)
  {
  }

  lemma LateBuyFrame(w: World, w': World, d: CallId, now: Time, newId: RowId, id: RowId)
    requires d in w.calls && w.calls[d].req.Buy? && BuyStep(w, w', d, now, newId)
    requires var pc := w.calls[d].pc; pc.Rejected? || pc.Declined? || pc.Returned? || pc.Delivered?
    requires RowOf(w.calls[d].pc) != Some(id)
    ensures SameRow(w, w', id)
  {
  }

  /** A buying step changes no row but its own. */
  lemma BuyFrame(w: World, w': World, d: CallId, now: Time, newId: RowId, id: RowId)
    requires d in w.calls && w.calls[d].req.Buy? && BuyStep(w, w', d, now, newId)
    requires id in w.rows ==> id in w.born
    requires RowOf(w.calls[d].pc) != Some(id)
    ensures SameRow(w, w', id)
  {
    var pc := w.calls[d].pc;
    if pc.Asking? || pc.Duplicate? || pc.Claimed? || pc.Ready? {
      EarlyBuyFrame(w, w', d, now, newId, id);
    } else if pc.Paid? || pc.PeriodRead? || pc.Undelivered? {
      MiddleBuyFrame(w, w', d, now, newId, id);
    } else {
      LateBuyFrame(w, w', d, now, newId, id);
    }
  }

  /** A closing step changes a decided row only by requeueing its own order. */
  lemma CloseFrame(w: World, w': World, d: CallId, id: RowId)
    requires d in w.calls && w.calls[d].req.Close? && CloseStep(w, w', d)
    requires id in w.rows && w.rows[id].status in {Fulfilled, Refunded}
    requires w.calls[d].req.id == id ==> !w.calls[d].pc.RefundFailed?
    ensures id in w'.rows && w'.rows[id] == w.rows[id]
  {
  }

  lemma OtherActionFrame(w: World, w': World, d: CallId, a: Action)
    requires StepBy(w, w', d, a) && !a.Proceed?
    ensures w'.rows == w.rows
  {
  }

  lemma DeciderHasOrder(w: World, c: CallId, id: RowId)
    requires Closer(w, c, id) && Deciding(w, c, id)
    ensures id in w.born && id in w.rows && DecidedBy(w, c, id)
    ensures w.rows[id].status == Fulfilled || w.rows[id].status == Refunded
  {
  }

  lemma OrderBeingDecided(w: World, c: CallId, id: RowId)
    requires Inv(w) && Deciding(w, c, id)
    ensures id in w.born && id in w.rows && DecidedBy(w, c, id)
    ensures w.rows[id].status == Fulfilled || w.rows[id].status == Refunded
  {
    CloserOf(w, c);
    DeciderHasOrder(w, c, id);
  }

  lemma ClosersLeaveDecidedRow(w: World, w': World, d: CallId, c: CallId, id: RowId)
    requires Inv(w) && d in w.calls && w.calls[d].req.Close? && CloseStep(w, w', d)
    requires Deciding(w, c, id) && !(d == c && w.calls[c].pc.RefundFailed?)
    ensures SameRow(w, w', id)
  {
    OrderBeingDecided(w, c, id);
    assert CallInv(w, d);
    CloseFrame(w, w', d, id);
  }

  lemma BuyersLeaveDecidedRow(w: World, w': World, d: CallId, now: Time, newId: RowId, c: CallId, id: RowId)
    requires Inv(w) && d in w.calls && w.calls[d].req.Buy? && Running(w.calls[d].pc)
    requires BuyStep(w, w', d, now, newId) && Deciding(w, c, id)
    ensures SameRow(w, w', id)
  {
    OrderBeingDecided(w, c, id);
    BuyersLeavePurchase(w, w', d, now, newId, id);
  }

  /** No purchase under way touches one that went through. */
  lemma BuyersLeavePurchase(w: World, w': World, d: CallId, now: Time, newId: RowId, id: RowId)
    requires Inv(w) && d in w.calls && w.calls[d].req.Buy? && Running(w.calls[d].pc)
    requires BuyStep(w, w', d, now, newId) && WentThrough(w, id)
    ensures SameRow(w, w', id)
  {
    assert CallInv(w, d) && RowInv(w, id);
    BoughtRowHasIdleBuyer(w, d, id);
    BuyFrame(w, w', d, now, newId, id);
  }

  /** While a call is deciding an order nothing touches the order's row, except the decider's own requeueing. */
  lemma DecidedRowStands(w: World, w': World, d: CallId, a: Action, c: CallId, id: RowId)
    requires Inv(w) && StepBy(w, w', d, a)
    requires Deciding(w, c, id) && !(d == c && a.Proceed? && w.calls[c].pc.RefundFailed?)
    ensures id in w.rows && id in w'.rows && w'.rows[id] == w.rows[id]
  {
    OrderBeingDecided(w, c, id);
    if !a.Proceed? {
      OtherActionFrame(w, w', d, a);
    } else if w.calls[d].req.Close? {
      ClosersLeaveDecidedRow(w, w', d, c, id);
    } else {
      BuyersLeaveDecidedRow(w, w', d, a.now, a.newId, c, id);
    }
  }

  lemma BoughtRowHasIdleBuyer(w: World, d: CallId, id: RowId)
    requires d in w.calls && w.calls[d].req.Buy? && Running(w.calls[d].pc) && CallInv(w, d)
    requires id in w.born && RowInv(w, id) && id in w.rows && w.rows[id].status != Pending
    ensures RowOf(w.calls[d].pc) != Some(id)
  {
  }

  /** From its decision until its refund fails, the order's row does not change at all. */
  lemma {:induction false} DecidedRowHeld(run: seq<World>, i: nat, j: nat, c: CallId, id: RowId)
    requires Run(run) && i <= j < |run|
    requires forall k | i <= k <= j :: Deciding(run[k], c, id)
    ensures id in run[i].rows && id in run[j].rows && run[j].rows[id] == run[i].rows[id]
    decreases j - i
  {
    if i == j {
      RunInv(run, i);
      assert CallInv(run[i], c);
      CloserOf(run[i], c);
      assert SettledRow(run[i], id);
    } else {
      DecidedRowHeld(run, i, j - 1, c, id);
      RunInv(run, j - 1);
      assert NextAt(run, j - 1);
      var d, a :| StepBy(run[j - 1], run[j], d, a);
      assert Deciding(run[j - 1], c, id) && Deciding(run[j], c, id);
      StaysDeciding(run[j - 1], run[j], d, a, c, id);
      DecidedRowStands(run[j - 1], run[j], d, a, c, id);
    }
  }

  lemma StaysDeciding(w: World, w': World, d: CallId, a: Action, c: CallId, id: RowId)
    requires StepBy(w, w', d, a) && Deciding(w, c, id) && Deciding(w', c, id)
    ensures !(d == c && a.Proceed? && w.calls[c].pc.RefundFailed?)
  {
  }

  lemma DecisionTaken(w: World, w': World, c: CallId, id: RowId, row: Row)
    requires c in w.calls && w.calls[c].req.Close? && w.calls[c].req.id == id
    requires Decide(w, w', c, row) && Deciding(w', c, id)
    ensures id in w.rows && w.rows[id].status == Queued && w'.calls[c].req == w.calls[c].req
    ensures id in w'.rows &&
            w'.rows[id] == w.rows[id].(status := if w.calls[c].req.refuse then Refunded else Fulfilled)
  {
  }

  lemma Requeued(w: World, w': World, c: CallId, id: RowId)
    requires c in w.calls && w.calls[c].req.Close? && w.calls[c].req.id == id
    requires Requeue(w, w', c) && id in w.rows && w.rows[id].status == Refunded
    ensures id in w'.rows && w'.rows[id] == w.rows[id].(status := Queued) && w'.books == w.books
  {
  }

  /**
   * A failed refund reverts cleanly. If `c` decides order `id` at step `i`, is still deciding up to `j`, and then
   * requeues it, the row is again exactly what it was before the decision and no refund was paid; and as long as
   * `c` is deciding nobody else is (`OneDecider`).
   */
  lemma RefusalReverts(run: seq<World>, i: nat, j: nat, c: CallId, id: RowId)
    requires Run(run) && i < j && j + 1 < |run|
    requires c in run[i].calls && run[i].calls[c].req.Close? && run[i].calls[c].req.id == id && run[i].calls[c].pc.Seen?
    requires Decide(run[i], run[i + 1], c, run[i].calls[c].pc.row)
    requires forall k | i < k <= j :: Deciding(run[k], c, id)
    requires Deciding(run[j], c, id) && run[j].calls[c].pc.RefundFailed? && Requeue(run[j], run[j + 1], c)
    ensures id in run[i].rows && run[i].rows[id].status == Queued
    ensures id in run[j + 1].rows && run[j + 1].rows[id] == run[i].rows[id]
    ensures id in run[j].born && !HasKey(run[j + 1].books.entries, RefundKeyOf(run[j].born[id], id))
  {
    assert Deciding(run[i + 1], c, id);
    DecisionTaken(run[i], run[i + 1], c, id, run[i].calls[c].pc.row);
    DecidedRowHeld(run, i + 1, j, c, id);
    RunInv(run, j);
    RefundFailedOrder(run[j], c, id);
    Requeued(run[j], run[j + 1], c, id);
  }

  lemma RefundFailedOrder(w: World, c: CallId, id: RowId)
    requires Inv(w) && Deciding(w, c, id) && w.calls[c].pc.RefundFailed?
    ensures w.calls[c].req.refuse && id in w.born && id in w.rows && w.rows[id].status == Refunded
    ensures !HasKey(w.books.entries, RefundKeyOf(w.born[id], id))
  {
    assert CallInv(w, c);
    CloserOf(w, c);
    assert SettledRow(w, id);
  }

  // ------------------------------------------------------------- a repeated purchase

  lemma CloserKeepsPurchase(w: World, w': World, d: CallId, id: RowId)
    requires d in w.calls && w.calls[d].req.Close? && CloseStep(w, w', d) && WentThrough(w, id)
    ensures WentThrough(w', id)
  {
  }

  lemma PurchaseStays(w: World, w': World, d: CallId, a: Action, id: RowId)
    requires Inv(w) && StepBy(w, w', d, a) && WentThrough(w, id)
    ensures WentThrough(w', id)
  {
    if !a.Proceed? {
      OtherActionFrame(w, w', d, a);
    } else if w.calls[d].req.Close? {
      CloserKeepsPurchase(w, w', d, id);
    } else {
      BuyersLeavePurchase(w, w', d, a.now, a.newId, id);
    }
  }

  lemma {:induction false} PurchaseStands(run: seq<World>, i: nat, j: nat, id: RowId)
    requires Run(run) && i <= j < |run| && WentThrough(run[i], id)
    ensures WentThrough(run[j], id)
    decreases j - i
  {
    if i == j {
    } else {
      PurchaseStands(run, i, j - 1, id);
      RunInv(run, j - 1);
      assert NextAt(run, j - 1);
      var d, a :| StepBy(run[j - 1], run[j], d, a);
      PurchaseStays(run[j - 1], run[j], d, a, id);
    }
  }

  /**
   * What a purchase is told that finds its key taken, that it has been bought already, is so exactly if the row read is
   * not pending; it is then so for good.
   */
  lemma RepeatedAnswerIff(run: seq<World>, n: nat, c: CallId, id: RowId)
    requires Run(run) && n + 1 < |run| && c in run[n].calls && run[n].calls[c].req.Buy?
    requires run[n].calls[c].pc.Duplicate? && ReadDuplicate(run[n], run[n + 1], c)
    requires run[n + 1].calls[c].pc == Finished(Repeated(id))
    ensures var w := run[n];
            && Holds(w.rows, w.calls[c].req.key, id) && id in w.born && w.born[id].call in w.calls
            && (Live(w.calls[w.born[id].call].pc) == Finished(Bought(id)) <==> w.rows[id].status != Pending)
            && (w.rows[id].status != Pending ==> forall m | n <= m < |run| :: WentThrough(run[m], id))
  {
    RunInv(run, n);
    RowsAreBorn(run[n]);
    WentThroughIff(run[n], id);
    if run[n].rows[id].status != Pending {
      forall m | n <= m < |run|
        ensures WentThrough(run[m], id)
      {
        PurchaseStands(run, n, m, id);
      }
    }
  }

  // ------------------------------------------------------------- exactly one decides

  /** A row that is, or was, in the queue. */
  ghost predicate InQueue(w: World, id: RowId) {
    id in w.rows && w.rows[id].status in {Queued, Fulfilled, Refunded}
  }

  /** Call `c` has seen its order queued, and has not tried to decide it. */
  ghost predicate Sees(w: World, c: CallId) {
    c in w.calls && w.calls[c].req.Close? && Live(w.calls[c].pc).Seen?
  }

  ghost predicate SeenOrdersStand(w: World) {
    forall c {:trigger Sees(w, c)} | Sees(w, c) :: InQueue(w, w.calls[c].req.id)
  }

  lemma CloserKeepsOrder(w: World, w': World, d: CallId, id: RowId)
    requires d in w.calls && w.calls[d].req.Close? && CloseStep(w, w', d) && InQueue(w, id)
    ensures InQueue(w', id)
  {
  }

  lemma OrderStaysOrder(w: World, w': World, d: CallId, a: Action, id: RowId)
    requires Inv(w) && StepBy(w, w', d, a) && InQueue(w, id)
    ensures InQueue(w', id)
  {
    if !a.Proceed? {
      OtherActionFrame(w, w', d, a);
    } else if w.calls[d].req.Close? {
      CloserKeepsOrder(w, w', d, id);
    } else {
      BuyersLeavePurchase(w, w', d, a.now, a.newId, id);
    }
  }

  /** Only call `d` has moved, and it serves the request it served. */
  ghost predicate OneCallMoves(w: World, w': World, d: CallId) {
    && d in w.calls && d in w'.calls
    && w'.calls == w.calls[d := w.calls[d].(pc := w'.calls[d].pc)]
  }

  lemma EarlyBuyCalls(w: World, w': World, d: CallId, now: Time, newId: RowId)
    requires d in w.calls && w.calls[d].req.Buy? && BuyStep(w, w', d, now, newId)
    requires var pc := w.calls[d].pc; pc.Asking? || pc.Duplicate? || pc.Claimed? || pc.Ready?
    ensures OneCallMoves(w, w', d) && w'.closer == w.closer
  {
  }

  lemma MiddleBuyCalls(w: World, w': World, d: CallId, now: Time, newId: RowId)
    requires d in w.calls && w.calls[d].req.Buy? && BuyStep(w, w', d, now, newId)
    requires var pc := w.calls[d].pc; pc.Paid? || pc.PeriodRead? || pc.Undelivered?
    ensures OneCallMoves(w, w', d) && w'.closer == w.closer
  {
  }

  lemma LateBuyCalls(w: World, w': World, d: CallId, now: Time, newId: RowId)
    requires d in w.calls && w.calls[d].req.Buy? && BuyStep(w, w', d, now, newId)
    requires var pc := w.calls[d].pc; pc.Rejected? || pc.Declined? || pc.Returned? || pc.Delivered?
    ensures OneCallMoves(w, w', d) && w'.closer == w.closer
  {
  }

  lemma BuyCalls(w: World, w': World, d: CallId, now: Time, newId: RowId)
    requires d in w.calls && w.calls[d].req.Buy? && BuyStep(w, w', d, now, newId)
    ensures OneCallMoves(w, w', d) && w'.closer == w.closer
  {
    var pc := w.calls[d].pc;
    if pc.Asking? || pc.Duplicate? || pc.Claimed? || pc.Ready? {
      EarlyBuyCalls(w, w', d, now, newId);
    } else if pc.Paid? || pc.PeriodRead? || pc.Undelivered? {
      MiddleBuyCalls(w, w', d, now, newId);
    } else {
      LateBuyCalls(w, w', d, now, newId);
    }
  }

  lemma CloseCalls(w: World, w': World, d: CallId)
    requires d in w.calls && w.calls[d].req.Close? && CloseStep(w, w', d)
    ensures OneCallMoves(w, w', d)
  {
  }

  lemma SeeingFindsOrder(w: World, w': World, d: CallId)
    requires d in w.calls && w.calls[d].req.Close? && CloseStep(w, w', d) && d in w'.calls && Live(w'.calls[d].pc).Seen?
    ensures InQueue(w', w.calls[d].req.id)
  {
  }

  lemma CloserLeaves(w: World, w': World, d: CallId, id: RowId)
    requires d in w.calls && w.calls[d].req.Close? && CloseStep(w, w', d) && id in w.closer && id !in w'.closer
    ensures w.calls[d].req.id == id && w.calls[d].pc.RefundFailed?
  {
  }

  /** What a step can do to the calls: add one, or move one that exists. */
  lemma StepCalls(w: World, w': World, d: CallId, a: Action)
    requires StepBy(w, w', d, a)
    ensures !a.Submit? && !a.Other? ==> OneCallMoves(w, w', d)
    ensures a.Other? ==> w'.calls == w.calls
    ensures a.Submit? ==> d !in w.calls && w'.calls == w.calls[d := Call(a.req, if a.req.Buy? then Asking else Opening)]
    ensures !a.Proceed? ==> w'.closer == w.closer
    ensures a.Fail? || a.Crash? ==> Live(w'.calls[d].pc).Seen? ==> Live(w.calls[d].pc).Seen?
  {
    if a.Proceed? {
      if w.calls[d].req.Buy? {
        BuyCalls(w, w', d, a.now, a.newId);
      } else {
        CloseCalls(w, w', d);
      }
    }
  }

  /** A call that newly sees its order has just found it queued. */
  lemma NewlySeen(w: World, w': World, d: CallId, a: Action, c: CallId)
    requires StepBy(w, w', d, a) && Sees(w', c) && !Sees(w, c)
    ensures InQueue(w', w'.calls[c].req.id)
  {
    StepCalls(w, w', d, a);
    assert c == d && a.Proceed?;
    CloseCalls(w, w', d);
    SeeingFindsOrder(w, w', d);
  }

  lemma SeenOrderStands(w: World, w': World, d: CallId, a: Action, c: CallId)
    requires Inv(w) && StepBy(w, w', d, a) && Sees(w, c) && InQueue(w, w.calls[c].req.id) && Sees(w', c)
    ensures InQueue(w', w'.calls[c].req.id)
  {
    StepCalls(w, w', d, a);
    OrderStaysOrder(w, w', d, a, w.calls[c].req.id);
  }

  lemma SeenOrdersKept(w: World, w': World, d: CallId, a: Action)
    requires Inv(w) && StepBy(w, w', d, a) && SeenOrdersStand(w)
    ensures SeenOrdersStand(w')
  {
    forall c | Sees(w', c)
      ensures InQueue(w', w'.calls[c].req.id)
    {
      if Sees(w, c) {
        SeenOrderStands(w, w', d, a, c);
      } else {
        NewlySeen(w, w', d, a, c);
      }
    }
  }

  lemma {:induction false} RunSeenOrders(run: seq<World>, i: nat)
    requires Run(run) && i < |run|
    ensures SeenOrdersStand(run[i])
  {
    if i == 0 {
    } else {
      RunSeenOrders(run, i - 1);
      RunInv(run, i - 1);
      assert NextAt(run, i - 1);
      var d, a :| StepBy(run[i - 1], run[i], d, a);
      SeenOrdersKept(run[i - 1], run[i], d, a);
    }
  }

  /**
   * A closing that reaches its conditional update is turned away exactly if another closing has already decided the
   * order; then it changes nothing, and the order is the other's.
   */
  lemma TurnedAwayIff(run: seq<World>, n: nat, c: CallId, row: Row)
    requires Run(run) && n + 1 < |run|
    requires c in run[n].calls && run[n].calls[c].req.Close? && run[n].calls[c].pc == Seen(row)
    requires Decide(run[n], run[n + 1], c, row)
    ensures var w, w', id := run[n], run[n + 1], run[n].calls[c].req.id;
            && (w'.calls[c].pc == Finished(Failed) <==> id in w.closer)
            && (w'.calls[c].pc == Decided(row) <==> id !in w.closer)
            && (id in w.closer ==>
                  && w'.rows == w.rows && w'.closer == w.closer
                  && w.closer[id] != c && id in w.rows && ClosedBy(w, id, w.rows[id].status == Refunded))
  {
    var w, id := run[n], run[n].calls[c].req.id;
    RunInv(run, n);
    RunSeenOrders(run, n);
    assert Sees(w, c) && InQueue(w, id);
    assert RowInv(w, id);
    assert SettledRow(w, id);
  }

  /** No refund of the order fails. */
  ghost predicate NoRefundFails(w: World, id: RowId) {
    forall c | c in w.calls && w.calls[c].req.Close? && w.calls[c].req.id == id :: !w.calls[c].pc.RefundFailed?
  }

  lemma DeciderStays(w: World, w': World, d: CallId, a: Action, id: RowId)
    requires StepBy(w, w', d, a) && id in w.closer && NoRefundFails(w, id)
    ensures id in w'.closer
  {
    StepCalls(w, w', d, a);
    if a.Proceed? {
      if w.calls[d].req.Buy? {
        BuyCalls(w, w', d, a.now, a.newId);
      } else if id !in w'.closer {
        CloserLeaves(w, w', d, id);
      }
    }
  }

  lemma DeciderStaysNext(run: seq<World>, k: nat, id: RowId)
    requires Run(run) && k + 1 < |run| && id in run[k].closer && NoRefundFails(run[k], id)
    ensures id in run[k + 1].closer
  {
    assert NextAt(run, k);
    var d, a :| StepBy(run[k], run[k + 1], d, a);
    DeciderStays(run[k], run[k + 1], d, a, id);
  }

  lemma {:induction false} StaysDecided(run: seq<World>, i: nat, j: nat, id: RowId)
    requires i <= j < |run| && id in run[i].closer
    requires forall k | i <= k < j && id in run[k].closer :: id in run[k + 1].closer
    ensures id in run[j].closer
    decreases j - i
  {
    if i == j {
    } else {
      StaysDecided(run, i, j - 1, id);
    }
  }

  lemma DeciderStaysOver(run: seq<World>, i: nat, j: nat, id: RowId)
    requires Run(run) && i <= j < |run| && id in run[i].closer
    requires forall k | i <= k < j :: NoRefundFails(run[k], id)
    ensures id in run[j].closer
  {
    forall k | i <= k < j && id in run[k].closer
      ensures id in run[k + 1].closer
    {
      DeciderStaysNext(run, k, id);
    }
    StaysDecided(run, i, j, id);
  }

  /**
   * Of all closings of an order exactly one decides it: once any of them has tried, and unless a refund fails, there
   * is one that closed it when everything has come to rest, and only one.
   */
  lemma ExactlyOneDecides(run: seq<World>, m: nat, n: nat, c: CallId, row: Row)
    requires Run(run) && m < n < |run| && Quiescent(run[n])
    requires c in run[m].calls && run[m].calls[c].req.Close? && run[m].calls[c].pc == Seen(row)
    requires Decide(run[m], run[m + 1], c, row)
    requires forall k | m < k < n :: NoRefundFails(run[k], run[m].calls[c].req.id)
    ensures var id := run[m].calls[c].req.id;
            exists d :: HasClosed(run[n], d, id) && forall e | HasClosed(run[n], e, id) :: e == d
  {
    var id := run[m].calls[c].req.id;
    TurnedAwayIff(run, m, c, row);
    DeciderStaysOver(run, m + 1, n, id);
    RunInv(run, n);
    RestingDecision(run[n], id);
  }

  lemma RestingDecision(w: World, id: RowId)
    requires Inv(w) && Quiescent(w) && id in w.closer
    ensures HasClosed(w, w.closer[id], id)
    ensures forall e | HasClosed(w, e, id) :: e == w.closer[id]
  {
    assert RowInv(w, id);
    forall e | HasClosed(w, e, id)
      ensures e == w.closer[id]
    {
      ClosedMeansCloser(w, e, id);
    }
  }

  lemma ClosedMeansCloser(w: World, e: CallId, id: RowId)
    requires Inv(w) && HasClosed(w, e, id)
    ensures DecidedBy(w, e, id)
  {
    assert CallInv(w, e);
  }

  // ------------------------------------------------------------ one ledger key, one call

  /** The request that a call is to post to the ledger next, or was when it stopped. */
  function Owed(w: World, c: CallId): Option<Request>
    requires c in w.calls
  {
    var Call(r, pc) := w.calls[c];
    if r.Buy? then
      match Live(pc)
      case Ready(id, _) => if r.free then None else Some(Charge(r.user, r.Amount(), r.key, id))
      case Undelivered(id) => if r.free then None else Some(Refund(r.user, r.Amount(), r.key, id))
      case _ => None
    else
      match Live(pc)
      case Decided(row) =>
        if r.refuse && row.amount > 0 then Some(Refund(row.user, row.amount, row.key, r.id)) else None
      case _ => None
  }

  lemma BuyerOwes(w: World, c: CallId)
    requires Inv(w) && c in w.calls && w.calls[c].req.Buy? && Owed(w, c).Some?
    ensures var key, id := Owed(w, c).value.key, RowOf(w.calls[c].pc);
            && id.Some? && id.value in w.born && w.born[id.value].call == c && Owned(w, id.value)
            && key.Some? && !HasKey(w.books.entries, key.value)
            && key.value == if Live(w.calls[c].pc).Ready? then ChargeKeyOf(w.born[id.value], id.value)
                            else RefundKeyOf(w.born[id.value], id.value)
  {
    assert CallInv(w, c);
    BuyerOf(w, c, RowOf(w.calls[c].pc).value);
  }

  lemma CloserOwes(w: World, c: CallId)
    requires Inv(w) && c in w.calls && w.calls[c].req.Close? && Owed(w, c).Some?
    ensures var key, id := Owed(w, c).value.key, w.calls[c].req.id;
            && id in w.born && DecidedBy(w, c, id) && Owned(w, id) && SettledRow(w, id)
            && Live(w.calls[w.born[id].call].pc) == Finished(Bought(id))
            && key == Some(RefundKeyOf(w.born[id], id)) && !HasKey(w.books.entries, key.value)
  {
    assert CallInv(w, c);
    CloserOf(w, c);
    assert RowInv(w, w.calls[c].req.id);
  }

  /** No entry that a call is to post has its key in the ledger already, so the ledger never drops it as a repeat. */
  lemma OwedIsNew(run: seq<World>, n: nat, c: CallId)
    requires Run(run) && n < |run| && c in run[n].calls && Owed(run[n], c).Some?
    ensures var r, entries := Owed(run[n], c).value, run[n].books.entries;
            && r.key.Some? && !HasKey(entries, r.key.value)
            && !Post(run[n].books, r).1.Existing? && !Post(run[n].books, r).1.KeyTaken?
  {
    RunInv(run, n);
    if run[n].calls[c].req.Buy? {
      BuyerOwes(run[n], c);
    } else {
      CloserOwes(run[n], c);
    }
  }

  /** No two calls are to post under one ledger key. */
  lemma OwedKeysDiffer(run: seq<World>, n: nat, c: CallId, d: CallId)
    requires Run(run) && n < |run| && c != d && c in run[n].calls && d in run[n].calls
    requires Owed(run[n], c).Some? && Owed(run[n], d).Some?
    ensures Owed(run[n], c).value.key != Owed(run[n], d).value.key
  {
    RunInv(run, n);
    RowsOfOwedDiffer(run[n], c, d);
    var i, j := OwedRow(run[n], c), OwedRow(run[n], d);
    Keys.LedgerKeysApart(Some(run[n].born[i].key), i, Some(run[n].born[j].key), j);
    Keys.LedgerKeysApart(Some(run[n].born[j].key), j, Some(run[n].born[i].key), i);
  }

  function OwedRow(w: World, c: CallId): RowId
    requires c in w.calls
  {
    if w.calls[c].req.Close? then w.calls[c].req.id
    else if RowOf(w.calls[c].pc).Some? then RowOf(w.calls[c].pc).value else ""
  }

  lemma RowsOfOwedDiffer(w: World, c: CallId, d: CallId)
    requires Inv(w) && c != d && c in w.calls && d in w.calls && Owed(w, c).Some? && Owed(w, d).Some?
    ensures var i, j := OwedRow(w, c), OwedRow(w, d);
            && i != j && i in w.born && j in w.born && Owned(w, i) && Owned(w, j)
            && (|| Owed(w, c).value.key == Some(ChargeKeyOf(w.born[i], i))
                || Owed(w, c).value.key == Some(RefundKeyOf(w.born[i], i)))
            && (|| Owed(w, d).value.key == Some(ChargeKeyOf(w.born[j], j))
                || Owed(w, d).value.key == Some(RefundKeyOf(w.born[j], j)))
  {
    if w.calls[c].req.Buy? {
      BuyerOwes(w, c);
    } else {
      CloserOwes(w, c);
    }
    if w.calls[d].req.Buy? {
      BuyerOwes(w, d);
    } else {
      CloserOwes(w, d);
    }
  }
}
