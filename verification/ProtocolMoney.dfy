/** Conservation of money by the purchase protocol, in every state of every run. */
module ProtocolMoney {
  import opened Options
  import opened Ledger
  import opened Protocol
  import opened ProtocolInvariant
  import opened ProtocolSteps
  import Keys

  /** What the service holds of a user's money for one purchase: a charge not yet refunded. */
  function Held(entries: seq<Entry>, b: Birth, id: RowId, u: UserId): int {
    if b.user == u && HasKey(entries, ChargeKeyOf(b, id)) && !HasKey(entries, RefundKeyOf(b, id)) then b.amount else 0
  }

  function HeldTotal(entries: seq<Entry>, born: map<RowId, Birth>, order: seq<RowId>, u: UserId): int {
    if order == [] then 0
    else
      var id := order[|order| - 1];
      HeldTotal(entries, born, order[..|order| - 1], u) + (if id in born then Held(entries, born[id], id, u) else 0)
  }

  /** Every balance is what it would be without add-ons, less what is held for them. */
  ghost predicate Balanced(w: World) {
    && w.outside.Keys == w.books.accounts.Keys
    && forall u | u in w.books.accounts ::
      w.books.accounts[u].balance == w.outside[u] - HeldTotal(w.books.entries, w.born, w.order, u)
  }

  lemma {:induction false} HeldTotalSame(e1: seq<Entry>, b1: map<RowId, Birth>, e2: seq<Entry>, b2: map<RowId, Birth>,
                                         order: seq<RowId>, u: UserId)
    requires forall i | i in order :: i in b1 && i in b2 && Held(e1, b1[i], i, u) == Held(e2, b2[i], i, u)
    ensures HeldTotal(e1, b1, order, u) == HeldTotal(e2, b2, order, u)
  {
    if order == [] {
    } else {
      HeldTotalSame(e1, b1, e2, b2, order[..|order| - 1], u);
    }
  }

  /** If one purchase's held amount changes by `d`, so does the total. */
  lemma {:induction false} HeldTotalChange(e1: seq<Entry>, e2: seq<Entry>, born: map<RowId, Birth>, order: seq<RowId>,
                                           u: UserId, id: RowId, d: int)
    requires id in order && forall i, j | 0 <= i < j < |order| :: order[i] != order[j]
    requires forall i | i in order :: i in born
    requires forall i | i in order && i != id :: Held(e1, born[i], i, u) == Held(e2, born[i], i, u)
    requires Held(e2, born[id], id, u) == Held(e1, born[id], id, u) + d
    ensures HeldTotal(e2, born, order, u) == HeldTotal(e1, born, order, u) + d
  {
    var front, last := order[..|order| - 1], order[|order| - 1];
    if last == id {
      assert id !in front;
      HeldTotalSame(e1, born, e2, born, front, u);
    } else {
      HeldTotalChange(e1, e2, born, front, u, id, d);
    }
  }

  /** Steps that neither post nor create keep the balance sheet as it is. */
  ghost predicate BooksStand(w: World, w': World) {
    w'.books == w.books && w'.outside == w.outside && w'.born == w.born && w'.order == w.order
  }

  /** A step that posts an entry of row `id`. */
  ghost predicate BooksMove(w: World, w': World, id: RowId, e: Entry) {
    && id in w.born && EntryOf(e, id, w.born[id]) && e.user in w.books.accounts
    && w'.books.entries == w.books.entries + [e]
    && w'.books.accounts == w.books.accounts[e.user :=
         w.books.accounts[e.user].(balance := w.books.accounts[e.user].balance + e.amount)]
    && w'.outside == w.outside && w'.born == w.born && w'.order == w.order
    && !HasKey(w.books.entries, RefundKeyOf(w.born[id], id))
    && (HasKey(w.books.entries, ChargeKeyOf(w.born[id], id)) <==> e.key == Some(RefundKeyOf(w.born[id], id)))
  }

  lemma HeldMoves(w: World, w': World, id: RowId, e: Entry, u: UserId)
    requires Inv(w) && BooksMove(w, w', id, e)
    ensures HeldTotal(w'.books.entries, w.born, w.order, u)
         == HeldTotal(w.books.entries, w.born, w.order, u) - (if u == e.user then e.amount else 0)
  {
    LedgerOfOwn(w, e, id);
    forall i | i in w.order && i != id
      ensures Held(w.books.entries, w.born[i], i, u) == Held(w'.books.entries, w.born[i], i, u)
    {
      LedgerOfOthers(w, e, id, i);
    }
    HeldTotalChange(w.books.entries, w'.books.entries, w.born, w.order, u, id, if u == e.user then -e.amount else 0);
  }

  lemma MoveKeepsBalanced(w: World, w': World, id: RowId, e: Entry)
    requires Inv(w) && Balanced(w) && BooksMove(w, w', id, e)
    ensures Balanced(w')
  {
    forall u | u in w'.books.accounts
      ensures w'.books.accounts[u].balance == w'.outside[u] - HeldTotal(w'.books.entries, w'.born, w'.order, u)
    {
      HeldMoves(w, w', id, e, u);
    }
  }

  lemma PostMoves(w: World, w': World, c: CallId, id: RowId, r: Request)
    requires OwnRequest(w, r, id) && !HasKey(w.books.entries, r.key.value)
    requires c in w.calls && c in w'.calls && Accepted(Post(w.books, r).1)
    requires w' == w.To(c, w'.calls[c].pc).(books := Post(w.books, r).0)
    requires !HasKey(w.books.entries, RefundKeyOf(w.born[id], id))
    requires HasKey(w.books.entries, ChargeKeyOf(w.born[id], id)) <==> r.key == Some(RefundKeyOf(w.born[id], id))
    ensures BooksMove(w, w', id, Post(w.books, r).1.entry)
  {
  }

  // -------------------------------------------------------- how each step moves money

  ghost predicate MoneyStep(w: World, w': World) {
    BooksStand(w, w') || exists id, e :: BooksMove(w, w', id, e)
  }

  lemma PaymentMoves(w: World, w': World, c: CallId, id: RowId, ext: bool)
    requires Buyer(w, c, id) && w.calls[c].pc == Ready(id, ext) && (w.born[id].amount > 0 <==> !w.calls[c].req.free)
    requires TakePayment(w, w', c, id, ext)
    ensures MoneyStep(w, w')
  {
    var q := w.calls[c].req;
    if !q.free {
      var r := Charge(q.user, q.Amount(), q.key, id);
      assert UnsettledRow(w, id, Live(w.calls[c].pc));
      Keys.LedgerKeysApart(Some(q.key), id, Some(q.key), id);
      if Accepted(Post(w.books, r).1) {
        PostMoves(w, w', c, id, r);
      }
    }
  }

  lemma PayBackMoves(w: World, w': World, c: CallId, id: RowId)
    requires Buyer(w, c, id) && w.calls[c].pc == Undelivered(id) && (w.born[id].amount > 0 <==> !w.calls[c].req.free)
    requires PayBack(w, w', c, id)
    ensures MoneyStep(w, w')
  {
    var q := w.calls[c].req;
    if !q.free {
      var r := Refund(q.user, q.Amount(), q.key, id);
      assert UnsettledRow(w, id, Live(w.calls[c].pc));
      if Accepted(Post(w.books, r).1) {
        PostMoves(w, w', c, id, r);
      }
    }
  }

  lemma RefusedOrder(w: World, c: CallId, id: RowId, row: Row)
    requires Closer(w, c, id) && w.calls[c].pc == Decided(row) && w.calls[c].req.refuse && row.amount > 0
    ensures id in w.born && Describes(w.born[id], row)
    ensures Money(w, id, true, false)
  {
  }

  lemma GiveBackMoves(w: World, w': World, c: CallId, id: RowId, row: Row)
    requires Closer(w, c, id) && w.calls[c].pc == Decided(row) && GiveBack(w, w', c, row)
    ensures MoneyStep(w, w')
  {
    if w.calls[c].req.refuse && row.amount > 0 {
      RefusedOrder(w, c, id, row);
      var r := Refund(row.user, row.amount, row.key, id);
      if Accepted(Post(w.books, r).1) {
        PostMoves(w, w', c, id, r);
      }
    }
  }

  lemma EarlyBuyStepKeepsBooks(w: World, w': World, c: CallId, now: Time, newId: RowId)
    requires c in w.calls && w.calls[c].req.Buy? && BuyStep(w, w', c, now, newId)
    requires var pc := w.calls[c].pc; pc.Duplicate? || pc.Claimed? || pc.Paid? || pc.PeriodRead?
    ensures BooksStand(w, w')
  {
  }

  lemma LateBuyStepKeepsBooks(w: World, w': World, c: CallId, now: Time, newId: RowId)
    requires c in w.calls && w.calls[c].req.Buy? && BuyStep(w, w', c, now, newId)
    requires var pc := w.calls[c].pc; pc.Rejected? || pc.Declined? || pc.Returned? || pc.Delivered?
    ensures BooksStand(w, w')
  {
  }

  lemma CloseStepKeepsBooks(w: World, w': World, c: CallId)
    requires c in w.calls && w.calls[c].req.Close? && CloseStep(w, w', c) && !w.calls[c].pc.Decided?
    ensures BooksStand(w, w')
  {
  }

  /** The steps of a call that do not use the ledger, other than creating a row. */
  lemma OtherStepsKeepBooks(w: World, w': World, c: CallId, a: Action)
    requires StepBy(w, w', c, a) && !a.Other?
    requires a.Proceed? ==> var pc := w.calls[c].pc; !pc.Asking? && !pc.Ready? && !pc.Undelivered? && !pc.Decided?
    ensures BooksStand(w, w')
  {
    if a.Proceed? {
      if w.calls[c].req.Buy? {
        var pc := w.calls[c].pc;
        if pc.Duplicate? || pc.Claimed? || pc.Paid? || pc.PeriodRead? {
          EarlyBuyStepKeepsBooks(w, w', c, a.now, a.newId);
        } else {
          LateBuyStepKeepsBooks(w, w', c, a.now, a.newId);
        }
      } else {
        CloseStepKeepsBooks(w, w', c);
      }
    }
  }

  lemma StepMoves(w: World, w': World, c: CallId, a: Action)
    requires Inv(w) && StepBy(w, w', c, a) && !a.Other? && (a.Proceed? ==> w.calls[c].pc != Asking)
    ensures MoneyStep(w, w')
  {
    if a.Proceed? && w.calls[c].pc.Ready? {
      assert CallInv(w, c);
      BuyerOf(w, c, w.calls[c].pc.id);
      PaymentMoves(w, w', c, w.calls[c].pc.id, w.calls[c].pc.ext);
    } else if a.Proceed? && w.calls[c].pc.Undelivered? {
      assert CallInv(w, c);
      BuyerOf(w, c, w.calls[c].pc.id);
      PayBackMoves(w, w', c, w.calls[c].pc.id);
    } else if a.Proceed? && w.calls[c].pc.Decided? {
      assert CallInv(w, c);
      CloserOf(w, c);
      GiveBackMoves(w, w', c, w.calls[c].req.id, w.calls[c].pc.row);
    } else {
      OtherStepsKeepBooks(w, w', c, a);
    }
  }

  lemma NewRowHoldsNothing(entries: seq<Entry>, born: map<RowId, Birth>, order: seq<RowId>,
                           newId: RowId, b: Birth, u: UserId)
    requires newId !in born && (forall i | i in order :: i in born) && !HasKey(entries, ChargeKeyOf(b, newId))
    ensures HeldTotal(entries, born[newId := b], order + [newId], u) == HeldTotal(entries, born, order, u)
  {
    assert (order + [newId])[..|order|] == order;
    HeldTotalSame(entries, born, entries, born[newId := b], order, u);
  }

  lemma ClaimKeepsBalanced(w: World, w': World, c: CallId, newId: RowId)
    requires Inv(w) && Balanced(w) && c in w.calls && w.calls[c].req.Buy? && Claim(w, w', c, newId)
    ensures Balanced(w')
  {
    if !InUse(w.rows, w.calls[c].req.key) {
      assert CallInv(w, c);
      NewRowIsClean(w, newId, w'.born[newId]);
      forall u | u in w'.books.accounts
        ensures w'.books.accounts[u].balance == w'.outside[u] - HeldTotal(w'.books.entries, w'.born, w'.order, u)
      {
        NewRowHoldsNothing(w.books.entries, w.born, w.order, newId, w'.born[newId], u);
      }
    }
  }

  lemma OtherEntryHoldsNothing(w: World, e: Entry, u: UserId)
    requires Inv(w) && (e.key.Some? ==> !Keys.IsAddonKey(e.key.value))
    ensures HeldTotal(w.books.entries + [e], w.born, w.order, u) == HeldTotal(w.books.entries, w.born, w.order, u)
  {
    forall i | i in w.order
      ensures Held(w.books.entries, w.born[i], i, u) == Held(w.books.entries + [e], w.born[i], i, u)
    {
      assert RowInv(w, i);
      Keys.LedgerKeysAreAddonKeys(w.born[i].key, i);
      FindAfterAppend(w.books.entries, e, ChargeKeyOf(w.born[i], i));
      FindAfterAppend(w.books.entries, e, RefundKeyOf(w.born[i], i));
    }
    HeldTotalSame(w.books.entries, w.born, w.books.entries + [e], w.born, w.order, u);
  }

  lemma OtherKeepsBalanced(w: World, w': World, r: Request)
    requires Inv(w) && Balanced(w) && (r.key.Some? ==> !Keys.IsAddonKey(r.key.value)) && PostOther(w, w', r)
    ensures Balanced(w')
  {
    var (books, o) := Post(w.books, r);
    if o.Posted? && r.user in w.outside {
      forall u | u in w'.books.accounts
        ensures HeldTotal(books.entries, w.born, w.order, u) == HeldTotal(w.books.entries, w.born, w.order, u)
      {
        OtherEntryHoldsNothing(w, o.entry, u);
      }
    }
  }

  lemma MoneyStepKeepsBalanced(w: World, w': World)
    requires Inv(w) && Balanced(w) && MoneyStep(w, w')
    ensures Balanced(w')
  {
    if !BooksStand(w, w') {
      var id, e :| BooksMove(w, w', id, e);
      MoveKeepsBalanced(w, w', id, e);
    }
  }

  lemma StepKeepsBalanced(w: World, w': World, c: CallId, a: Action)
    requires Inv(w) && Balanced(w) && StepBy(w, w', c, a)
    ensures Balanced(w')
  {
    if a.Other? {
      OtherKeepsBalanced(w, w', a.entry);
    } else if a.Proceed? && w.calls[c].pc == Asking {
      assert CallInv(w, c);
      ClaimKeepsBalanced(w, w', c, a.newId);
    } else {
      StepMoves(w, w', c, a);
      MoneyStepKeepsBalanced(w, w');
    }
  }

  lemma {:induction false} RunBalanced(run: seq<World>, i: nat)
    requires Run(run) && i < |run|
    ensures Inv(run[i]) && Balanced(run[i])
  {
    if i == 0 {
    } else {
      RunBalanced(run, i - 1);
      assert NextAt(run, i - 1);
      var c, a :| StepBy(run[i - 1], run[i], c, a);
      StepKeepsInv(run[i - 1], run[i], c, a);
      StepKeepsBalanced(run[i - 1], run[i], c, a);
    }
  }

  // ---------------------------------------------------------------- conservation

  /** What a user has paid, by the rows alone: the amounts of queued, applied and fulfilled purchases. */
  function Kept(rows: map<RowId, Row>, id: RowId, u: UserId): int {
    if id in rows && rows[id].user == u && rows[id].status in {Queued, Applied, Fulfilled} then rows[id].amount else 0
  }

  function KeptTotal(rows: map<RowId, Row>, order: seq<RowId>, u: UserId): int {
    if order == [] then 0
    else KeptTotal(rows, order[..|order| - 1], u) + Kept(rows, order[|order| - 1], u)
  }

  /** Nothing is in flight and nothing stopped half-way. */
  ghost predicate Quiescent(w: World) {
    forall c | c in w.calls :: w.calls[c].pc.Finished?
  }

  lemma HeldIsKept(w: World, id: RowId, u: UserId)
    requires Inv(w) && Quiescent(w) && id in w.born
    ensures Held(w.books.entries, w.born[id], id, u) == Kept(w.rows, id, u)
  {
    assert RowInv(w, id);
  }

  lemma {:induction false} HeldTotalIsKeptTotal(w: World, order: seq<RowId>, u: UserId)
    requires Inv(w) && Quiescent(w) && forall id | id in order :: id in w.born
    ensures HeldTotal(w.books.entries, w.born, order, u) == KeptTotal(w.rows, order, u)
  {
    if order == [] {
    } else {
      HeldTotalIsKeptTotal(w, order[..|order| - 1], u);
      HeldIsKept(w, order[|order| - 1], u);
    }
  }

  /**
   * Whenever no call is in flight and none stopped half-way, every balance is the balance without add-ons
   * minus the amounts of the user's queued, applied and fulfilled purchases: refused, failed and free ones
   * cost nothing.
   */
  lemma Conservation(run: seq<World>, i: nat, u: UserId)
    requires Run(run) && i < |run| && Quiescent(run[i]) && u in run[i].books.accounts
    ensures u in run[i].outside
    ensures run[i].books.accounts[u].balance == run[i].outside[u] - KeptTotal(run[i].rows, run[i].order, u)
  {
    RunBalanced(run, i);
    HeldTotalIsKeptTotal(run[i], run[i].order, u);
  }

  // ----------------------------------------------------- the balance without add-ons

  predicate IsAddonEntry(e: Entry) {
    e.key.Some? && Keys.IsAddonKey(e.key.value)
  }

  /** Sum of a user's entries that have nothing to do with add-ons. */
  function OtherSum(entries: seq<Entry>, u: UserId): int {
    if entries == [] then 0
    else
      var last := entries[|entries| - 1];
      OtherSum(entries[..|entries| - 1], u) + (if last.user == u && !IsAddonEntry(last) then last.amount else 0)
  }

  lemma OtherSumAfterAppend(entries: seq<Entry>, e: Entry, u: UserId)
    ensures OtherSum(entries + [e], u) ==
            OtherSum(entries, u) + (if e.user == u && !IsAddonEntry(e) then e.amount else 0)
  {
    assert (entries + [e])[..|entries|] == entries;
  }

  lemma {:induction false} OtherSumIsSum(entries: seq<Entry>, u: UserId)
    requires forall e | e in entries :: !IsAddonEntry(e)
    ensures OtherSum(entries, u) == Sum(entries, u)
  {
    if entries == [] {
    } else {
      OtherSumIsSum(entries[..|entries| - 1], u);
    }
  }

  /** What the auxiliary balance amounts to beyond the entries that have nothing to do with add-ons. */
  ghost predicate SameBeyondOthers(w: World, w': World, u: UserId) {
    && u in w.outside && u in w'.outside
    && w'.outside[u] - OtherSum(w'.books.entries, u) == w.outside[u] - OtherSum(w.books.entries, u)
  }

  lemma OtherEntryCounts(w: World, w': World, r: Request, u: UserId)
    requires (r.key.Some? ==> !Keys.IsAddonKey(r.key.value)) && PostOther(w, w', r)
    requires u in w.outside && w.outside.Keys == w.books.accounts.Keys
    ensures SameBeyondOthers(w, w', u)
  {
    var (books, o) := Post(w.books, r);
    if o.Posted? {
      OtherSumAfterAppend(w.books.entries, o.entry, u);
    }
  }

  lemma AddonEntryDoesNotCount(w: World, w': World, id: RowId, e: Entry, u: UserId)
    requires Inv(w) && BooksMove(w, w', id, e) && u in w.outside
    ensures SameBeyondOthers(w, w', u)
  {
    assert RowInv(w, id);
    Keys.LedgerKeysAreAddonKeys(w.born[id].key, id);
    OtherSumAfterAppend(w.books.entries, e, u);
  }

  lemma ClaimKeepsOutside(w: World, w': World, c: CallId, newId: RowId, u: UserId)
    requires c in w.calls && w.calls[c].req.Buy? && Claim(w, w', c, newId) && u in w.outside
    ensures SameBeyondOthers(w, w', u)
  {
  }

  lemma StepKeepsOutside(w: World, w': World, c: CallId, a: Action, u: UserId)
    requires Inv(w) && StepBy(w, w', c, a) && u in w.outside
    ensures SameBeyondOthers(w, w', u)
  {
    if a.Other? {
      OtherEntryCounts(w, w', a.entry, u);
    } else if a.Proceed? && w.calls[c].pc == Asking {
      assert CallInv(w, c);
      ClaimKeepsOutside(w, w', c, a.newId, u);
    } else {
      StepMoves(w, w', c, a);
      if !BooksStand(w, w') {
        var id, e :| BooksMove(w, w', id, e);
        AddonEntryDoesNotCount(w, w', id, e, u);
      }
    }
  }

  lemma NextKeepsOutside(run: seq<World>, i: nat, u: UserId)
    requires Run(run) && i + 1 < |run| && u in run[i].outside
    ensures SameBeyondOthers(run[i], run[i + 1], u)
  {
    RunBalanced(run, i);
    assert NextAt(run, i);
    var c, a :| StepBy(run[i], run[i + 1], c, a);
    StepKeepsOutside(run[i], run[i + 1], c, a, u);
  }

  lemma {:induction false} OutsideOver(run: seq<World>, i: nat, u: UserId)
    requires Run(run) && i < |run| && u in run[0].outside
    ensures SameBeyondOthers(run[0], run[i], u)
  {
    if i == 0 {
    } else {
      OutsideOver(run, i - 1, u);
      NextKeepsOutside(run, i - 1, u);
    }
  }

  /** The balance without add-ons is the opening balance plus the user's entries that have nothing to do with them. */
  lemma OutsideIs(opening: map<UserId, int>, run: seq<World>, i: nat, u: UserId)
    requires Run(run) && i < |run| && Sound(opening, run[0].books) && u in opening
    ensures u in run[i].outside && run[i].outside[u] == opening[u] + OtherSum(run[i].books.entries, u)
  {
    OutsideOver(run, i, u);
    OtherSumIsSum(run[0].books.entries, u);
  }

  /** So, at rest, every balance follows from the opening balance, the other entries, and the rows. */
  lemma BalanceFromOpening(opening: map<UserId, int>, run: seq<World>, i: nat, u: UserId)
    requires Run(run) && i < |run| && Quiescent(run[i]) && Sound(opening, run[0].books) && u in opening
    ensures u in run[i].books.accounts
    ensures run[i].books.accounts[u].balance
         == opening[u] + OtherSum(run[i].books.entries, u) - KeptTotal(run[i].rows, run[i].order, u)
  {
    OutsideIs(opening, run, i, u);
    RunBalanced(run, i);
    Conservation(run, i, u);
  }

  /** `order` lists every row there is, once, so the total above misses and repeats nothing. */
  lemma OrderListsRows(run: seq<World>, i: nat)
    requires Run(run) && i < |run|
    ensures forall id | id in run[i].rows :: id in run[i].order
    ensures forall j, k | 0 <= j < k < |run[i].order| :: run[i].order[j] != run[i].order[k]
  {
    RunBalanced(run, i);
  }

  /**
   * In any state at all, calls in flight or stopped anywhere, no more than its price is held for a purchase,
   * and money is held only for a purchase whose row is still there.
   */
  lemma HeldAlways(run: seq<World>, i: nat, u: UserId, id: RowId)
    requires Run(run) && i < |run| && u in run[i].books.accounts && id in run[i].born
    ensures u in run[i].outside
    ensures run[i].books.accounts[u].balance
         == run[i].outside[u] - HeldTotal(run[i].books.entries, run[i].born, run[i].order, u)
    ensures var h := Held(run[i].books.entries, run[i].born[id], id, u);
            h != 0 ==>
              && h == run[i].born[id].amount
              && id in run[i].rows && run[i].rows[id].amount == h && run[i].rows[id].user == u
  {
    RunBalanced(run, i);
    assert RowInv(run[i], id);
  }

  /** The books themselves stay sound throughout. */
  lemma {:induction false} BooksStaySound(opening: map<UserId, int>, run: seq<World>, i: nat)
    requires Run(run) && i < |run| && Sound(opening, run[0].books)
    ensures Sound(opening, run[i].books)
  {
    if i == 0 {
    } else {
      BooksStaySound(opening, run, i - 1);
      RunBalanced(run, i - 1);
      assert NextAt(run, i - 1);
      var c, a :| StepBy(run[i - 1], run[i], c, a);
      StepPosts(run[i - 1], run[i], c, a);
      if run[i].books != run[i - 1].books {
        var r :| run[i].books == Post(run[i - 1].books, r).0;
        PostKeepsSound(opening, run[i - 1].books, r);
      }
    }
  }

  /** The only way a step changes the books is by posting one request. */
  lemma StepPosts(w: World, w': World, c: CallId, a: Action)
    requires StepBy(w, w', c, a)
    ensures w'.books == w.books || exists r :: w'.books == Post(w.books, r).0
  {
    if a.Other? {
      assert w'.books == w.books || w'.books == Post(w.books, a.entry).0;
    } else if a.Proceed? && w.calls[c].req.Buy? && (w.calls[c].pc.Ready? || w.calls[c].pc.Undelivered?) {
    } else if a.Proceed? && w.calls[c].req.Close? && w.calls[c].pc.Decided? {
    } else if a.Proceed? && w.calls[c].pc.Asking? {
    } else {
      OtherStepsKeepBooks(w, w', c, a);
    }
  }
}
