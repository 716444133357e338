/** Every step of the purchase protocol keeps the invariant. */
module ProtocolSteps {
  import opened Options
  import opened Ledger
  import opened Protocol
  import opened ProtocolInvariant
  import Keys

  /** No other call loses, and `c` does not overwrite another's, decision on an order. */
  ghost predicate DecisionsKept(w: World, w': World, c: CallId) {
    forall i, d | d != c && DecidedBy(w, d, i) :: DecidedBy(w', d, i)
  }

  lemma Assemble(w: World, w': World, c: CallId, id: RowId)
    requires Inv(w) && TouchesOnly(w, w', c, id)
    requires c in w.calls ==>
               if w.calls[c].req.Buy? then (RowOf(w.calls[c].pc).Some? ==> RowOf(w.calls[c].pc) == Some(id))
               else w.calls[c].req.id == id
    requires id in w'.born ==> RowInv(w', id)
    requires id in w.born ==> id in w'.born && w'.born[id] == w.born[id]
    requires CallInv(w', c) && DecisionsKept(w, w', c)
    requires KeysUnique(w'.rows) && LedgerInv(w') && TablesInv(w')
    ensures Inv(w')
  {
    forall i | i in w'.born
      ensures RowInv(w', i)
    {
      if i != id {
        OtherRowsKept(w, w', c, id, i);
      }
    }
    forall d | d in w'.calls
      ensures CallInv(w', d)
    {
      if d != c {
        assert SameCall(w, w', d) && CallInv(w, d);
        OtherCallKept(w, w', c, d, id);
      }
    }
  }

  lemma OtherCallKept(w: World, w': World, c: CallId, d: CallId, id: RowId)
    requires TouchesOnly(w, w', c, id) && d != c && d in w.calls && CallInv(w, d) && SameCall(w, w', d)
    requires id in w.born ==> id in w'.born && w'.born[id] == w.born[id]
    requires DecisionsKept(w, w', c)
    ensures CallInv(w', d)
  {
    assert forall i | i in w.born :: i in w'.born && w'.born[i] == w.born[i] by {
      forall i | i in w.born
        ensures i in w'.born && w'.born[i] == w.born[i]
      {
        if i != id {
          assert SameAround(w, w', i);
        }
      }
    }
  }

  // ------------------------------------------------------- steps on one row at most

  /** `c` moves on; row `id` and its decision may change, but not the row's key; other tables stand still. */
  ghost predicate UpdateOf(w: World, w': World, c: CallId, id: RowId) {
    && c in w.calls && c in w'.calls
    && w' == w.To(c, w'.calls[c].pc).(rows := w'.rows, closer := w'.closer, support := w'.support)
    && (w'.rows == w.rows || w'.rows == w.rows - {id}
        || (id in w.rows && id in w'.rows && w'.rows == w.rows[id := w'.rows[id]] && w'.rows[id].key == w.rows[id].key))
    && (|| w'.closer == w.closer
        || (w'.closer == w.closer[id := c] && id !in w.closer && id in w.born)
        || (w'.closer == w.closer - {id} && DecidedBy(w, c, id)))
  }

  lemma UpdateTouchesOnly(w: World, w': World, c: CallId, id: RowId)
    requires UpdateOf(w, w', c, id)
    ensures TouchesOnly(w, w', c, id) && DecisionsKept(w, w', c)
  {
  }

  lemma UpdateKeepsTables(w: World, w': World, c: CallId, id: RowId)
    requires UpdateOf(w, w', c, id)
    requires KeysUnique(w.rows) && LedgerInv(w) && TablesInv(w)
    ensures KeysUnique(w'.rows) && LedgerInv(w') && TablesInv(w')
  {
  }

  /** The row a call works on, if it has one. */
  ghost predicate WorksOn(w: World, c: CallId, id: RowId)
    requires c in w.calls
  {
    if w.calls[c].req.Buy? then (RowOf(w.calls[c].pc).Some? ==> RowOf(w.calls[c].pc) == Some(id))
    else w.calls[c].req.id == id
  }

  lemma UpdateKeepsInv(w: World, w': World, c: CallId, id: RowId)
    requires Inv(w) && UpdateOf(w, w', c, id) && WorksOn(w, c, id)
    requires id in w.born ==> RowInv(w', id)
    requires CallInv(w', c)
    ensures Inv(w')
  {
    UpdateTouchesOnly(w, w', c, id);
    UpdateKeepsTables(w, w', c, id);
    Assemble(w, w', c, id);
  }

  // -------------------------------------------------- a purchase before its row exists

  lemma RowlessKeepsInv(w: World, c: CallId, pc: Phase, spare: RowId)
    requires Inv(w) && c in w.calls && w.calls[c].req.Buy? && RowOf(w.calls[c].pc).None? && RowOf(pc).None?
    requires CallInv(w.To(c, pc), c) && spare !in w.born
    ensures Inv(w.To(c, pc))
  {
    UpdateKeepsInv(w, w.To(c, pc), c, spare);
  }

  lemma DuplicateFound(w: World, w': World, c: CallId)
    requires c in w.calls && w.calls[c].req.Buy? && w.calls[c].pc == Duplicate && CallInv(w, c)
    requires forall i | i in w.rows :: i in w.born && w.born[i].key == w.rows[i].key
    requires ReadDuplicate(w, w', c)
    ensures c in w'.calls && w' == w.To(c, w'.calls[c].pc) && RowOf(w'.calls[c].pc).None? && CallInv(w', c)
  {
  }

  lemma RowsAreBorn(w: World)
    requires Inv(w)
    ensures forall i | i in w.rows :: i in w.born && w.born[i].key == w.rows[i].key
  {
    forall i | i in w.rows
      ensures i in w.born && w.born[i].key == w.rows[i].key
    {
      assert RowInv(w, i);
    }
  }

  lemma ReadDuplicateKeepsInv(w: World, w': World, c: CallId, spare: RowId)
    requires Inv(w) && c in w.calls && w.calls[c].req.Buy? && w.calls[c].pc == Duplicate && spare !in w.born
    requires ReadDuplicate(w, w', c)
    ensures Inv(w')
  {
    assert CallInv(w, c);
    RowsAreBorn(w);
    DuplicateFound(w, w', c);
    RowlessKeepsInv(w, c, w'.calls[c].pc, spare);
  }

  // ----------------------------------------------------- a purchase that owns its row

  ghost predicate Buyer(w: World, c: CallId, id: RowId) {
    && c in w.calls && w.calls[c].req.Buy? && CallInv(w, c)
    && RowOf(w.calls[c].pc) == Some(id) && id in w.born && RowInv(w, id) && w.born[id].call == c
  }

  /** Moves a buying call may make without touching the tables. */
  predicate FreeMove(pc: Phase, pc': Phase, paid: bool) {
    || pc == pc'
    || (&& !pc.Finished? && !pc'.Finished?
        && (paid ==> PastDebit(pc) == PastDebit(pc') && pc.Returned? == pc'.Returned?)
        && TicketIn(pc) == TicketIn(pc')
        && (pc'.Delivered? ==> pc'.ticket.None? && pc'.status == Applied))
  }

  lemma BuyerRowStands(w: World, c: CallId, id: RowId, pc': Phase, support: map<UserId, Support>)
    requires Buyer(w, c, id) && RowOf(pc') == Some(id) && (pc'.Stopped? || !pc'.Finished?)
    requires FreeMove(Live(w.calls[c].pc), Live(pc'), w.born[id].amount > 0)
    ensures RowInv(w.To(c, pc').(support := support), id)
  {
  }

  lemma BuyerMoves(w: World, c: CallId, id: RowId, pc': Phase, support: map<UserId, Support>)
    requires Buyer(w, c, id) && BuyingPhase(Live(pc')) && RowOf(pc') == Some(id) && (pc'.Stopped? || !pc'.Finished?)
    requires FreeMove(Live(w.calls[c].pc), Live(pc'), w.born[id].amount > 0)
    ensures Buyer(w.To(c, pc').(support := support), c, id)
  {
    BuyerRowStands(w, c, id, pc', support);
  }

  lemma BuyerMovesKeepsInv(w: World, c: CallId, id: RowId, pc': Phase, support: map<UserId, Support>)
    requires Inv(w) && c in w.calls && w.calls[c].req.Buy? && RowOf(w.calls[c].pc) == Some(id)
    requires BuyingPhase(Live(pc')) && RowOf(pc') == Some(id) && (pc'.Stopped? || !pc'.Finished?)
    requires FreeMove(Live(w.calls[c].pc), Live(pc'), !w.calls[c].req.free)
    ensures Inv(w.To(c, pc').(support := support))
  {
    BuyerOf(w, c, id);
    BuyerMoves(w, c, id, pc', support);
    UpdateKeepsInv(w, w.To(c, pc').(support := support), c, id);
  }

  lemma BuyerOf(w: World, c: CallId, id: RowId)
    requires Inv(w) && c in w.calls && w.calls[c].req.Buy? && RowOf(w.calls[c].pc) == Some(id)
    ensures Buyer(w, c, id) && (w.born[id].amount > 0 <==> !w.calls[c].req.free)
  {
  }

  /** A caught error sends the purchase to its compensation. */
  lemma BuyFaultKeepsInv(w: World, c: CallId, spare: RowId)
    requires Inv(w) && c in w.calls && w.calls[c].req.Buy? && Running(w.calls[c].pc) && spare !in w.born
    ensures Inv(w.To(c, BuyFault(w.calls[c].pc)))
  {
    assert CallInv(w, c);
    var pc := w.calls[c].pc;
    if pc.Ready? || pc.Paid? || pc.PeriodRead? {
      BuyerMovesKeepsInv(w, c, pc.id, BuyFault(pc), w.support);
    } else if pc == Asking || pc == Duplicate {
      RowlessKeepsInv(w, c, Finished(Failed), spare);
    } else {
      HaltKeepsInv(w, c, spare);
    }
  }

  lemma HaltKeepsInv(w: World, c: CallId, spare: RowId)
    requires Inv(w) && c in w.calls && Running(w.calls[c].pc) && spare !in w.born
    ensures Inv(w.Halt(c))
  {
    assert CallInv(w, c);
    var pc := w.calls[c].pc;
    if w.calls[c].req.Close? {
      CloserMovesKeepsInv(w, c, Stopped(pc));
    } else if RowOf(pc).None? {
      RowlessKeepsInv(w, c, Stopped(pc), spare);
    } else {
      BuyerMovesKeepsInv(w, c, RowOf(pc).value, Stopped(pc), w.support);
    }
  }

  lemma BuyerDrops(w: World, w': World, c: CallId, id: RowId)
    requires Buyer(w, c, id) && w.calls[c].pc in {Rejected(id), Declined(id), Returned(id)} && Drop(w, w', c, id)
    ensures Buyer(w', c, id)
  {
  }

  lemma DropKeepsInv(w: World, w': World, c: CallId, id: RowId)
    requires Inv(w) && c in w.calls && w.calls[c].req.Buy?
    requires w.calls[c].pc in {Rejected(id), Declined(id), Returned(id)} && Drop(w, w', c, id)
    ensures Inv(w')
  {
    BuyerOf(w, c, id);
    BuyerDrops(w, w', c, id);
    UpdateKeepsInv(w, w', c, id);
  }

  lemma BuyerSettles(w: World, w': World, c: CallId, id: RowId, ext: bool, status: Status, ticket: Option<nat>)
    requires Buyer(w, c, id) && w.calls[c].pc == Delivered(id, ext, status, ticket)
    requires Settle(w, w', c, id, ext, status, ticket)
    ensures Buyer(w', c, id) && UpdateOf(w, w', c, id)
  {
  }

  lemma SettleKeepsInv(w: World, w': World, c: CallId, id: RowId, ext: bool, status: Status, ticket: Option<nat>)
    requires Inv(w) && c in w.calls && w.calls[c].req.Buy? && w.calls[c].pc == Delivered(id, ext, status, ticket)
    requires Settle(w, w', c, id, ext, status, ticket)
    ensures Inv(w')
  {
    BuyerOf(w, c, id);
    BuyerSettles(w, w', c, id, ext, status, ticket);
    UpdateKeepsInv(w, w', c, id);
  }

  // ------------------------------------------------------------------ claiming a key

  /** A new id has no ledger entry and no ticket. */
  lemma NewRowIsClean(w: World, newId: RowId, b: Birth)
    requires Inv(w) && newId !in w.born && Keys.RowIdShape(newId) && Keys.IsPurchaseKey(b.key)
    ensures !HasKey(w.books.entries, ChargeKeyOf(b, newId)) && !HasKey(w.books.entries, RefundKeyOf(b, newId))
    ensures OpenedFor(w.tickets, newId) == {}
  {
    Keys.LedgerKeysAreAddonKeys(b.key, newId);
    forall e | e in w.books.entries
      ensures e.key != Some(ChargeKeyOf(b, newId)) && e.key != Some(RefundKeyOf(b, newId))
    {
      if e.key.Some? && Keys.IsAddonKey(e.key.value) {
        var id :| id in w.born && EntryOf(e, id, w.born[id]);
        assert RowInv(w, id);
        Keys.LedgerKeysApart(Some(w.born[id].key), id, Some(b.key), newId);
        Keys.LedgerKeysApart(Some(b.key), newId, Some(w.born[id].key), id);
      }
    }
  }

  lemma ClaimedRow(w: World, w': World, c: CallId, newId: RowId)
    requires c in w.calls && w.calls[c].req.Buy? && w.calls[c].pc == Asking && CallInv(w, c)
    requires newId !in w.born && newId !in w.closer && Keys.RowIdShape(newId)
    requires !InUse(w.rows, w.calls[c].req.key) && Claim(w, w', c, newId)
    requires var r := w.calls[c].req;
             var b := Birth(r.user, r.addon, r.Amount(), r.key, c);
             && !HasKey(w.books.entries, ChargeKeyOf(b, newId)) && !HasKey(w.books.entries, RefundKeyOf(b, newId))
             && OpenedFor(w.tickets, newId) == {}
    ensures newId in w'.born && RowInv(w', newId) && c in w'.calls && CallInv(w', c)
  {
  }

  lemma ClaimKeepsTables(w: World, w': World, c: CallId, newId: RowId)
    requires c in w.calls && w.calls[c].req.Buy? && newId !in w.born
    requires !InUse(w.rows, w.calls[c].req.key) && Claim(w, w', c, newId)
    requires KeysUnique(w.rows) && LedgerInv(w) && TablesInv(w)
    ensures KeysUnique(w'.rows) && LedgerInv(w') && TablesInv(w')
  {
    forall i | i in w.rows
      ensures w.rows[i].key != w.calls[c].req.key
    {
      assert !Holds(w.rows, w.calls[c].req.key, i);
    }
    assert LedgerInv(w') by {
      forall e | e in w'.books.entries && e.key.Some? && Keys.IsAddonKey(e.key.value)
        ensures exists j :: j in w'.born && EntryOf(e, j, w'.born[j])
      {
        var j :| j in w.born && EntryOf(e, j, w.born[j]);
        assert j in w'.born && EntryOf(e, j, w'.born[j]);
      }
    }
  }

  lemma ClaimTouchesOnly(w: World, w': World, c: CallId, newId: RowId)
    requires c in w.calls && w.calls[c].req.Buy? && newId !in w.born
    requires !InUse(w.rows, w.calls[c].req.key) && Claim(w, w', c, newId)
    ensures TouchesOnly(w, w', c, newId) && DecisionsKept(w, w', c)
  {
  }

  lemma ClaimKeepsInv(w: World, w': World, c: CallId, newId: RowId, spare: RowId)
    requires Inv(w) && c in w.calls && w.calls[c].req.Buy? && w.calls[c].pc == Asking
    requires Claim(w, w', c, newId) && spare !in w.born
    ensures Inv(w')
  {
    assert CallInv(w, c);
    if InUse(w.rows, w.calls[c].req.key) {
      RowlessKeepsInv(w, c, Duplicate, spare);
    } else {
      var r := w.calls[c].req;
      NewRowIsClean(w, newId, Birth(r.user, r.addon, r.Amount(), r.key, c));
      ClaimedRow(w, w', c, newId);
      ClaimKeepsTables(w, w', c, newId);
      ClaimTouchesOnly(w, w', c, newId);
      Assemble(w, w', c, newId);
    }
  }

  // ----------------------------------------------------------------- opening a ticket

  lemma TicketsFor(tickets: seq<Ticket>, t: Ticket, i: RowId)
    ensures OpenedFor(tickets + [t], i) == OpenedFor(tickets, i) + (if i == t.purchase then {|tickets|} else {})
  {
  }

  lemma BuyerGetsTicket(w: World, w': World, c: CallId, id: RowId, ext: bool)
    requires Buyer(w, c, id) && w.calls[c].pc == Paid(id, ext)
    requires w' == w.To(c, Delivered(id, ext, Queued, Some(|w.tickets|))).(tickets := w'.tickets)
    requires OpenedFor(w'.tickets, id) == OpenedFor(w.tickets, id) + {|w.tickets|}
    ensures Buyer(w', c, id)
  {
  }

  lemma TicketTouchesOnly(w: World, w': World, c: CallId, t: Ticket)
    requires c in w.calls && c in w'.calls && w' == w.To(c, w'.calls[c].pc).(tickets := w.tickets + [t])
    ensures TouchesOnly(w, w', c, t.purchase) && DecisionsKept(w, w', c)
  {
  }

  lemma TicketKeepsTables(w: World, w': World, c: CallId, id: RowId, t: Ticket)
    requires c in w.calls && c in w'.calls && w' == w.To(c, w'.calls[c].pc).(tickets := w.tickets + [t])
    requires t.purchase in w.born && LedgerInv(w) && TablesInv(w)
    ensures LedgerInv(w') && TablesInv(w')
  {
  }

  lemma OpenTicketKeepsInv(w: World, w': World, c: CallId, id: RowId, ext: bool, now: Time)
    requires Inv(w) && c in w.calls && w.calls[c].req.Buy? && w.calls[c].pc == Paid(id, ext)
    requires w.calls[c].req.addon != PrioritySupport && Deliver(w, w', c, id, ext, now)
    ensures Inv(w')
  {
    var t := Ticket(w.calls[c].req.user, id);
    BuyerOf(w, c, id);
    TicketsFor(w.tickets, t, id);
    BuyerGetsTicket(w, w', c, id, ext);
    TicketTouchesOnly(w, w', c, t);
    TicketKeepsTables(w, w', c, id, t);
    Assemble(w, w', c, id);
  }

  lemma DeliverKeepsInv(w: World, w': World, c: CallId, id: RowId, ext: bool, now: Time)
    requires Inv(w) && c in w.calls && w.calls[c].req.Buy? && w.calls[c].pc == Paid(id, ext)
    requires Deliver(w, w', c, id, ext, now)
    ensures Inv(w')
  {
    if w.calls[c].req.addon == PrioritySupport {
      BuyerMovesKeepsInv(w, c, id, w'.calls[c].pc, w.support);
    } else {
      OpenTicketKeepsInv(w, w', c, id, ext, now);
    }
  }

  // -------------------------------------------------------------------------- closing

  ghost predicate Closer(w: World, c: CallId, id: RowId) {
    && c in w.calls && w.calls[c].req.Close? && w.calls[c].req.id == id && CallInv(w, c)
    && (id in w.born ==> RowInv(w, id)) && (id in w.rows ==> id in w.born)
  }

  lemma CloserOf(w: World, c: CallId)
    requires Inv(w) && c in w.calls && w.calls[c].req.Close?
    ensures Closer(w, c, w.calls[c].req.id)
  {
  }

  /** Moves a closing call may make without touching the tables; the money must already be right. */
  ghost predicate FreeClosing(w: World, c: CallId, pc': Phase)
    requires c in w.calls && w.calls[c].req.Close?
  {
    var r, pc := w.calls[c].req, w.calls[c].pc;
    || Live(pc) == Live(pc')
    || (pc.Decided? && pc' == RefundFailed(pc.row) && r.refuse && pc.row.amount > 0)
    || (pc.Decided? && pc' == Finished(Closed) && (r.refuse ==> pc.row.amount == 0))
    || (pc == Opening && r.id in w.rows && pc' == Seen(w.rows[r.id]))
    || ((pc == Opening || pc.Seen?) && pc' == Finished(Failed))
  }

  /** A closing call that has not decided the order, or has and stands still, does not disturb it. */
  lemma OrderStands(w: World, c: CallId, id: RowId, pc': Phase)
    requires c in w.calls && w.calls[c].req.Close? && id in w.born && RowInv(w, id)
    requires DecidedBy(w, c, id) ==> Live(w.calls[c].pc) == Live(pc')
    ensures RowInv(w.To(c, pc'), id)
  {
    var w' := w.To(c, pc');
    assert SameAround(w, w', id) && SameCall(w, w', w.born[id].call);
    if !DecidedBy(w, c, id) {
      RowKept(w, w', id);
    } else {
      assert SettledRow(w, id);
      assert ClosedBy(w, id, w.rows[id].status == Refunded);
      assert ClosedBy(w', id, w.rows[id].status == Refunded);
      assert SettledRow(w', id);
    }
  }

  lemma CloserStands(w: World, c: CallId, id: RowId, pc': Phase)
    requires Closer(w, c, id) && Live(w.calls[c].pc) == Live(pc')
    ensures Closer(w.To(c, pc'), c, id)
  {
    if id in w.born {
      OrderStands(w, c, id, pc');
    }
  }

  lemma CloserFails(w: World, c: CallId, id: RowId, row: Row)
    requires Closer(w, c, id) && w.calls[c].pc == Decided(row) && w.calls[c].req.refuse && row.amount > 0
    ensures Closer(w.To(c, RefundFailed(row)), c, id)
  {
  }

  lemma CloserCloses(w: World, c: CallId, id: RowId, row: Row)
    requires Closer(w, c, id) && w.calls[c].pc == Decided(row) && (w.calls[c].req.refuse ==> row.amount == 0)
    ensures Closer(w.To(c, Finished(Closed)), c, id)
  {
  }

  lemma CloserConcludes(w: World, c: CallId, id: RowId, row: Row, pc': Phase)
    requires Closer(w, c, id) && w.calls[c].pc == Decided(row)
    requires var refuse := w.calls[c].req.refuse;
             || (pc' == RefundFailed(row) && refuse && row.amount > 0)
             || (pc' == Finished(Closed) && (refuse ==> row.amount == 0))
    ensures Closer(w.To(c, pc'), c, id)
  {
    if pc' == Finished(Closed) {
      CloserCloses(w, c, id, row);
    } else {
      CloserFails(w, c, id, row);
    }
  }

  lemma UndecidedYet(w: World, c: CallId, id: RowId)
    requires id in w.born && RowInv(w, id) && c in w.calls && (w.calls[c].pc == Opening || w.calls[c].pc.Seen?)
    ensures !DecidedBy(w, c, id)
  {
  }

  lemma CloserLooks(w: World, c: CallId, id: RowId, pc': Phase)
    requires Closer(w, c, id) && (w.calls[c].pc == Opening || w.calls[c].pc.Seen?)
    requires pc' == Finished(Failed) || (id in w.rows && pc' == Seen(w.rows[id]))
    ensures Closer(w.To(c, pc'), c, id)
  {
    if id in w.born {
      UndecidedYet(w, c, id);
      OrderStands(w, c, id, pc');
    }
  }

  lemma CloserMoves(w: World, c: CallId, id: RowId, pc': Phase)
    requires Closer(w, c, id) && FreeClosing(w, c, pc')
    ensures Closer(w.To(c, pc'), c, id)
  {
    var pc := w.calls[c].pc;
    if Live(pc) == Live(pc') {
      CloserStands(w, c, id, pc');
    } else if pc.Decided? {
      CloserConcludes(w, c, id, pc.row, pc');
    } else {
      CloserLooks(w, c, id, pc');
    }
  }

  lemma CloserMovesKeepsInv(w: World, c: CallId, pc': Phase)
    requires Inv(w) && c in w.calls && w.calls[c].req.Close? && FreeClosing(w, c, pc')
    ensures Inv(w.To(c, pc'))
  {
    CloserOf(w, c);
    CloserMoves(w, c, w.calls[c].req.id, pc');
    UpdateKeepsInv(w, w.To(c, pc'), c, w.calls[c].req.id);
  }

  lemma CloseFaultKeepsInv(w: World, c: CallId)
    requires Inv(w) && c in w.calls && w.calls[c].req.Close? && Running(w.calls[c].pc) && CanFail(w.calls[c])
    ensures Inv(w.To(c, CloseFault(w.calls[c].pc)))
  {
    assert CallInv(w, c);
    CloserMovesKeepsInv(w, c, CloseFault(w.calls[c].pc));
  }

  lemma LookKeepsInv(w: World, w': World, c: CallId)
    requires Inv(w) && c in w.calls && w.calls[c].req.Close? && w.calls[c].pc == Opening && Look(w, w', c)
    ensures Inv(w')
  {
    var id := w.calls[c].req.id;
    var pc := if id in w.rows && w.calls[c].req.permitted && w.rows[id].status == Queued then Seen(w.rows[id])
              else Finished(Failed);
    CloserMovesKeepsInv(w, c, pc);
  }

  lemma CloserDecides(w: World, w': World, c: CallId, id: RowId, row: Row)
    requires Closer(w, c, id) && w.calls[c].pc == Seen(row) && id in w.rows && w.rows[id].status == Queued
    requires Decide(w, w', c, row)
    ensures Closer(w', c, id)
  {
    assert SettledRow(w, id);
    assert Owned(w', id);
    assert ClosedBy(w', id, w.calls[c].req.refuse);
    assert SettledRow(w', id);
  }

  lemma DecisionIsUpdate(w: World, w': World, c: CallId, id: RowId, row: Row)
    requires Closer(w, c, id) && w.calls[c].pc == Seen(row) && id in w.rows && w.rows[id].status == Queued
    requires Decide(w, w', c, row)
    ensures UpdateOf(w, w', c, id)
  {
  }

  lemma DecideKeepsInv(w: World, w': World, c: CallId, row: Row)
    requires Inv(w) && c in w.calls && w.calls[c].req.Close? && w.calls[c].pc == Seen(row) && Decide(w, w', c, row)
    ensures Inv(w')
  {
    var id := w.calls[c].req.id;
    if id in w.rows && w.rows[id].status == Queued {
      CloserOf(w, c);
      CloserDecides(w, w', c, id, row);
      DecisionIsUpdate(w, w', c, id, row);
      UpdateKeepsInv(w, w', c, id);
    } else {
      CloserMovesKeepsInv(w, c, Finished(Failed));
    }
  }

  lemma CloserRequeues(w: World, w': World, c: CallId, id: RowId, row: Row)
    requires Closer(w, c, id) && w.calls[c].pc == RefundFailed(row) && Requeue(w, w', c)
    ensures Closer(w', c, id) && UpdateOf(w, w', c, id)
  {
  }

  lemma RequeueKeepsInv(w: World, w': World, c: CallId, row: Row)
    requires Inv(w) && c in w.calls && w.calls[c].req.Close? && w.calls[c].pc == RefundFailed(row) && Requeue(w, w', c)
    ensures Inv(w')
  {
    var id := w.calls[c].req.id;
    CloserOf(w, c);
    CloserRequeues(w, w', c, id, row);
    UpdateKeepsInv(w, w', c, id);
  }

  // --------------------------------------------------------- steps on the ledger

  ghost predicate OwnRequest(w: World, r: Request, id: RowId) {
    && id in w.born && w.born[id].amount > 0
    && var b := w.born[id];
    (r == Charge(b.user, b.amount, b.key, id) || r == Refund(b.user, b.amount, b.key, id))
  }

  /** An accepted new charge or refund adds exactly its own entry. */
  lemma PostedEntry(w: World, r: Request, id: RowId)
    requires OwnRequest(w, r, id) && !HasKey(w.books.entries, r.key.value)
    ensures var (books, o) := Post(w.books, r);
            if Accepted(o) then
              && o.Posted? && books.entries == w.books.entries + [o.entry]
              && books.accounts.Keys == w.books.accounts.Keys
              && EntryOf(o.entry, id, w.born[id]) && o.entry.key == r.key
            else books == w.books
  {
  }

  lemma LedgerOfOthers(w: World, e: Entry, id: RowId, i: RowId)
    requires Inv(w) && id in w.born && EntryOf(e, id, w.born[id]) && i in w.born && i != id
    ensures HasKey(w.books.entries + [e], ChargeKeyOf(w.born[i], i)) ==
            HasKey(w.books.entries, ChargeKeyOf(w.born[i], i))
    ensures HasKey(w.books.entries + [e], RefundKeyOf(w.born[i], i)) ==
            HasKey(w.books.entries, RefundKeyOf(w.born[i], i))
  {
    assert RowInv(w, id) && RowInv(w, i);
    Keys.LedgerKeysApart(Some(w.born[id].key), id, Some(w.born[i].key), i);
    Keys.LedgerKeysApart(Some(w.born[i].key), i, Some(w.born[id].key), id);
    FindAfterAppend(w.books.entries, e, ChargeKeyOf(w.born[i], i));
    FindAfterAppend(w.books.entries, e, RefundKeyOf(w.born[i], i));
  }

  lemma LedgerOfOwn(w: World, e: Entry, id: RowId)
    requires Inv(w) && id in w.born && EntryOf(e, id, w.born[id])
    ensures HasKey(w.books.entries + [e], ChargeKeyOf(w.born[id], id))
         == (e.key == Some(ChargeKeyOf(w.born[id], id)) || HasKey(w.books.entries, ChargeKeyOf(w.born[id], id)))
    ensures HasKey(w.books.entries + [e], RefundKeyOf(w.born[id], id))
         == (e.key == Some(RefundKeyOf(w.born[id], id)) || HasKey(w.books.entries, RefundKeyOf(w.born[id], id)))
    ensures ChargeKeyOf(w.born[id], id) != RefundKeyOf(w.born[id], id)
  {
  }

  ghost predicate OwnKeyAdded(w: World, w': World, e: Entry, id: RowId)
    requires id in w.born
  {
    var b := w.born[id];
    && HasKey(w'.books.entries, ChargeKeyOf(b, id))
       == (e.key == Some(ChargeKeyOf(b, id)) || HasKey(w.books.entries, ChargeKeyOf(b, id)))
    && HasKey(w'.books.entries, RefundKeyOf(b, id))
       == (e.key == Some(RefundKeyOf(b, id)) || HasKey(w.books.entries, RefundKeyOf(b, id)))
    && ChargeKeyOf(b, id) != RefundKeyOf(b, id)
  }

  /** `c` moves on and entry `e` of row `id` is appended to the ledger. */
  ghost predicate Appends(w: World, w': World, c: CallId, id: RowId, e: Entry) {
    && c in w.calls && c in w'.calls && id in w.born && EntryOf(e, id, w.born[id])
    && e.key.Some? && !HasKey(w.books.entries, e.key.value)
    && w' == w.To(c, w'.calls[c].pc).(books := w'.books)
    && w'.books.entries == w.books.entries + [e] && w'.books.accounts.Keys == w.books.accounts.Keys
  }

  lemma AppendKeepsTables(w: World, w': World, c: CallId, id: RowId, e: Entry)
    requires Appends(w, w', c, id, e)
    requires KeysUnique(w.rows) && LedgerInv(w) && TablesInv(w)
    ensures KeysUnique(w'.rows) && LedgerInv(w') && TablesInv(w')
  {
  }

  lemma AppendTouchesOnly(w: World, w': World, c: CallId, id: RowId, e: Entry)
    requires Inv(w) && Appends(w, w', c, id, e)
    ensures TouchesOnly(w, w', c, id)
  {
    forall i | i in w.born && i != id
      ensures SameAround(w, w', i)
    {
      LedgerOfOthers(w, e, id, i);
    }
    assert forall d {:trigger SameCall(w, w', d)} | d in w'.calls && d != c :: SameCall(w, w', d);
  }

  lemma AppendKeepsInv(w: World, w': World, c: CallId, id: RowId, e: Entry)
    requires Inv(w) && Appends(w, w', c, id, e) && WorksOn(w, c, id)
    requires RowInv(w', id) && CallInv(w', c)
    ensures Inv(w')
  {
    AppendTouchesOnly(w, w', c, id, e);
    AppendKeepsTables(w, w', c, id, e);
    assert DecisionsKept(w, w', c);
    Assemble(w, w', c, id);
  }

  lemma BuyerPays(w: World, w': World, c: CallId, id: RowId, ext: bool, e: Entry)
    requires Buyer(w, c, id) && w.calls[c].pc == Ready(id, ext) && !w.calls[c].req.free
    requires w' == w.To(c, Paid(id, ext)).(books := w'.books)
    requires OwnKeyAdded(w, w', e, id) && e.key == Some(ChargeKeyOf(w.born[id], id))
    ensures Buyer(w', c, id)
  {
  }

  lemma PaymentKeepsInv(w: World, w': World, c: CallId, id: RowId, ext: bool)
    requires Inv(w) && c in w.calls && w.calls[c].req.Buy? && w.calls[c].pc == Ready(id, ext) && !w.calls[c].req.free
    requires TakePayment(w, w', c, id, ext)
    ensures Inv(w')
  {
    BuyerOf(w, c, id);
    var q := w.calls[c].req;
    var r := Charge(q.user, q.Amount(), q.key, id);
    PostedEntry(w, r, id);
    var (books, o) := Post(w.books, r);
    if Accepted(o) {
      LedgerOfOwn(w, o.entry, id);
      BuyerPays(w, w', c, id, ext, o.entry);
      AppendKeepsInv(w, w', c, id, o.entry);
    } else {
      BuyerMovesKeepsInv(w, c, id, Declined(id), w.support);
    }
  }

  lemma BuyerIsPaidBack(w: World, w': World, c: CallId, id: RowId, e: Entry)
    requires Buyer(w, c, id) && w.calls[c].pc == Undelivered(id) && !w.calls[c].req.free
    requires w' == w.To(c, Returned(id)).(books := w'.books)
    requires OwnKeyAdded(w, w', e, id) && e.key == Some(RefundKeyOf(w.born[id], id))
    ensures Buyer(w', c, id)
  {
  }

  lemma PayBackKeepsInv(w: World, w': World, c: CallId, id: RowId)
    requires Inv(w) && c in w.calls && w.calls[c].req.Buy? && w.calls[c].pc == Undelivered(id) && !w.calls[c].req.free
    requires PayBack(w, w', c, id)
    ensures Inv(w')
  {
    BuyerOf(w, c, id);
    var q := w.calls[c].req;
    var r := Refund(q.user, q.Amount(), q.key, id);
    PostedEntry(w, r, id);
    var (books, o) := Post(w.books, r);
    if Accepted(o) {
      LedgerOfOwn(w, o.entry, id);
      BuyerIsPaidBack(w, w', c, id, o.entry);
      AppendKeepsInv(w, w', c, id, o.entry);
    } else {
      BuyerMovesKeepsInv(w, c, id, Stopped(w.calls[c].pc), w.support);
    }
  }

  lemma CloserGivesBack(w: World, w': World, c: CallId, id: RowId, row: Row, e: Entry)
    requires Closer(w, c, id) && w.calls[c].pc == Decided(row) && w.calls[c].req.refuse && row.amount > 0
    requires w' == w.To(c, Finished(Closed)).(books := w'.books)
    requires id in w.born && OwnKeyAdded(w, w', e, id) && e.key == Some(RefundKeyOf(w.born[id], id))
    ensures Closer(w', c, id)
  {
    assert SettledRow(w, id);
    assert Owned(w', id);
    assert ClosedBy(w', id, true);
    assert SettledRow(w', id);
  }

  lemma DecidedOrder(w: World, c: CallId, id: RowId, row: Row)
    requires Closer(w, c, id) && w.calls[c].pc == Decided(row)
    ensures id in w.born && Describes(w.born[id], row) && Owned(w, id)
    ensures w.calls[c].req.refuse ==> !HasKey(w.books.entries, RefundKeyOf(w.born[id], id))
  {
  }

  lemma GiveBackKeepsInv(w: World, w': World, c: CallId, row: Row)
    requires Inv(w) && c in w.calls && w.calls[c].req.Close? && w.calls[c].pc == Decided(row) && GiveBack(w, w', c, row)
    ensures Inv(w')
  {
    var id := w.calls[c].req.id;
    CloserOf(w, c);
    DecidedOrder(w, c, id, row);
    if w.calls[c].req.refuse && row.amount > 0 {
      var r := Refund(row.user, row.amount, row.key, id);
      PostedEntry(w, r, id);
      var (books, o) := Post(w.books, r);
      if Accepted(o) {
        LedgerOfOwn(w, o.entry, id);
        CloserGivesBack(w, w', c, id, row, o.entry);
        AppendKeepsInv(w, w', c, id, o.entry);
      } else {
        CloserMovesKeepsInv(w, c, RefundFailed(row));
      }
    } else {
      CloserMovesKeepsInv(w, c, Finished(Closed));
    }
  }

  /** Entries that are not for add-ons do not concern any purchase. */
  lemma OtherEntryAside(w: World, w': World, e: Entry, i: RowId)
    requires i in w.born && RowInv(w, i) && (e.key.Some? ==> !Keys.IsAddonKey(e.key.value))
    requires w' == w.(books := w'.books, outside := w'.outside) && w'.books.entries == w.books.entries + [e]
    ensures RowInv(w', i)
  {
    Keys.LedgerKeysAreAddonKeys(w.born[i].key, i);
    FindAfterAppend(w.books.entries, e, ChargeKeyOf(w.born[i], i));
    FindAfterAppend(w.books.entries, e, RefundKeyOf(w.born[i], i));
    if i in w.closer && w.closer[i] in w.calls {
      assert SameCall(w, w', w.closer[i]);
    }
    RowKept(w, w', i);
  }

  lemma OtherEntryKeepsTables(w: World, w': World, e: Entry)
    requires LedgerInv(w) && TablesInv(w) && (e.key.Some? ==> !Keys.IsAddonKey(e.key.value))
    requires w' == w.(books := w'.books, outside := w'.outside) && w'.books.entries == w.books.entries + [e]
    requires w'.outside.Keys == w'.books.accounts.Keys && UniqueKeys(w'.books.entries)
    ensures LedgerInv(w') && TablesInv(w')
  {
  }

  lemma CallsKeptByOther(w: World, w': World)
    requires Inv(w) && w' == w.(books := w'.books, outside := w'.outside)
    ensures forall c {:trigger CallInv(w', c)} | c in w'.calls :: CallInv(w', c)
  {
    forall c | c in w'.calls
      ensures CallInv(w', c)
    {
      assert CallInv(w, c);
    }
  }

  lemma OtherKeepsInv(w: World, w': World, r: Request)
    requires Inv(w) && (r.key.Some? ==> !Keys.IsAddonKey(r.key.value)) && PostOther(w, w', r)
    ensures Inv(w')
  {
    var (books, o) := Post(w.books, r);
    if o.Posted? && r.user in w.outside {
      forall i | i in w.born
        ensures RowInv(w', i)
      {
        assert RowInv(w, i);
        OtherEntryAside(w, w', o.entry, i);
      }
      CallsKeptByOther(w, w');
      OtherEntryKeepsTables(w, w', o.entry);
    }
  }

  lemma RowKeptBySubmit(w: World, w': World, c: CallId, i: RowId)
    requires c !in w.calls && c in w'.calls && w' == w.(calls := w.calls[c := w'.calls[c]])
    requires i in w.born && RowInv(w, i)
    ensures RowInv(w', i)
  {
  }

  lemma SubmitKeepsInv(w: World, w': World, c: CallId, r: CallRequest)
    requires Inv(w) && StepBy(w, w', c, Submit(r))
    ensures Inv(w')
  {
    forall i | i in w'.born
      ensures RowInv(w', i)
    {
      assert RowInv(w, i);
      RowKeptBySubmit(w, w', c, i);
    }
    forall d | d in w'.calls
      ensures CallInv(w', d)
    {
      if d != c {
        assert CallInv(w, d);
      }
    }
    assert LedgerInv(w');
  }

  // ------------------------------------------------------------------------ all

  lemma PayingKeepsInv(w: World, w': World, c: CallId, id: RowId, ext: bool)
    requires Inv(w) && c in w.calls && w.calls[c].req.Buy? && w.calls[c].pc == Ready(id, ext)
    requires TakePayment(w, w', c, id, ext)
    ensures Inv(w')
  {
    if w.calls[c].req.free {
      BuyerMovesKeepsInv(w, c, id, Paid(id, ext), w.support);
    } else {
      PaymentKeepsInv(w, w', c, id, ext);
    }
  }

  lemma ReturningKeepsInv(w: World, w': World, c: CallId, id: RowId)
    requires Inv(w) && c in w.calls && w.calls[c].req.Buy? && w.calls[c].pc == Undelivered(id) && PayBack(w, w', c, id)
    ensures Inv(w')
  {
    if w.calls[c].req.free {
      BuyerMovesKeepsInv(w, c, id, Returned(id), w.support);
    } else {
      PayBackKeepsInv(w, w', c, id);
    }
  }

  lemma DeliveryKeepsInv(w: World, w': World, c: CallId, now: Time, newId: RowId)
    requires Inv(w) && c in w.calls && w.calls[c].req.Buy? && BuyStep(w, w', c, now, newId)
    requires var pc := w.calls[c].pc; pc.Claimed? || pc.Ready? || pc.Paid? || pc.PeriodRead? || pc.Undelivered?
    ensures Inv(w')
  {
    match w.calls[c].pc
    case Claimed(id) => BuyerMovesKeepsInv(w, c, id, w'.calls[c].pc, w.support);
    case Ready(id, ext) => PayingKeepsInv(w, w', c, id, ext);
    case Paid(id, ext) => DeliverKeepsInv(w, w', c, id, ext, now);
    case PeriodRead(id, ext, start) => BuyerMovesKeepsInv(w, c, id, w'.calls[c].pc, w'.support);
    case Undelivered(id) => ReturningKeepsInv(w, w', c, id);
  }

  lemma BuyStepKeepsInv(w: World, w': World, c: CallId, now: Time, newId: RowId, spare: RowId)
    requires Inv(w) && c in w.calls && w.calls[c].req.Buy? && BuyStep(w, w', c, now, newId) && spare !in w.born
    ensures Inv(w')
  {
    match w.calls[c].pc
    case Asking => ClaimKeepsInv(w, w', c, newId, spare);
    case Duplicate => ReadDuplicateKeepsInv(w, w', c, spare);
    case Rejected(id) => DropKeepsInv(w, w', c, id);
    case Declined(id) => DropKeepsInv(w, w', c, id);
    case Returned(id) => DropKeepsInv(w, w', c, id);
    case Delivered(id, ext, status, ticket) => SettleKeepsInv(w, w', c, id, ext, status, ticket);
    case _ => DeliveryKeepsInv(w, w', c, now, newId);
  }

  lemma CloseStepKeepsInv(w: World, w': World, c: CallId)
    requires Inv(w) && c in w.calls && w.calls[c].req.Close? && CloseStep(w, w', c)
    ensures Inv(w')
  {
    match w.calls[c].pc
    case Opening => LookKeepsInv(w, w', c);
    case Seen(row) => DecideKeepsInv(w, w', c, row);
    case Decided(row) => GiveBackKeepsInv(w, w', c, row);
    case RefundFailed(row) => RequeueKeepsInv(w, w', c, row);
  }

  /** Some id is always unused. */
  lemma UnusedId(ids: set<RowId>) returns (id: RowId)
    ensures id !in ids
  {
    id := Longer(ids);
  }

  lemma {:induction false} Longer(ids: set<RowId>) returns (id: RowId)
    ensures forall i | i in ids :: |i| < |id|
  {
    if ids == {} {
      id := "";
    } else {
      var i :| i in ids;
      var rest := Longer(ids - {i});
      id := rest + i + "x";
      assert forall j | j in ids :: j == i || j in ids - {i};
    }
  }

  lemma StepKeepsInv(w: World, w': World, c: CallId, a: Action)
    requires Inv(w) && StepBy(w, w', c, a)
    ensures Inv(w')
  {
    var spare := UnusedId(w.born.Keys);
    match a
    case Submit(r) => SubmitKeepsInv(w, w', c, r);
    case Proceed(now, newId) =>
      if w.calls[c].req.Buy? {
        BuyStepKeepsInv(w, w', c, now, newId, spare);
      } else {
        CloseStepKeepsInv(w, w', c);
      }
    case Fail =>
      if w.calls[c].req.Buy? {
        BuyFaultKeepsInv(w, c, spare);
      } else {
        CloseFaultKeepsInv(w, c);
      }
    case Crash => HaltKeepsInv(w, c, spare);
    case Other(r) => OtherKeepsInv(w, w', r);
  }

  lemma {:induction false} RunInv(run: seq<World>, i: nat)
    requires Run(run) && i < |run|
    ensures Inv(run[i])
  {
    if i == 0 {
    } else {
      RunInv(run, i - 1);
      assert NextAt(run, i - 1);
      var c, a :| StepBy(run[i - 1], run[i], c, a);
      StepKeepsInv(run[i - 1], run[i], c, a);
    }
  }
}
