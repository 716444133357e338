/** The inductive invariant of the purchase protocol. */
module ProtocolInvariant {
  import opened Options
  import opened Ledger
  import opened Protocol
  import Keys

  // ---------------------------------------------------------------- vocabulary

  /** The phase of a call, or the one it stopped in. */
  function Live(pc: Phase): Phase {
    if pc.Stopped? then pc.at else pc
  }

  /** The purchase row a buying call has created. */
  function RowOf(pc: Phase): Option<RowId> {
    match Live(pc)
    case Claimed(id) => Some(id)
    case Rejected(id) => Some(id)
    case Ready(id, _) => Some(id)
    case Declined(id) => Some(id)
    case Paid(id, _) => Some(id)
    case PeriodRead(id, _, _) => Some(id)
    case Delivered(id, _, _, _) => Some(id)
    case Undelivered(id) => Some(id)
    case Returned(id) => Some(id)
    case Finished(Bought(id)) => Some(id)
    case Finished(Released(id)) => Some(id)
    case _ => None
  }

  predicate ClosingPhase(pc: Phase) {
    pc.Opening? || pc.Seen? || pc.Decided? || pc.RefundFailed? || pc == Finished(Closed) || pc == Finished(Failed)
  }

  predicate BuyingPhase(pc: Phase) {
    && !pc.Stopped? && !pc.Opening? && !pc.Seen? && !pc.Decided? && !pc.RefundFailed? && pc != Finished(Closed)
  }

  function ChargeKeyOf(b: Birth, id: RowId): string {
    Keys.ChargeKey(Some(b.key), id)
  }

  function RefundKeyOf(b: Birth, id: RowId): string {
    Keys.RefundKey(Some(b.key), id)
  }

  /** The charge of a row, and its refund, are in the ledger or not, as said. */
  ghost predicate Money(w: World, id: RowId, charged: bool, refunded: bool)
    requires id in w.born
  {
    && HasKey(w.books.entries, ChargeKeyOf(w.born[id], id)) == charged
    && HasKey(w.books.entries, RefundKeyOf(w.born[id], id)) == refunded
  }

  /** The tickets opened for a purchase. */
  function OpenedFor(tickets: seq<Ticket>, id: RowId): set<nat> {
    set t: nat | t < |tickets| && tickets[t].purchase == id
  }

  ghost predicate Ticketed(w: World, id: RowId, ticket: Option<nat>) {
    OpenedFor(w.tickets, id) == if ticket.Some? then {ticket.value} else {}
  }

  ghost predicate Describes(b: Birth, row: Row) {
    row.user == b.user && row.addon == b.addon && row.amount == b.amount && row.key == b.key
  }

  ghost predicate PendingRow(w: World, id: RowId)
    requires id in w.born
  {
    && id in w.rows && Describes(w.born[id], w.rows[id])
    && w.rows[id].status == Pending && w.rows[id].ticket == None
    && id !in w.closer
  }

  ghost predicate ClosedBy(w: World, id: RowId, refuse: bool) {
    && id in w.closer && w.closer[id] in w.calls
    && var call := w.calls[w.closer[id]];
    && call.req.Close? && call.req.id == id && call.req.refuse == refuse
    && (Live(call.pc).Decided? || (refuse && Live(call.pc).RefundFailed?) || Live(call.pc) == Finished(Closed))
  }

  /** A purchase that went through, wherever its order has got to. */
  ghost predicate SettledRow(w: World, id: RowId)
    requires id in w.born
  {
    var paid := w.born[id].amount > 0;
    && id in w.rows && Describes(w.born[id], w.rows[id])
    && Ticketed(w, id, w.rows[id].ticket)
    && match w.rows[id].status
       case Pending => false
       case Applied => Money(w, id, paid, false) && id !in w.closer && w.rows[id].ticket == None
       case Queued => Money(w, id, paid, false) && id !in w.closer
       case Fulfilled => Money(w, id, paid, false) && ClosedBy(w, id, false)
       case Refunded =>
         && ClosedBy(w, id, true)
         && if Live(w.calls[w.closer[id]].pc) == Finished(Closed) then Money(w, id, paid, paid)
            else Money(w, id, paid, false)
  }

  /** The debit, if any, has been made. */
  predicate PastDebit(pc: Phase) {
    pc.Paid? || pc.PeriodRead? || pc.Delivered? || pc.Undelivered? || pc.Returned?
  }

  function TicketIn(pc: Phase): Option<nat> {
    if pc.Delivered? then pc.ticket else None
  }

  /** A purchase that is under way, or was abandoned, in phase `pc`. */
  ghost predicate UnsettledRow(w: World, id: RowId, pc: Phase)
    requires id in w.born
  {
    var paid := w.born[id].amount > 0;
    && PendingRow(w, id)
    && Money(w, id, paid && PastDebit(pc), paid && pc.Returned?)
    && Ticketed(w, id, TicketIn(pc))
    && (pc.Delivered? ==> if pc.ticket.Some? then pc.status == Queued else pc.status == Applied)
  }

  ghost predicate ReleasedRow(w: World, id: RowId)
    requires id in w.born
  {
    && id !in w.rows && id !in w.closer && Ticketed(w, id, None)
    && (Money(w, id, false, false) || Money(w, id, w.born[id].amount > 0, w.born[id].amount > 0))
  }

  /** A row ever created and the call that created it. */
  ghost predicate Owned(w: World, id: RowId)
    requires id in w.born
  {
    var b := w.born[id];
    && Keys.RowIdShape(id) && Keys.IsPurchaseKey(b.key)
    && b.call in w.calls && RowOf(w.calls[b.call].pc) == Some(id)
    && var r := w.calls[b.call].req;
    && r.Buy? && b == Birth(r.user, r.addon, r.Amount(), r.key, b.call)
  }

  /** What holds of a row ever created, by the phase of the call that created it. */
  ghost predicate RowInv(w: World, id: RowId)
    requires id in w.born
  {
    && Owned(w, id)
    && var pc := Live(w.calls[w.born[id].call].pc);
    if pc == Finished(Released(id)) then ReleasedRow(w, id)
    else if pc == Finished(Bought(id)) then SettledRow(w, id)
    else UnsettledRow(w, id, pc)
  }

  ghost predicate SnapshotOf(w: World, id: RowId, row: Row) {
    id in w.born && Describes(w.born[id], row)
  }

  ghost predicate DecidedBy(w: World, c: CallId, id: RowId) {
    id in w.closer && w.closer[id] == c
  }

  /** What holds of a call. */
  ghost predicate CallInv(w: World, c: CallId)
    requires c in w.calls
  {
    var Call(r, pc) := w.calls[c];
    if r.Buy? then
      && BuyingPhase(Live(pc)) && Keys.IsPurchaseKey(r.key)
      && (RowOf(pc).Some? ==> RowOf(pc).value in w.born && w.born[RowOf(pc).value].call == c)
      && (pc.Finished? && pc.result.Repeated? ==> pc.result.id in w.born && w.born[pc.result.id].key == r.key)
    else
      && ClosingPhase(Live(pc))
      && match Live(pc)
         case Seen(row) => SnapshotOf(w, r.id, row)
         case Decided(row) => SnapshotOf(w, r.id, row) && DecidedBy(w, c, r.id)
         case RefundFailed(row) => SnapshotOf(w, r.id, row) && DecidedBy(w, c, r.id) && r.refuse && row.amount > 0
         case Finished(Closed) => DecidedBy(w, c, r.id)
         case _ => true
  }

  ghost predicate KeysUnique(rows: map<RowId, Row>) {
    forall i, j | i in rows && j in rows && i != j :: rows[i].key != rows[j].key
  }

  /** An entry is the charge or the refund of a row. */
  ghost predicate EntryOf(e: Entry, id: RowId, b: Birth) {
    && e.user == b.user
    && ((e.amount + b.amount == 0 && e.key == Some(ChargeKeyOf(b, id)))
        || (e.amount == b.amount && e.key == Some(RefundKeyOf(b, id))))
  }

  /** Every add-on entry of the ledger belongs to a row ever created. */
  ghost predicate LedgerInv(w: World) {
    forall e | e in w.books.entries && e.key.Some? && Keys.IsAddonKey(e.key.value) ::
      exists id :: id in w.born && EntryOf(e, id, w.born[id])
  }

  ghost predicate TablesInv(w: World) {
    && w.rows.Keys <= w.born.Keys && w.closer.Keys <= w.born.Keys
    && (forall t | t in w.tickets :: t.purchase in w.born)
    && (forall i, j | 0 <= i < j < |w.order| :: w.order[i] != w.order[j])
    && (forall id :: id in w.born <==> id in w.order)
    && w.outside.Keys == w.books.accounts.Keys
    && UniqueKeys(w.books.entries)
  }

  ghost predicate Inv(w: World) {
    && (forall id {:trigger RowInv(w, id)} | id in w.born :: RowInv(w, id))
    && (forall c {:trigger CallInv(w, c)} | c in w.calls :: CallInv(w, c))
    && KeysUnique(w.rows)
    && LedgerInv(w)
    && TablesInv(w)
  }

  // ------------------------------------------------------------------- locality

  /** A step by `c` that leaves everything about row `i` as it was. */
  ghost predicate SameAround(w: World, w': World, i: RowId) {
    && i in w.born && i in w'.born && w'.born[i] == w.born[i]
    && (i in w.rows <==> i in w'.rows) && (i in w.rows ==> w'.rows[i] == w.rows[i])
    && (i in w.closer <==> i in w'.closer) && (i in w.closer ==> w'.closer[i] == w.closer[i])
    && OpenedFor(w'.tickets, i) == OpenedFor(w.tickets, i)
    && HasKey(w'.books.entries, ChargeKeyOf(w.born[i], i)) == HasKey(w.books.entries, ChargeKeyOf(w.born[i], i))
    && HasKey(w'.books.entries, RefundKeyOf(w.born[i], i)) == HasKey(w.books.entries, RefundKeyOf(w.born[i], i))
  }

  ghost predicate SameCall(w: World, w': World, d: CallId) {
    d in w.calls && d in w'.calls && w'.calls[d] == w.calls[d]
  }

  lemma RowKept(w: World, w': World, i: RowId)
    requires SameAround(w, w', i) && RowInv(w, i)
    requires SameCall(w, w', w.born[i].call)
    requires i in w.closer && w.closer[i] in w.calls ==> SameCall(w, w', w.closer[i])
    ensures RowInv(w', i)
  {
  }

  /** A step that concerns call `c` and row `id` only. */
  ghost predicate TouchesOnly(w: World, w': World, c: CallId, id: RowId) {
    && c in w'.calls
    && (forall d {:trigger SameCall(w, w', d)} | d in w'.calls && d != c :: SameCall(w, w', d))
    && w.calls.Keys <= w'.calls.Keys
    && (forall i {:trigger SameAround(w, w', i)} | i in w.born && i != id :: SameAround(w, w', i))
    && w.born.Keys <= w'.born.Keys <= w.born.Keys + {id}
  }

  /** The rows other than the one a call works on do not notice its step. */
  lemma OtherRowsKept(w: World, w': World, c: CallId, id: RowId, i: RowId)
    requires Inv(w) && TouchesOnly(w, w', c, id)
    requires c in w.calls ==>
               if w.calls[c].req.Buy? then (RowOf(w.calls[c].pc).Some? ==> RowOf(w.calls[c].pc) == Some(id))
               else w.calls[c].req.id == id
    requires i in w.born && i != id
    ensures i in w'.born && RowInv(w', i)
  {
    assert RowInv(w, i) && SameAround(w, w', i);
    assert SameCall(w, w', w.born[i].call);
    if i in w.closer && w.closer[i] in w.calls {
      assert ClosedBy(w, i, w.rows[i].status == Refunded);
    }
    RowKept(w, w', i);
  }
}
