/**
 * Buying an add-on from the wallet (`zrealizuj`) and closing its order (`zamknijZlecenie`), as a
 * transition system. Each database, ledger or ticket call is one atomic step; any number of calls are
 * in flight, each step may fail, and a call may stop for good between any two steps.
 */
module Protocol {
  import opened Options
  import opened Ledger
  import Keys

  type RowId = string
  type CallId = nat
  type Time = int

  const PERIOD_MS := 30 * 24 * 60 * 60 * 1000

  datatype Addon = PrioritySupport | ManualSetup | DedicatedIp
  {
    /** Catalogue price in grosze. */
    function Price(): nat {
      match this
      case PrioritySupport => 4900
      case ManualSetup => 9900
      case DedicatedIp => 2500
    }
  }

  datatype Status = Pending | Queued | Applied | Fulfilled | Refunded

  /** A PurchasedAddon row. */
  datatype Row = Row(user: UserId, addon: Addon, amount: nat, key: string, status: Status,
                     ticket: Option<nat>, extension: bool)

  /** A staff ticket; `purchase` is auxiliary. */
  datatype Ticket = Ticket(user: UserId, purchase: RowId)

  /** `prioritySupport` and `prioritySupportUntil` of a user. */
  datatype Support = Support(active: bool, until: Option<Time>)

  function SupportIn(support: map<UserId, Support>, u: UserId): Support {
    if u in support then support[u] else Support(false, None)
  }

  /** When a period ends; the source reads a missing date as time 0. */
  function EndOf(s: Support): Time {
    if s.until.Some? then s.until.value else 0
  }

  datatype CallRequest =
    | Buy(user: UserId, addon: Addon, key: string, free: bool, extend: bool)
    | Close(id: RowId, refuse: bool, permitted: bool)
  {
    function Amount(): nat
      requires Buy?
    {
      if free then 0 else addon.Price()
    }
  }

  datatype Result =
    | Bought(id: RowId)
    | Repeated(id: RowId)      // the purchase already exists
    | Released(id: RowId)      // failed, the key is free again
    | Closed                   // this call decided the order
    | Failed                   // failed before changing anything, or after putting it back

  datatype Phase =
    // purchase
    | Asking
    | Duplicate
    | Claimed(id: RowId)
    | Rejected(id: RowId)
    | Ready(id: RowId, ext: bool)
    | Declined(id: RowId)
    | Paid(id: RowId, ext: bool)
    | PeriodRead(id: RowId, ext: bool, start: Time)
    | Delivered(id: RowId, ext: bool, status: Status, ticket: Option<nat>)
    | Undelivered(id: RowId)
    | Returned(id: RowId)
    // closing
    | Opening
    | Seen(row: Row)
    | Decided(row: Row)
    | RefundFailed(row: Row)
    // both
    | Finished(result: Result)
    | Stopped(at: Phase)

  datatype Call = Call(req: CallRequest, pc: Phase)

  /** Auxiliary: a purchase row as it was created, and the call that created it. */
  datatype Birth = Birth(user: UserId, addon: Addon, amount: nat, key: string, call: CallId)

  /**
   * The tables, the calls, and auxiliary state: the rows ever created (`born`, in `order`), the call that
   * decided each closed order (`closer`), and what each balance would be without add-ons (`outside`).
   */
  datatype World = World(
    books: Books,
    rows: map<RowId, Row>,
    tickets: seq<Ticket>,
    support: map<UserId, Support>,
    calls: map<CallId, Call>,
    born: map<RowId, Birth>,
    order: seq<RowId>,
    closer: map<RowId, CallId>,
    outside: map<UserId, int>)
  {
    function To(c: CallId, pc: Phase): World
      requires c in calls
    {
      this.(calls := calls[c := calls[c].(pc := pc)])
    }

    function Halt(c: CallId): World
      requires c in calls
    {
      To(c, Stopped(calls[c].pc))
    }

    function SupportOf(u: UserId): Support {
      SupportIn(support, u)
    }
  }

  datatype Action =
    | Submit(req: CallRequest)
    | Proceed(now: Time, newId: RowId)
    | Fail
    | Crash
    | Other(entry: Request)

  // ---------------------------------------------------------------- ledger use

  predicate Accepted(o: Outcome) {
    o.Posted? || o.Existing?
  }

  function Charge(user: UserId, amount: nat, key: string, id: RowId): Request {
    Request(user, amount, Debit, Some(Keys.ChargeKey(Some(key), id)))
  }

  function Refund(user: UserId, amount: nat, key: string, id: RowId): Request {
    Request(user, amount, Credit, Some(Keys.RefundKey(Some(key), id)))
  }

  // ------------------------------------------------------------------ purchase

  /** Row `id` holds a key. */
  predicate Holds(rows: map<RowId, Row>, key: string, id: RowId) {
    id in rows && rows[id].key == key
  }

  ghost predicate InUse(rows: map<RowId, Row>, key: string) {
    exists id :: Holds(rows, key, id)
  }

  function PriorityActive(s: Support, now: Time): bool {
    s.active && s.until.Some? && s.until.value > now
  }

  /** INSERT of the PENDING row under a new id; a second row with the key is refused by the unique index. */
  ghost predicate Claim(w: World, w': World, c: CallId, newId: RowId)
    requires c in w.calls && w.calls[c].req.Buy?
  {
    var r := w.calls[c].req;
    var taken := InUse(w.rows, r.key);
    && (!taken ==> newId !in w.born && Keys.RowIdShape(newId))
    && w' == w.To(c, if taken then Duplicate else Claimed(newId)).(
            rows :=
              if taken then w.rows
              else w.rows[newId := Row(r.user, r.addon, r.Amount(), r.key, Pending, None, false)],
            born := if taken then w.born else w.born[newId := Birth(r.user, r.addon, r.Amount(), r.key, c)],
            order := if taken then w.order else w.order + [newId])
  }

  /** Reading back the row that holds the key; it may be gone again by now. */
  ghost predicate ReadDuplicate(w: World, w': World, c: CallId)
    requires c in w.calls && w.calls[c].req.Buy?
  {
    && c in w'.calls && w' == w.To(c, w'.calls[c].pc) && w'.calls[c].pc.Finished?
    && var found := w'.calls[c].pc.result;
    if InUse(w.rows, w.calls[c].req.key)
    then found.Repeated? && Holds(w.rows, w.calls[c].req.key, found.id)
    else found == Failed
  }

  predicate CheckPeriod(w: World, w': World, c: CallId, id: RowId, now: Time)
    requires c in w.calls && w.calls[c].req.Buy?
  {
    var r := w.calls[c].req;
    var active := r.addon == PrioritySupport && PriorityActive(w.SupportOf(r.user), now);
    w' == w.To(c, if active && !r.extend then Rejected(id) else Ready(id, active))
  }

  predicate TakePayment(w: World, w': World, c: CallId, id: RowId, ext: bool)
    requires c in w.calls && w.calls[c].req.Buy?
  {
    var r := w.calls[c].req;
    var (books, o) := Post(w.books, Charge(r.user, r.Amount(), r.key, id));
    w' == w.To(c, if r.free || Accepted(o) then Paid(id, ext) else Declined(id)).(
            books := if r.free then w.books else books)
  }

  function Later(a: Time, b: Time): Time {
    if a > b then a else b
  }

  function ExtendFrom(s: Support, now: Time): Time {
    Later(EndOf(s), now)
  }

  predicate Deliver(w: World, w': World, c: CallId, id: RowId, ext: bool, now: Time)
    requires c in w.calls && w.calls[c].req.Buy?
  {
    var r := w.calls[c].req;
    var period := r.addon == PrioritySupport;
    w' == w.To(c, if period then PeriodRead(id, ext, ExtendFrom(w.SupportOf(r.user), now))
                  else Delivered(id, ext, Queued, Some(|w.tickets|))).(
            tickets := if period then w.tickets else w.tickets + [Ticket(r.user, id)])
  }

  predicate WritePeriod(w: World, w': World, c: CallId, id: RowId, ext: bool, start: Time)
    requires c in w.calls && w.calls[c].req.Buy?
  {
    w' == w.To(c, Delivered(id, ext, Applied, None)).(
            support := w.support[w.calls[c].req.user := Support(true, Some(start + PERIOD_MS))])
  }

  predicate PayBack(w: World, w': World, c: CallId, id: RowId)
    requires c in w.calls && w.calls[c].req.Buy?
  {
    var r := w.calls[c].req;
    var (books, o) := Post(w.books, Refund(r.user, r.Amount(), r.key, id));
    w' == w.To(c, if r.free || Accepted(o) then Returned(id) else Stopped(w.calls[c].pc)).(
            books := if r.free then w.books else books)
  }

  predicate Drop(w: World, w': World, c: CallId, id: RowId)
    requires c in w.calls
  {
    w' == w.To(c, Finished(Released(id))).(rows := w.rows - {id})
  }

  /** UPDATE of the row with the outcome; it fails if the row is gone. */
  predicate Settle(w: World, w': World, c: CallId, id: RowId, ext: bool, status: Status, ticket: Option<nat>)
    requires c in w.calls
  {
    w' == w.To(c, if id in w.rows then Finished(Bought(id)) else Stopped(w.calls[c].pc)).(
            rows := if id in w.rows
                    then w.rows[id := w.rows[id].(status := status, ticket := ticket, extension := ext)]
                    else w.rows)
  }

  ghost predicate BuyStep(w: World, w': World, c: CallId, now: Time, newId: RowId)
    requires c in w.calls && w.calls[c].req.Buy?
  {
    match w.calls[c].pc
    case Asking => Claim(w, w', c, newId)
    case Duplicate => ReadDuplicate(w, w', c)
    case Claimed(id) => CheckPeriod(w, w', c, id, now)
    case Ready(id, ext) => TakePayment(w, w', c, id, ext)
    case Paid(id, ext) => Deliver(w, w', c, id, ext, now)
    case PeriodRead(id, ext, start) => WritePeriod(w, w', c, id, ext, start)
    case Undelivered(id) => PayBack(w, w', c, id)
    case Rejected(id) => Drop(w, w', c, id)
    case Declined(id) => Drop(w, w', c, id)
    case Returned(id) => Drop(w, w', c, id)
    case Delivered(id, ext, status, ticket) => Settle(w, w', c, id, ext, status, ticket)
    case _ => false
  }

  /** Where a failing statement takes a purchase: caught errors compensate, the others end the call. */
  function BuyFault(pc: Phase): Phase {
    match pc
    case Asking => Finished(Failed)
    case Duplicate => Finished(Failed)
    case Ready(id, ext) => Declined(id)
    case Paid(id, ext) => Undelivered(id)
    case PeriodRead(id, ext, start) => Undelivered(id)
    case _ => Stopped(pc)
  }

  // ------------------------------------------------------------------- closing

  predicate Look(w: World, w': World, c: CallId)
    requires c in w.calls && w.calls[c].req.Close?
  {
    var r := w.calls[c].req;
    w' == w.To(c, if r.id in w.rows && r.permitted && w.rows[r.id].status == Queued
                  then Seen(w.rows[r.id]) else Finished(Failed))
  }

  /** The conditional transition: UPDATE … WHERE id AND status = QUEUED. */
  predicate Decide(w: World, w': World, c: CallId, row: Row)
    requires c in w.calls && w.calls[c].req.Close?
  {
    var r := w.calls[c].req;
    var wins := r.id in w.rows && w.rows[r.id].status == Queued;
    w' == w.To(c, if wins then Decided(row) else Finished(Failed)).(
            rows :=
              if wins then w.rows[r.id := w.rows[r.id].(status := if r.refuse then Refunded else Fulfilled)]
              else w.rows,
            closer := if wins then w.closer[r.id := c] else w.closer)
  }

  predicate GiveBack(w: World, w': World, c: CallId, row: Row)
    requires c in w.calls && w.calls[c].req.Close?
  {
    var r := w.calls[c].req;
    var due := r.refuse && row.amount > 0;
    var (books, o) := Post(w.books, Refund(row.user, row.amount, row.key, r.id));
    w' == w.To(c, if !due || Accepted(o) then Finished(Closed) else RefundFailed(row)).(
            books := if due then books else w.books)
  }

  /** UPDATE … SET status = QUEUED WHERE id AND status = REFUNDED. */
  predicate Requeue(w: World, w': World, c: CallId)
    requires c in w.calls && w.calls[c].req.Close?
  {
    var r := w.calls[c].req;
    var back := r.id in w.rows && w.rows[r.id].status == Refunded;
    w' == w.To(c, Finished(Failed)).(
            rows := if back then w.rows[r.id := w.rows[r.id].(status := Queued)] else w.rows,
            closer := if back then w.closer - {r.id} else w.closer)
  }

  predicate CloseStep(w: World, w': World, c: CallId)
    requires c in w.calls && w.calls[c].req.Close?
  {
    match w.calls[c].pc
    case Opening => Look(w, w', c)
    case Seen(row) => Decide(w, w', c, row)
    case Decided(row) => GiveBack(w, w', c, row)
    case RefundFailed(row) => Requeue(w, w', c)
    case _ => false
  }

  /** Where a failing statement takes a closing; only a failed refund has a way back. */
  function CloseFault(pc: Phase): Phase {
    match pc
    case Opening => Finished(Failed)
    case Seen(row) => Finished(Failed)
    case Decided(row) => RefundFailed(row)
    case _ => Stopped(pc)
  }

  // ---------------------------------------------------------------- transitions

  predicate Running(pc: Phase) {
    !pc.Finished? && !pc.Stopped?
  }

  /** An entry of the wallet that has nothing to do with add-ons. */
  predicate PostOther(w: World, w': World, r: Request) {
    var (books, o) := Post(w.books, r);
    w' == w.(books := books,
             outside :=
               if o.Posted? && r.user in w.outside then w.outside[r.user := w.outside[r.user] + r.Signed()]
               else w.outside)
  }

  /** Free purchases and fulfilled orders have no ledger statement that could fail. */
  predicate CanFail(call: Call) {
    if call.req.Buy? then call.req.free ==> !call.pc.Ready? && !call.pc.Undelivered?
    else call.pc.Decided? ==> call.req.refuse && call.pc.row.amount > 0
  }

  function FaultPhase(call: Call): Phase {
    if call.req.Buy? then BuyFault(call.pc) else CloseFault(call.pc)
  }

  ghost predicate StepBy(w: World, w': World, c: CallId, a: Action) {
    match a
    case Submit(r) =>
      && c !in w.calls && (r.Buy? ==> Keys.IsPurchaseKey(r.key))
      && w' == w.(calls := w.calls[c := Call(r, if r.Buy? then Asking else Opening)])
    case Proceed(now, newId) =>
      && c in w.calls && Running(w.calls[c].pc)
      && (if w.calls[c].req.Buy? then BuyStep(w, w', c, now, newId) else CloseStep(w, w', c))
    case Fail => c in w.calls && Running(w.calls[c].pc) && CanFail(w.calls[c]) && w' == w.To(c, FaultPhase(w.calls[c]))
    case Crash => c in w.calls && Running(w.calls[c].pc) && w' == w.Halt(c)
    case Other(r) => (r.key.Some? ==> !Keys.IsAddonKey(r.key.value)) && PostOther(w, w', r)
  }

  ghost predicate Next(w: World, w': World) {
    exists c, a :: StepBy(w, w', c, a)
  }

  /** A service with no add-on bought yet, over wallets and support periods in any state. */
  ghost predicate Init(w: World) {
    && w.rows == map[] && w.tickets == [] && w.calls == map[]
    && w.born == map[] && w.order == [] && w.closer == map[]
    && UniqueKeys(w.books.entries)
    && w.outside.Keys == w.books.accounts.Keys
    && (forall u | u in w.outside :: w.outside[u] == w.books.accounts[u].balance)
    && (forall e | e in w.books.entries :: e.key.Some? ==> !Keys.IsAddonKey(e.key.value))
  }

  ghost predicate NextAt(run: seq<World>, i: nat) {
    i + 1 < |run| && Next(run[i], run[i + 1])
  }

  ghost predicate Run(run: seq<World>) {
    && run != [] && Init(run[0])
    && forall i: nat {:trigger NextAt(run, i)} | i + 1 < |run| :: NextAt(run, i)
  }
}
