/**
 * The purchase and the closing of an order as the code runs them, statement after statement, updating the
 * tables in place. Run without interruption each is one run of the protocol's own steps (`Path`), so whatever
 * `ProtocolTheorems` proves of all interleavings holds of this code among any others; and run alone each
 * leaves exactly the state its contract names.
 */
module AddonService {
  import opened Options
  import opened Ledger
  import opened Protocol
  import opened ProtocolInvariant
  import opened ProtocolSteps
  import Keys

  /** Which statements of a purchase fail when they are reached. */
  datatype Faults = Faults(create: bool, reread: bool, check: bool, release: bool, debit: bool,
                           deliver: bool, write: bool, refund: bool, settle: bool)

  /** Which statements of a closing fail when they are reached. */
  datatype CloseFaults = CloseFaults(look: bool, decide: bool, refund: bool, requeue: bool)

  ghost predicate Path(path: seq<World>, c: CallId) {
    path != [] && forall i | 0 <= i < |path| - 1 :: Moves(path[i], path[i + 1], c)
  }

  ghost predicate Moves(w: World, w': World, c: CallId) {
    exists a :: StepBy(w, w', c, a)
  }

  lemma Extend(path: seq<World>, w: World, w': World, c: CallId, a: Action)
    requires Path(path, c) && path[|path| - 1] == w && StepBy(w, w', c, a)
    ensures Path(path + [w'], c)
  {
  }

  // ------------------------------------------------- the steps that the statements make

  lemma ClaimMade(w: World, w': World, c: CallId, r: CallRequest, newId: RowId, taken: bool)
    requires c in w.calls && r.Buy? && w.calls[c] == Call(r, Asking) && (taken <==> InUse(w.rows, r.key))
    requires newId !in w.born && Keys.RowIdShape(newId)
    requires w' == w.(calls := w.calls[c := Call(r, if taken then Duplicate else Claimed(newId))],
                      rows := if taken then w.rows else w.rows[newId := PendingRowOf(r)],
                      born := if taken then w.born
                              else w.born[newId := Birth(r.user, r.addon, r.Amount(), r.key, c)],
                      order := if taken then w.order else w.order + [newId])
    ensures StepBy(w, w', c, Proceed(0, newId))
  {
    assert Claim(w, w', c, newId);
  }

  lemma PaymentTaken(w: World, w': World, c: CallId, r: CallRequest, id: RowId, ext: bool, paid: bool)
    requires c in w.calls && r.Buy? && w.calls[c] == Call(r, Ready(id, ext))
    requires var (books, o) := Post(w.books, Charge(r.user, r.Amount(), r.key, id));
             && paid == (r.free || Accepted(o))
             && w' == w.(calls := w.calls[c := Call(r, if paid then Paid(id, ext) else Declined(id))],
                         books := if r.free then w.books else books)
    ensures StepBy(w, w', c, Proceed(0, id))
  {
    assert TakePayment(w, w', c, id, ext);
  }

  lemma PaidBack(w: World, w': World, c: CallId, r: CallRequest, id: RowId, back: bool)
    requires c in w.calls && r.Buy? && w.calls[c] == Call(r, Undelivered(id))
    requires var (books, o) := Post(w.books, Refund(r.user, r.Amount(), r.key, id));
             && back == (r.free || Accepted(o))
             && w' == w.(calls := w.calls[c := Call(r, if back then Returned(id) else Stopped(Undelivered(id)))],
                         books := if r.free then w.books else books)
    ensures StepBy(w, w', c, Proceed(0, id))
  {
    assert PayBack(w, w', c, id);
  }

  lemma OrderDecided(w: World, w': World, c: CallId, r: CallRequest, row: Row, won: bool)
    requires c in w.calls && r.Close? && w.calls[c] == Call(r, Seen(row))
    requires won <==> r.id in w.rows && w.rows[r.id].status == Queued
    requires w' == w.(calls := w.calls[c := Call(r, if won then Decided(row) else Finished(Failed))],
                      rows := if won then w.rows[r.id := w.rows[r.id].(status := StatusAfter(r))] else w.rows,
                      closer := if won then w.closer[r.id := c] else w.closer)
    ensures StepBy(w, w', c, Proceed(0, ""))
  {
    assert Decide(w, w', c, row);
  }

  lemma OrderRefunded(w: World, w': World, c: CallId, r: CallRequest, row: Row, back: bool)
    requires c in w.calls && r.Close? && w.calls[c] == Call(r, Decided(row))
    requires var due := r.refuse && row.amount > 0;
             var (books, o) := Post(w.books, Refund(row.user, row.amount, row.key, r.id));
             && back == (!due || Accepted(o))
             && w' == w.(calls := w.calls[c := Call(r, if back then Finished(Closed) else RefundFailed(row))],
                         books := if due then books else w.books)
    ensures StepBy(w, w', c, Proceed(0, ""))
  {
    assert GiveBack(w, w', c, row);
  }

  lemma {:induction false} PathKeepsInv(path: seq<World>, c: CallId)
    requires Path(path, c) && Inv(path[0])
    ensures Inv(path[|path| - 1])
    decreases |path|
  {
    if |path| == 1 {
    } else {
      var front := path[..|path| - 1];
      assert forall i | 0 <= i < |front| - 1 :: Moves(path[i], path[i + 1], c);
      PathKeepsInv(front, c);
      assert Moves(path[|path| - 2], path[|path| - 1], c);
      var a :| StepBy(path[|path| - 2], path[|path| - 1], c, a);
      StepKeepsInv(path[|path| - 2], path[|path| - 1], c, a);
    }
  }

  /** What a closing makes of the order's status. */
  function StatusAfter(r: CallRequest): Status
    requires r.Close?
  {
    if r.refuse then Refunded else Fulfilled
  }

  // --------------------------------------------------------- what a purchase run alone does

  /** The row of a purchase that went through when there were `tickets` before it. */
  function BoughtRow(tickets: seq<Ticket>, r: CallRequest, ext: bool): Row
    requires r.Buy?
  {
    var period := r.addon == PrioritySupport;
    Row(r.user, r.addon, r.Amount(), r.key, if period then Applied else Queued,
        if period then None else Some(|tickets|), ext)
  }

  function TicketsAfter(tickets: seq<Ticket>, r: CallRequest, id: RowId): seq<Ticket>
    requires r.Buy?
  {
    if r.addon == PrioritySupport then tickets else tickets + [Ticket(r.user, id)]
  }

  /** The support periods after a purchase delivered at `now`. */
  function SupportAfter(support: map<UserId, Support>, r: CallRequest, now: Time): map<UserId, Support>
    requires r.Buy?
  {
    if r.addon == PrioritySupport
    then support[r.user := Support(true, Some(ExtendFrom(SupportIn(support, r.user), now) + PERIOD_MS))]
    else support
  }

  ghost predicate BoughtState(w: World, w': World, r: CallRequest, id: RowId, checked: Time, delivered: Time)
    requires r.Buy?
  {
    var ext := r.addon == PrioritySupport && PriorityActive(w.SupportOf(r.user), checked);
    var (books, o) := Post(w.books, Charge(r.user, r.Amount(), r.key, id));
    && !InUse(w.rows, r.key) && (ext ==> r.extend)
    && w'.rows == w.rows[id := BoughtRow(w.tickets, r, ext)]
    && w'.support == SupportAfter(w.support, r, delivered)
    && w'.tickets == TicketsAfter(w.tickets, r, id)
    && (if r.free then w'.books == w.books else o.Posted? && w'.books == books)
  }

  ghost predicate SameTables(w: World, w': World) {
    w'.rows == w.rows && w'.tickets == w.tickets && w'.support == w.support && w'.books == w.books
  }

  /** Nothing a user could notice has changed. */
  ghost predicate SameForUsers(w: World, w': World) {
    w'.rows == w.rows && w'.tickets == w.tickets && w'.support == w.support && w'.books.accounts == w.books.accounts
  }

  /** The claimed row of a purchase that has not been settled. */
  function PendingRowOf(r: CallRequest): Row
    requires r.Buy?
  {
    Row(r.user, r.addon, r.Amount(), r.key, Pending, None, false)
  }

  ghost predicate PurchaseOutcome(w: World, w': World, r: CallRequest, id: RowId, checked: Time, delivered: Time,
                                  answer: Option<Result>)
    requires r.Buy?
  {
    match answer
    case Some(Bought(i)) => i == id && BoughtState(w, w', r, id, checked, delivered)
    case Some(Repeated(i)) => Holds(w.rows, r.key, i) && SameForUsers(w, w')
    case Some(Released(i)) => i == id && SameForUsers(w, w')
    case Some(Failed) => SameForUsers(w, w')
    case Some(Closed) => false
    case None => LeftBehind(w, w', r, id, delivered)
  }

  /**
   * What an error that reaches the caller may leave beside the claimed row: nothing (or everything taken back
   * already), a payment not delivered and not refunded, or a payment with all that was bought for it.
   */
  ghost predicate LeftBehind(w: World, w': World, r: CallRequest, id: RowId, delivered: Time)
    requires r.Buy?
  {
    && w'.rows == w.rows[id := PendingRowOf(r)]
    && (if w'.tickets == w.tickets && w'.support == w.support
        then w'.books.accounts == w.books.accounts || ChargedWallet(w.books, w'.books, r, id)
        else
          && ChargedWallet(w.books, w'.books, r, id)
          && w'.tickets == TicketsAfter(w.tickets, r, id) && w'.support == SupportAfter(w.support, r, delivered))
  }

  /** The charge, if the purchase is not free, has been accepted. */
  ghost predicate ChargedWallet(before: Books, after: Books, r: CallRequest, id: RowId)
    requires r.Buy?
  {
    var (books, o) := Post(before, Charge(r.user, r.Amount(), r.key, id));
    if r.free then after == before else Accepted(o) && after == books
  }

  function BooksAfterClose(b: Books, r: CallRequest, row: Row): Books
    requires r.Close?
  {
    if r.refuse && row.amount > 0 then Post(b, Refund(row.user, row.amount, row.key, r.id)).0 else b
  }

  /** What a closing run alone does. */
  ghost predicate CloseOutcome(w: World, w': World, r: CallRequest, answer: Option<Result>)
    requires r.Close?
  {
    match answer
    case Some(Closed) =>
      && r.permitted && r.id in w.rows && w.rows[r.id].status == Queued
      && var row := w.rows[r.id];
      && w'.rows == w.rows[r.id := row.(status := StatusAfter(r))]
      && w'.books == BooksAfterClose(w.books, r, row)
    case Some(Failed) => w'.rows == w.rows && w'.books == w.books
    case Some(_) => false
    case None =>
      && r.refuse && r.id in w.rows
      && w'.rows == w.rows[r.id := w.rows[r.id].(status := Refunded)] && w'.books == w.books
  }

  class AddonService {
    const wallet: WalletLedger
    var rows: map<RowId, Row>
    var tickets: seq<Ticket>
    var support: map<UserId, Support>

    ghost var calls: map<CallId, Call>
    ghost var born: map<RowId, Birth>
    ghost var order: seq<RowId>
    ghost var closer: map<RowId, CallId>
    ghost var outside: map<UserId, int>

    ghost function Now(): World
      reads this, wallet
    {
      World(wallet.Contents(), rows, tickets, support, calls, born, order, closer, outside)
    }

    constructor (wallet: WalletLedger)
      ensures this.wallet == wallet
      ensures wallet.entries == [] ==> Init(Now())
    {
      this.wallet := wallet;
      rows, tickets, support := map[], [], map[];
      calls, born, order, closer := map[], map[], [], map[];
      outside := map u | u in wallet.accounts :: wallet.accounts[u].balance;
    }

    /** A run of call `c`'s steps that ends in the present state. */
    ghost predicate Leads(path: seq<World>, c: CallId)
      reads this, wallet
    {
      Path(path, c) && path[|path| - 1] == Now()
    }

    // ---------------------------------------------------------------- single statements
    // Each takes the run so far, `path`, and returns it one protocol step longer.

    /** Call `c` ends as a failing statement or a stop makes it. */
    ghost method Conclude(c: CallId, a: Action, path: seq<World>) returns (longer: seq<World>)
      requires c in calls && Running(calls[c].pc) && Leads(path, c)
      requires (a == Fail && CanFail(calls[c])) || a == Crash
      modifies this`calls
      ensures calls == old(calls)[c :=
                old(calls)[c].(pc := if a == Fail then FaultPhase(old(calls)[c]) else Stopped(old(calls)[c].pc))]
      ensures Leads(longer, c) && longer[0] == path[0]
    {
      ghost var w := Now();
      calls := calls[c := calls[c].(pc := if a == Fail then FaultPhase(calls[c]) else Stopped(calls[c].pc))];
      Extend(path, w, Now(), c, a);
      longer := path + [Now()];
    }

    /** The unique index. */
    method KeyTaken(key: string) returns (taken: bool)
      ensures taken <==> InUse(rows, key)
    {
      taken := exists id :: id in rows && rows[id].key == key;
      TakenMeansInUse(rows, key);
    }

    method CreateRow(ghost c: CallId, r: CallRequest, newId: RowId, ghost path: seq<World>)
      returns (taken: bool, ghost longer: seq<World>)
      requires c in calls && r.Buy? && calls[c] == Call(r, Asking) && Leads(path, c)
      requires newId !in born && Keys.RowIdShape(newId)
      modifies this`rows, this`born, this`order, this`calls
      ensures taken <==> InUse(old(rows), r.key)
      ensures calls == old(calls)[c := Call(r, if taken then Duplicate else Claimed(newId))]
      ensures rows == if taken then old(rows) else old(rows)[newId := PendingRowOf(r)]
      ensures Leads(longer, c) && longer[0] == path[0]
    {
      ghost var w := Now();
      taken := KeyTaken(r.key);
      if !taken {
        rows := rows[newId := PendingRowOf(r)];
        born := born[newId := Birth(r.user, r.addon, r.Amount(), r.key, c)];
        order := order + [newId];
      }
      calls := calls[c := Call(r, if taken then Duplicate else Claimed(newId))];
      ghost var w' := Now();
      ClaimMade(w, w', c, r, newId, taken);
      Extend(path, w, w', c, Proceed(0, newId));
      longer := path + [w'];
    }

    method FindByKey(ghost c: CallId, r: CallRequest, ghost path: seq<World>)
      returns (id: RowId, ghost longer: seq<World>)
      requires c in calls && r.Buy? && calls[c] == Call(r, Duplicate) && InUse(rows, r.key) && Leads(path, c)
      modifies this`calls
      ensures Holds(rows, r.key, id)
      ensures calls == old(calls)[c := Call(r, Finished(Repeated(id)))]
      ensures Leads(longer, c) && longer[0] == path[0]
    {
      ghost var w := Now();
      ghost var known :| Holds(rows, r.key, known);
      assert known in rows && rows[known].key == r.key;
      id :| id in rows && rows[id].key == r.key;
      calls := calls[c := Call(r, Finished(Repeated(id)))];
      assert ReadDuplicate(w, Now(), c);
      Extend(path, w, Now(), c, Proceed(0, id));
      longer := path + [Now()];
    }

    method RunningPeriod(ghost c: CallId, r: CallRequest, id: RowId, now: Time, ghost path: seq<World>)
      returns (active: bool, ghost longer: seq<World>)
      requires c in calls && r.Buy? && calls[c] == Call(r, Claimed(id)) && Leads(path, c)
      modifies this`calls
      ensures active == (r.addon == PrioritySupport && PriorityActive(Now().SupportOf(r.user), now))
      ensures calls == old(calls)[c := Call(r, if active && !r.extend then Rejected(id) else Ready(id, active))]
      ensures Leads(longer, c) && longer[0] == path[0]
    {
      ghost var w := Now();
      var s := SupportIn(support, r.user);
      active := r.addon == PrioritySupport && PriorityActive(s, now);
      calls := calls[c := Call(r, if active && !r.extend then Rejected(id) else Ready(id, active))];
      assert CheckPeriod(w, Now(), c, id, now);
      Extend(path, w, Now(), c, Proceed(now, id));
      longer := path + [Now()];
    }

    method DeleteRow(ghost c: CallId, r: CallRequest, id: RowId, ghost path: seq<World>)
      returns (ghost longer: seq<World>)
      requires c in calls && r.Buy? && calls[c].req == r && Leads(path, c)
      requires calls[c].pc == Rejected(id) || calls[c].pc == Declined(id) || calls[c].pc == Returned(id)
      modifies this`rows, this`calls
      ensures rows == old(rows) - {id} && calls == old(calls)[c := Call(r, Finished(Released(id)))]
      ensures Leads(longer, c) && longer[0] == path[0]
    {
      ghost var w := Now();
      rows := rows - {id};
      calls := calls[c := Call(r, Finished(Released(id)))];
      assert Drop(w, Now(), c, id);
      Extend(path, w, Now(), c, Proceed(0, id));
      longer := path + [Now()];
    }

    method ChargeWallet(ghost c: CallId, r: CallRequest, id: RowId, ghost ext: bool, ghost path: seq<World>)
      returns (paid: bool, ghost longer: seq<World>)
      requires c in calls && r.Buy? && calls[c] == Call(r, Ready(id, ext)) && Leads(path, c)
      modifies this`calls, wallet
      ensures calls == old(calls)[c := Call(r, if paid then Paid(id, ext) else Declined(id))]
      ensures var (books, o) := Post(old(wallet.Contents()), Charge(r.user, r.Amount(), r.key, id));
              if r.free then paid && wallet.Contents() == old(wallet.Contents())
              else paid == Accepted(o) && wallet.Contents() == books
      ensures Leads(longer, c) && longer[0] == path[0]
    {
      ghost var w := Now();
      paid := true;
      if !r.free {
        var o := wallet.ApplyEntry(Charge(r.user, r.Amount(), r.key, id));
        paid := Accepted(o);
      }
      calls := calls[c := Call(r, if paid then Paid(id, ext) else Declined(id))];
      PaymentTaken(w, Now(), c, r, id, ext, paid);
      Extend(path, w, Now(), c, Proceed(0, id));
      longer := path + [Now()];
    }

    method OpenOrder(ghost c: CallId, r: CallRequest, id: RowId, ghost ext: bool, ghost path: seq<World>)
      returns (ticket: nat, ghost longer: seq<World>)
      requires c in calls && r.Buy? && calls[c] == Call(r, Paid(id, ext)) && Leads(path, c)
      requires r.addon != PrioritySupport
      modifies this`tickets, this`calls
      ensures ticket == |old(tickets)| && tickets == old(tickets) + [Ticket(r.user, id)]
      ensures calls == old(calls)[c := Call(r, Delivered(id, ext, Queued, Some(ticket)))]
      ensures Leads(longer, c) && longer[0] == path[0]
    {
      ghost var w := Now();
      ticket := |tickets|;
      tickets := tickets + [Ticket(r.user, id)];
      calls := calls[c := Call(r, Delivered(id, ext, Queued, Some(ticket)))];
      assert Deliver(w, Now(), c, id, ext, 0);
      Extend(path, w, Now(), c, Proceed(0, id));
      longer := path + [Now()];
    }

    method ReadPeriod(ghost c: CallId, r: CallRequest, id: RowId, ghost ext: bool, now: Time, ghost path: seq<World>)
      returns (start: Time, ghost longer: seq<World>)
      requires c in calls && r.Buy? && calls[c] == Call(r, Paid(id, ext)) && Leads(path, c)
      requires r.addon == PrioritySupport
      modifies this`calls
      ensures start == ExtendFrom(Now().SupportOf(r.user), now)
      ensures calls == old(calls)[c := Call(r, PeriodRead(id, ext, start))]
      ensures Leads(longer, c) && longer[0] == path[0]
    {
      ghost var w := Now();
      var s := SupportIn(support, r.user);
      start := ExtendFrom(s, now);
      calls := calls[c := Call(r, PeriodRead(id, ext, start))];
      assert Deliver(w, Now(), c, id, ext, now);
      Extend(path, w, Now(), c, Proceed(now, id));
      longer := path + [Now()];
    }

    method StorePeriod(ghost c: CallId, r: CallRequest, id: RowId, ghost ext: bool, start: Time, ghost path: seq<World>)
      returns (ghost longer: seq<World>)
      requires c in calls && r.Buy? && calls[c] == Call(r, PeriodRead(id, ext, start)) && Leads(path, c)
      modifies this`support, this`calls
      ensures support == old(support)[r.user := Support(true, Some(start + PERIOD_MS))]
      ensures calls == old(calls)[c := Call(r, Delivered(id, ext, Applied, None))]
      ensures Leads(longer, c) && longer[0] == path[0]
    {
      ghost var w := Now();
      support := support[r.user := Support(true, Some(start + PERIOD_MS))];
      calls := calls[c := Call(r, Delivered(id, ext, Applied, None))];
      assert WritePeriod(w, Now(), c, id, ext, start);
      Extend(path, w, Now(), c, Proceed(0, id));
      longer := path + [Now()];
    }

    method RefundWallet(ghost c: CallId, r: CallRequest, id: RowId, ghost path: seq<World>)
      returns (back: bool, ghost longer: seq<World>)
      requires c in calls && r.Buy? && calls[c] == Call(r, Undelivered(id)) && Leads(path, c)
      modifies this`calls, wallet
      ensures calls == old(calls)[c := Call(r, if back then Returned(id) else Stopped(Undelivered(id)))]
      ensures var (books, o) := Post(old(wallet.Contents()), Refund(r.user, r.Amount(), r.key, id));
              if r.free then back && wallet.Contents() == old(wallet.Contents())
              else back == Accepted(o) && wallet.Contents() == books
      ensures Leads(longer, c) && longer[0] == path[0]
    {
      ghost var w := Now();
      back := true;
      if !r.free {
        var o := wallet.ApplyEntry(Refund(r.user, r.Amount(), r.key, id));
        back := Accepted(o);
      }
      calls := calls[c := Call(r, if back then Returned(id) else Stopped(Undelivered(id)))];
      PaidBack(w, Now(), c, r, id, back);
      Extend(path, w, Now(), c, Proceed(0, id));
      longer := path + [Now()];
    }

    method SettleRow(ghost c: CallId, r: CallRequest, id: RowId, ext: bool, status: Status, ticket: Option<nat>,
                     ghost path: seq<World>)
      returns (ghost longer: seq<World>)
      requires c in calls && r.Buy? && calls[c] == Call(r, Delivered(id, ext, status, ticket)) && Leads(path, c)
      requires id in rows
      modifies this`rows, this`calls
      ensures rows == old(rows)[id := old(rows)[id].(status := status, ticket := ticket, extension := ext)]
      ensures calls == old(calls)[c := Call(r, Finished(Bought(id)))]
      ensures Leads(longer, c) && longer[0] == path[0]
    {
      ghost var w := Now();
      rows := rows[id := rows[id].(status := status, ticket := ticket, extension := ext)];
      calls := calls[c := Call(r, Finished(Bought(id)))];
      assert Settle(w, Now(), c, id, ext, status, ticket);
      Extend(path, w, Now(), c, Proceed(0, id));
      longer := path + [Now()];
    }

    method FindOrder(ghost c: CallId, r: CallRequest, ghost path: seq<World>)
      returns (row: Option<Row>, ghost longer: seq<World>)
      requires c in calls && r.Close? && calls[c] == Call(r, Opening) && Leads(path, c)
      modifies this`calls
      ensures row == if r.id in rows && r.permitted && rows[r.id].status == Queued then Some(rows[r.id]) else None
      ensures calls == old(calls)[c := Call(r, if row.Some? then Seen(row.value) else Finished(Failed))]
      ensures Leads(longer, c) && longer[0] == path[0]
    {
      ghost var w := Now();
      row := if r.id in rows && r.permitted && rows[r.id].status == Queued then Some(rows[r.id]) else None;
      calls := calls[c := Call(r, if row.Some? then Seen(row.value) else Finished(Failed))];
      assert Look(w, Now(), c);
      Extend(path, w, Now(), c, Proceed(0, ""));
      longer := path + [Now()];
    }

    method DecideOrder(ghost c: CallId, r: CallRequest, row: Row, ghost path: seq<World>)
      returns (won: bool, ghost longer: seq<World>)
      requires c in calls && r.Close? && calls[c] == Call(r, Seen(row)) && Leads(path, c)
      modifies this`rows, this`closer, this`calls
      ensures won <==> r.id in old(rows) && old(rows)[r.id].status == Queued
      ensures rows ==
              if won then old(rows)[r.id := old(rows)[r.id].(status := StatusAfter(r))]
              else old(rows)
      ensures calls == old(calls)[c := Call(r, if won then Decided(row) else Finished(Failed))]
      ensures Leads(longer, c) && longer[0] == path[0]
    {
      ghost var w := Now();
      won := r.id in rows && rows[r.id].status == Queued;
      if won {
        rows := rows[r.id := rows[r.id].(status := StatusAfter(r))];
        closer := closer[r.id := c];
      }
      calls := calls[c := Call(r, if won then Decided(row) else Finished(Failed))];
      OrderDecided(w, Now(), c, r, row, won);
      Extend(path, w, Now(), c, Proceed(0, ""));
      longer := path + [Now()];
    }

    method RefundOrder(ghost c: CallId, r: CallRequest, row: Row, ghost path: seq<World>)
      returns (back: bool, ghost longer: seq<World>)
      requires c in calls && r.Close? && calls[c] == Call(r, Decided(row)) && Leads(path, c)
      modifies this`calls, wallet
      ensures var due := r.refuse && row.amount > 0;
              var (books, o) := Post(old(wallet.Contents()), Refund(row.user, row.amount, row.key, r.id));
              if due then back == Accepted(o) && wallet.Contents() == books
              else back && wallet.Contents() == old(wallet.Contents())
      ensures calls == old(calls)[c := Call(r, if back then Finished(Closed) else RefundFailed(row))]
      ensures Leads(longer, c) && longer[0] == path[0]
    {
      ghost var w := Now();
      back := true;
      if r.refuse && row.amount > 0 {
        var o := wallet.ApplyEntry(Refund(row.user, row.amount, row.key, r.id));
        back := Accepted(o);
      }
      calls := calls[c := Call(r, if back then Finished(Closed) else RefundFailed(row))];
      OrderRefunded(w, Now(), c, r, row, back);
      Extend(path, w, Now(), c, Proceed(0, ""));
      longer := path + [Now()];
    }

    method RequeueOrder(ghost c: CallId, r: CallRequest, ghost path: seq<World>) returns (ghost longer: seq<World>)
      requires c in calls && r.Close? && calls[c].req == r && calls[c].pc.RefundFailed? && Leads(path, c)
      requires r.id in rows && rows[r.id].status == Refunded
      modifies this`rows, this`closer, this`calls
      ensures rows == old(rows)[r.id := old(rows)[r.id].(status := Queued)]
      ensures calls == old(calls)[c := Call(r, Finished(Failed))]
      ensures Leads(longer, c) && longer[0] == path[0]
    {
      ghost var w := Now();
      rows := rows[r.id := rows[r.id].(status := Queued)];
      closer := closer - {r.id};
      calls := calls[c := Call(r, Finished(Failed))];
      assert Requeue(w, Now(), c);
      Extend(path, w, Now(), c, Proceed(0, ""));
      longer := path + [Now()];
    }

    // --------------------------------------------------------------------- the purchase

    /** Removing the PENDING row frees the key again. */
    method Release(ghost c: CallId, r: CallRequest, id: RowId, f: Faults, ghost path: seq<World>)
      returns (answer: Option<Result>, ghost longer: seq<World>)
      requires c in calls && r.Buy? && calls[c].req == r && Leads(path, c)
      requires calls[c].pc == Rejected(id) || calls[c].pc == Declined(id) || calls[c].pc == Returned(id)
      modifies this`rows, this`calls
      ensures c in calls && calls[c].req == r && Answered(answer, calls[c].pc)
      ensures rows == if answer.None? then old(rows) else old(rows) - {id}
      ensures answer.Some? ==> answer.value == Released(id)
      ensures Leads(longer, c) && longer[0] == path[0]
    {
      if f.release {
        longer := Conclude(c, Crash, path);
        return None, longer;
      }
      longer := DeleteRow(c, r, id, path);
      answer := Some(Released(id));
    }

    /** The charge; a free purchase has none that could fail. */
    method TakeMoney(ghost c: CallId, r: CallRequest, id: RowId, ghost ext: bool, f: Faults, ghost path: seq<World>)
      returns (paid: bool, ghost longer: seq<World>)
      requires c in calls && r.Buy? && calls[c] == Call(r, Ready(id, ext)) && Leads(path, c)
      modifies this`calls, wallet
      ensures calls == old(calls)[c := Call(r, if paid then Paid(id, ext) else Declined(id))]
      ensures if paid then ChargedWallet(old(wallet.Contents()), wallet.Contents(), r, id)
              else wallet.Contents() == old(wallet.Contents())
      ensures Leads(longer, c) && longer[0] == path[0]
    {
      if !r.free && f.debit {
        longer := Conclude(c, Fail, path);
        return false, longer;
      }
      paid, longer := ChargeWallet(c, r, id, ext, path);
    }

    /** With the row claimed: the running-period check and the charge. */
    method Pay(ghost c: CallId, r: CallRequest, id: RowId, checked: Time, f: Faults, ghost path: seq<World>)
      returns (ready: bool, ext: bool, answer: Option<Result>, ghost longer: seq<World>)
      requires c in calls && r.Buy? && calls[c] == Call(r, Claimed(id)) && Leads(path, c)
      modifies this`rows, this`calls, wallet
      ensures c in calls && calls[c].req == r
      ensures Leads(longer, c) && longer[0] == path[0]
      ensures ready ==>
                && calls[c].pc == Paid(id, ext) && rows == old(rows)
                && ChargedWallet(old(wallet.Contents()), wallet.Contents(), r, id)
      ensures ready ==>
                && ext == (r.addon == PrioritySupport && PriorityActive(old(Now()).SupportOf(r.user), checked))
                && (ext ==> r.extend)
      ensures !ready ==>
                && Answered(answer, calls[c].pc) && wallet.Contents() == old(wallet.Contents())
                && rows == (if answer.None? then old(rows) else old(rows) - {id})
                && (answer.Some? ==> answer.value == Released(id))
    {
      ready, ext := false, false;
      if f.check {
        longer := Conclude(c, Crash, path);
        return false, false, None, longer;
      }
      var active;
      active, longer := RunningPeriod(c, r, id, checked, path);
      if active && !r.extend {
        answer, longer := Release(c, r, id, f, longer);
        return false, false, answer, longer;
      }
      ready, longer := TakeMoney(c, r, id, active, f, longer);
      if ready {
        return true, active, None, longer;
      }
      answer, longer := Release(c, r, id, f, longer);
    }

    /** From the key to the money: claims the row, refuses a running period, charges the wallet. */
    method Order(ghost c: CallId, r: CallRequest, newId: RowId, checked: Time, f: Faults, ghost path: seq<World>)
      returns (ready: bool, ext: bool, answer: Option<Result>, ghost longer: seq<World>)
      requires c in calls && r.Buy? && calls[c] == Call(r, Asking) && Leads(path, c)
      requires newId !in born && newId !in rows && Keys.RowIdShape(newId)
      modifies this`rows, this`born, this`order, this`calls, wallet
      ensures c in calls && calls[c].req == r
      ensures Leads(longer, c) && longer[0] == path[0]
      ensures ready ==>
                && calls[c].pc == Paid(newId, ext) && !InUse(old(rows), r.key)
                && ext == (r.addon == PrioritySupport && PriorityActive(old(Now()).SupportOf(r.user), checked))
                && (ext ==> r.extend)
                && rows == old(rows)[newId := PendingRowOf(r)]
                && ChargedWallet(old(wallet.Contents()), wallet.Contents(), r, newId)
      ensures !ready ==>
                && Answered(answer, calls[c].pc) && wallet.Contents() == old(wallet.Contents())
                && match answer
                   case None => rows == old(rows)[newId := PendingRowOf(r)]
                   case Some(Repeated(i)) => rows == old(rows) && Holds(rows, r.key, i)
                   case Some(Released(i)) => rows == old(rows) && i == newId
                   case Some(Failed) => rows == old(rows)
                   case Some(_) => false
    {
      ready, ext := false, false;
      if f.create {
        longer := Conclude(c, Fail, path);
        return false, false, Some(Failed), longer;
      }
      var taken;
      taken, longer := CreateRow(c, r, newId, path);
      if taken {
        if f.reread {
          longer := Conclude(c, Fail, longer);
          return false, false, Some(Failed), longer;
        }
        var id;
        id, longer := FindByKey(c, r, longer);
        return false, false, Some(Repeated(id)), longer;
      }
      ready, ext, answer, longer := Pay(c, r, newId, checked, f, longer);
      assert old(rows)[newId := PendingRowOf(r)] - {newId} == old(rows);
    }

    /** Fulfilment: the support period or the order with its ticket. */
    method Fulfil(ghost c: CallId, r: CallRequest, id: RowId, ghost ext: bool, now: Time, f: Faults,
                  ghost path: seq<World>)
      returns (done: bool, status: Status, ticket: Option<nat>, ghost longer: seq<World>)
      requires c in calls && r.Buy? && calls[c] == Call(r, Paid(id, ext)) && Leads(path, c)
      modifies this`tickets, this`support, this`calls
      ensures c in calls && calls[c].req == r && Leads(longer, c) && longer[0] == path[0]
      ensures done ==>
                && calls[c].pc == Delivered(id, ext, status, ticket)
                && PendingRowOf(r).(status := status, ticket := ticket, extension := ext)
                   == BoughtRow(old(tickets), r, ext)
                && support == SupportAfter(old(support), r, now) && tickets == TicketsAfter(old(tickets), r, id)
      ensures !done ==> calls[c].pc == Undelivered(id) && tickets == old(tickets) && support == old(support)
    {
      done, status, ticket := false, Applied, None;
      if r.addon == PrioritySupport {
        done, longer := ExtendPeriod(c, r, id, ext, now, f, path);
      } else if f.deliver {
        longer := Conclude(c, Fail, path);
      } else {
        var t;
        t, longer := OpenOrder(c, r, id, ext, path);
        done, status, ticket := true, Queued, Some(t);
      }
    }

    /** Priority support: reads the running period and writes the extended one. */
    method ExtendPeriod(ghost c: CallId, r: CallRequest, id: RowId, ghost ext: bool, now: Time, f: Faults,
                        ghost path: seq<World>)
      returns (done: bool, ghost longer: seq<World>)
      requires c in calls && r.Buy? && calls[c] == Call(r, Paid(id, ext)) && Leads(path, c)
      requires r.addon == PrioritySupport
      modifies this`support, this`calls
      ensures c in calls && calls[c] == Call(r, if done then Delivered(id, ext, Applied, None) else Undelivered(id))
      ensures support == if done then SupportAfter(old(support), r, now) else old(support)
      ensures Leads(longer, c) && longer[0] == path[0]
    {
      done := false;
      if f.deliver {
        longer := Conclude(c, Fail, path);
        return;
      }
      var start;
      start, longer := ReadPeriod(c, r, id, ext, now, path);
      if f.write {
        longer := Conclude(c, Fail, longer);
        return;
      }
      longer := StorePeriod(c, r, id, ext, start, longer);
      done := true;
    }

    /** After a failed fulfilment: the refund, then the key is freed. */
    method Compensate(ghost c: CallId, r: CallRequest, id: RowId, f: Faults, ghost path: seq<World>)
      returns (answer: Option<Result>, ghost longer: seq<World>)
      requires c in calls && r.Buy? && calls[c] == Call(r, Undelivered(id)) && Leads(path, c)
      modifies this`rows, this`calls, wallet
      ensures c in calls && calls[c].req == r && Answered(answer, calls[c].pc)
      ensures rows == if answer.None? then old(rows) else old(rows) - {id}
      ensures answer.Some? ==> answer.value == Released(id)
      ensures var given := if r.free then old(wallet.Contents())
                           else Post(old(wallet.Contents()), Refund(r.user, r.Amount(), r.key, id)).0;
              wallet.Contents() == given || (answer.None? && wallet.Contents() == old(wallet.Contents()))
      ensures Leads(longer, c) && longer[0] == path[0]
    {
      if !r.free && f.refund {
        longer := Conclude(c, Crash, path);
        return None, longer;
      }
      var back;
      back, longer := RefundWallet(c, r, id, path);
      if back {
        answer, longer := Release(c, r, id, f, longer);
      } else {
        answer := None;
      }
    }

    /** A failed fulfilment of a purchase begun in `w0`: everything is as it was, or the refund or release failed. */
    method Abandon(ghost c: CallId, r: CallRequest, id: RowId, f: Faults, ghost path: seq<World>, ghost w0: World)
      returns (answer: Option<Result>, ghost longer: seq<World>)
      requires c in calls && r.Buy? && calls[c] == Call(r, Undelivered(id)) && Leads(path, c)
      requires id !in w0.rows && CleanLedger(w0, r, id) && ChargedWallet(w0.books, wallet.Contents(), r, id)
      requires rows == w0.rows[id := PendingRowOf(r)]
      modifies this`rows, this`calls, wallet
      ensures Leads(longer, c) && longer[0] == path[0]
      ensures c in calls && calls[c].req == r && Answered(answer, calls[c].pc)
      ensures answer.None? ==>
                && rows == w0.rows[id := PendingRowOf(r)]
                && (|| wallet.Contents().accounts == w0.books.accounts
                    || ChargedWallet(w0.books, wallet.Contents(), r, id))
      ensures answer.Some? ==>
                answer.value == Released(id) && rows == w0.rows && wallet.Contents().accounts == w0.books.accounts
    {
      MoneyIsBack(w0, wallet.Contents(), r, id);
      answer, longer := Compensate(c, r, id, f, path);
      assert w0.rows[id := PendingRowOf(r)] - {id} == w0.rows;
    }

    /** The last statement of a purchase begun in `w0`. */
    method Confirm(ghost c: CallId, r: CallRequest, id: RowId, ext: bool, status: Status, ticket: Option<nat>,
                   f: Faults, ghost path: seq<World>, ghost w0: World)
      returns (answer: Option<Result>, ghost longer: seq<World>)
      requires c in calls && r.Buy? && calls[c] == Call(r, Delivered(id, ext, status, ticket)) && Leads(path, c)
      requires rows == w0.rows[id := PendingRowOf(r)]
      requires PendingRowOf(r).(status := status, ticket := ticket, extension := ext) == BoughtRow(w0.tickets, r, ext)
      modifies this`rows, this`calls
      ensures Leads(longer, c) && longer[0] == path[0]
      ensures c in calls && calls[c].req == r && Answered(answer, calls[c].pc)
      ensures answer.None? ==> rows == w0.rows[id := PendingRowOf(r)]
      ensures answer.Some? ==> answer.value == Bought(id) && rows == w0.rows[id := BoughtRow(w0.tickets, r, ext)]
    {
      if f.settle {
        longer := Conclude(c, Crash, path);
        return None, longer;
      }
      longer := SettleRow(c, r, id, ext, status, ticket, path);
      answer := Some(Bought(id));
      assert rows == w0.rows[id := BoughtRow(w0.tickets, r, ext)];
    }

    /** The rest of a purchase once it is paid for; `w0` is the state the purchase began in. */
    method Finish(ghost c: CallId, r: CallRequest, id: RowId, ext: bool, delivered: Time, f: Faults,
                  ghost path: seq<World>, ghost w0: World)
      returns (answer: Option<Result>, ghost longer: seq<World>)
      requires c in calls && r.Buy? && calls[c] == Call(r, Paid(id, ext)) && Leads(path, c)
      requires id !in w0.rows && CleanLedger(w0, r, id) && ChargedWallet(w0.books, wallet.Contents(), r, id)
      requires rows == w0.rows[id := PendingRowOf(r)] && tickets == w0.tickets && support == w0.support
      modifies this`rows, this`tickets, this`support, this`calls, wallet
      ensures Leads(longer, c) && longer[0] == path[0]
      ensures c in calls && calls[c].req == r && Answered(answer, calls[c].pc)
      ensures answer.None? ==> LeftBehind(w0, Now(), r, id, delivered)
      ensures answer.Some? ==> answer.value == Bought(id) || answer.value == Released(id)
      ensures answer == Some(Bought(id)) ==>
                && rows == w0.rows[id := BoughtRow(w0.tickets, r, ext)]
                && support == SupportAfter(w0.support, r, delivered)
                && tickets == TicketsAfter(w0.tickets, r, id)
                && ChargedWallet(w0.books, wallet.Contents(), r, id)
      ensures answer == Some(Released(id)) ==>
                && rows == w0.rows && tickets == w0.tickets && support == w0.support
                && wallet.Contents().accounts == w0.books.accounts
    {
      var done, status, ticket;
      done, status, ticket, longer := Fulfil(c, r, id, ext, delivered, f, path);
      if done {
        answer, longer := Confirm(c, r, id, ext, status, ticket, f, longer, w0);
      } else {
        answer, longer := Abandon(c, r, id, f, longer, w0);
      }
    }

    /** `zrealizuj`: the whole purchase. An answer of None is an error that left the claimed row (`LeftBehind`). */
    method Purchase(ghost c: CallId, r: CallRequest, newId: RowId, checked: Time, delivered: Time, f: Faults)
      returns (answer: Option<Result>, ghost path: seq<World>)
      requires r.Buy? && Keys.IsPurchaseKey(r.key) && c !in calls && Inv(Now())
      requires newId !in born && Keys.RowIdShape(newId)
      modifies this, wallet
      ensures Leads(path, c) && path[0] == old(Now()).(calls := old(calls)[c := Call(r, Asking)])
      ensures Inv(Now()) && c in calls && calls[c].req == r && Answered(answer, calls[c].pc)
      ensures PurchaseOutcome(old(Now()), Now(), r, newId, checked, delivered, answer)
    {
      NewIdUnused(Now(), r, newId);
      ghost var w0 := Now();
      path := Begin(c, r);
      answer, path := Carry(c, r, newId, checked, delivered, f, path, w0);
      PathKeepsInv(path, c);
    }

    method Carry(ghost c: CallId, r: CallRequest, newId: RowId, checked: Time, delivered: Time, f: Faults,
                 ghost path: seq<World>, ghost w0: World)
      returns (answer: Option<Result>, ghost longer: seq<World>)
      requires c in calls && r.Buy? && calls[c] == Call(r, Asking) && Leads(path, c)
      requires newId !in born && newId !in rows && Keys.RowIdShape(newId) && CleanLedger(w0, r, newId)
      requires SameTables(w0, Now())
      modifies this, wallet
      ensures Leads(longer, c) && longer[0] == path[0]
      ensures c in calls && calls[c].req == r && Answered(answer, calls[c].pc)
      ensures PurchaseOutcome(w0, Now(), r, newId, checked, delivered, answer)
    {
      var ready, ext;
      ready, ext, answer, longer := Order(c, r, newId, checked, f, path);
      if ready {
        answer, longer := Finish(c, r, newId, ext, delivered, f, longer, w0);
        PaidOutcome(w0, Now(), r, newId, ext, checked, delivered, answer);
      }
    }

    /** The call arrives. */
    ghost method Begin(c: CallId, r: CallRequest) returns (path: seq<World>)
      requires c !in calls && Inv(Now()) && (r.Buy? ==> Keys.IsPurchaseKey(r.key))
      modifies this`calls
      ensures calls == old(calls)[c := Call(r, if r.Buy? then Asking else Opening)]
      ensures path == [Now()] && Leads(path, c) && Inv(Now())
    {
      ghost var w := Now();
      calls := calls[c := Call(r, if r.Buy? then Asking else Opening)];
      assert StepBy(w, Now(), c, Submit(r));
      StepKeepsInv(w, Now(), c, Submit(r));
      path := [Now()];
    }

    // ------------------------------------------------------------------ closing an order

    /** The refund of a refused order; a fulfilled one has no statement that could fail. */
    method TryRefund(ghost c: CallId, r: CallRequest, row: Row, f: CloseFaults, ghost path: seq<World>)
      returns (back: bool, ghost longer: seq<World>)
      requires c in calls && r.Close? && calls[c] == Call(r, Decided(row)) && Leads(path, c)
      modifies this`calls, wallet
      ensures calls == old(calls)[c := Call(r, if back then Finished(Closed) else RefundFailed(row))]
      ensures wallet.Contents() ==
              if back then BooksAfterClose(old(wallet.Contents()), r, row) else old(wallet.Contents())
      ensures !back ==> r.refuse
      ensures Leads(longer, c) && longer[0] == path[0]
    {
      if r.refuse && row.amount > 0 && f.refund {
        back := false;
        longer := Conclude(c, Fail, path);
      } else {
        back, longer := RefundOrder(c, r, row, path);
      }
    }

    /** The refund of a refused order, and the way back to the queue when it fails. */
    method ReturnMoney(ghost c: CallId, r: CallRequest, row: Row, f: CloseFaults, ghost path: seq<World>)
      returns (answer: Option<Result>, ghost longer: seq<World>)
      requires c in calls && r.Close? && calls[c] == Call(r, Decided(row)) && Leads(path, c)
      requires row.status == Queued && r.id in rows
      requires rows[r.id] == row.(status := StatusAfter(r))
      modifies this`rows, this`closer, this`calls, wallet
      ensures Leads(longer, c) && longer[0] == path[0]
      ensures c in calls && calls[c].req == r && Answered(answer, calls[c].pc)
      ensures match answer
              case None => r.refuse && rows == old(rows) && wallet.Contents() == old(wallet.Contents())
              case Some(Closed) =>
                rows == old(rows) && wallet.Contents() == BooksAfterClose(old(wallet.Contents()), r, row)
              case Some(Failed) => rows == old(rows)[r.id := row] && wallet.Contents() == old(wallet.Contents())
              case Some(_) => false
    {
      var back;
      back, longer := TryRefund(c, r, row, f, path);
      if back {
        return Some(Closed), longer;
      }
      if f.requeue {
        longer := Conclude(c, Crash, longer);
        return None, longer;
      }
      longer := RequeueOrder(c, r, longer);
      answer := Some(Failed);
    }

    /** `zamknijZlecenie`: an answer of None is an error that left the order refused but not refunded. */
    method CloseOrder(ghost c: CallId, r: CallRequest, f: CloseFaults)
      returns (answer: Option<Result>, ghost path: seq<World>)
      requires r.Close? && c !in calls && Inv(Now())
      modifies this`rows, this`closer, this`calls, wallet
      ensures Leads(path, c) && path[0] == old(Now()).(calls := old(calls)[c := Call(r, Opening)])
      ensures Inv(Now()) && c in calls && calls[c].req == r && Answered(answer, calls[c].pc)
      ensures CloseOutcome(old(Now()), Now(), r, answer)
    {
      path := Begin(c, r);
      answer, path := Conduct(c, r, f, path);
      PathKeepsInv(path, c);
    }

    method Conduct(ghost c: CallId, r: CallRequest, f: CloseFaults, ghost path: seq<World>)
      returns (answer: Option<Result>, ghost longer: seq<World>)
      requires c in calls && r.Close? && calls[c] == Call(r, Opening) && Leads(path, c)
      modifies this`rows, this`closer, this`calls, wallet
      ensures Leads(longer, c) && longer[0] == path[0]
      ensures c in calls && calls[c].req == r && Answered(answer, calls[c].pc)
      ensures CloseOutcome(old(Now()), Now(), r, answer)
    {
      if f.look {
        longer := Conclude(c, Fail, path);
        return Some(Failed), longer;
      }
      var row;
      row, longer := FindOrder(c, r, path);
      if row.None? {
        return Some(Failed), longer;
      }
      if f.decide {
        longer := Conclude(c, Fail, longer);
        return Some(Failed), longer;
      }
      var won;
      won, longer := DecideOrder(c, r, row.value, longer);
      answer, longer := Settled(c, r, row.value, f, longer, old(Now()));
    }

    /** The closing once it has won the order, begun in `w0`. */
    method Settled(ghost c: CallId, r: CallRequest, row: Row, f: CloseFaults, ghost path: seq<World>, ghost w0: World)
      returns (answer: Option<Result>, ghost longer: seq<World>)
      requires c in calls && r.Close? && calls[c] == Call(r, Decided(row)) && Leads(path, c)
      requires r.permitted && r.id in w0.rows && w0.rows[r.id] == row && row.status == Queued
      requires wallet.Contents() == w0.books
      requires rows == w0.rows[r.id := row.(status := StatusAfter(r))]
      modifies this`rows, this`closer, this`calls, wallet
      ensures Leads(longer, c) && longer[0] == path[0]
      ensures c in calls && calls[c].req == r && Answered(answer, calls[c].pc)
      ensures CloseOutcome(w0, Now(), r, answer)
    {
      answer, longer := ReturnMoney(c, r, row, f, path);
      assert w0.rows[r.id := row.(status := StatusAfter(r))][r.id := row] == w0.rows;
    }
  }

  lemma TakenMeansInUse(rows: map<RowId, Row>, key: string)
    ensures (exists id :: id in rows && rows[id].key == key) <==> InUse(rows, key)
  {
    if id :| Holds(rows, key, id) {
      assert id in rows && rows[id].key == key;
    }
    if id :| id in rows && rows[id].key == key {
      assert Holds(rows, key, id);
    }
  }

  /** The row's two ledger keys are unused. */
  ghost predicate CleanLedger(w: World, r: CallRequest, id: RowId)
    requires r.Buy?
  {
    && !HasKey(w.books.entries, Keys.ChargeKey(Some(r.key), id))
    && !HasKey(w.books.entries, Keys.RefundKey(Some(r.key), id))
    && Keys.RowIdShape(id)
  }

  /** What `Finish` leaves is an outcome of the purchase. */
  lemma PaidOutcome(w0: World, w: World, r: CallRequest, id: RowId, ext: bool, checked: Time, delivered: Time,
                    answer: Option<Result>)
    requires r.Buy? && CleanLedger(w0, r, id) && !InUse(w0.rows, r.key)
    requires ext == (r.addon == PrioritySupport && PriorityActive(w0.SupportOf(r.user), checked)) && (ext ==> r.extend)
    requires answer.None? ==> LeftBehind(w0, w, r, id, delivered)
    requires answer.Some? ==> answer.value == Bought(id) || answer.value == Released(id)
    requires answer == Some(Bought(id)) ==>
               && w.rows == w0.rows[id := BoughtRow(w0.tickets, r, ext)]
               && w.support == SupportAfter(w0.support, r, delivered)
               && w.tickets == TicketsAfter(w0.tickets, r, id) && ChargedWallet(w0.books, w.books, r, id)
    requires answer == Some(Released(id)) ==> SameForUsers(w0, w)
    ensures PurchaseOutcome(w0, w, r, id, checked, delivered, answer)
  {
  }

  lemma NewIdUnused(w: World, r: CallRequest, newId: RowId)
    requires Inv(w) && r.Buy? && Keys.IsPurchaseKey(r.key) && newId !in w.born && Keys.RowIdShape(newId)
    ensures newId !in w.rows && CleanLedger(w, r, newId)
  {
    NewRowIsClean(w, newId, Birth(r.user, r.addon, r.Amount(), r.key, 0));
  }

  /** An entry under a new key that the account can bear is written. */
  lemma EntryWritten(b: Books, r: Request)
    requires r.amount > 0 && r.key.Some? && !HasKey(b.entries, r.key.value)
    requires r.user in b.accounts && !b.accounts[r.user].subaccount && b.accounts[r.user].balance + r.Signed() >= 0
    ensures var a := b.accounts[r.user];
            Post(b, r).0 == Books(b.accounts[r.user := a.(balance := a.balance + r.Signed())],
                                  b.entries + [EntryFor(r, a.balance)])
  {
  }

  lemma CreditUndoesDebit(b: Books, user: UserId, amount: nat, charge: string, refund: string)
    requires charge != refund && !HasKey(b.entries, charge) && !HasKey(b.entries, refund)
    requires Post(b, Request(user, amount, Debit, Some(charge))).1.Posted?
    ensures var paid := Post(b, Request(user, amount, Debit, Some(charge))).0;
            Post(paid, Request(user, amount, Credit, Some(refund))).0.accounts == b.accounts
  {
    var debit, credit := Request(user, amount, Debit, Some(charge)), Request(user, amount, Credit, Some(refund));
    EntryWritten(b, debit);
    FindAfterAppend(b.entries, EntryFor(debit, b.accounts[user].balance), refund);
    EntryWritten(Post(b, debit).0, credit);
  }

  /** A charge followed by its refund leaves every account as it was. */
  lemma RefundRestores(w: World, r: CallRequest, id: RowId)
    requires r.Buy? && CleanLedger(w, r, id) && !r.free
    requires Accepted(Post(w.books, Charge(r.user, r.Amount(), r.key, id)).1)
    ensures var paid := Post(w.books, Charge(r.user, r.Amount(), r.key, id)).0;
            Post(paid, Refund(r.user, r.Amount(), r.key, id)).0.accounts == w.books.accounts
  {
    Keys.LedgerKeysApart(Some(r.key), id, Some(r.key), id);
    CreditUndoesDebit(w.books, r.user, r.Amount(), Keys.ChargeKey(Some(r.key), id), Keys.RefundKey(Some(r.key), id));
  }

  /** Once the refund of a charge in `books` is made, every account is as before the purchase. */
  lemma MoneyIsBack(w0: World, books: Books, r: CallRequest, id: RowId)
    requires r.Buy? && CleanLedger(w0, r, id) && ChargedWallet(w0.books, books, r, id)
    ensures (if r.free then books else Post(books, Refund(r.user, r.Amount(), r.key, id)).0).accounts
         == w0.books.accounts
  {
    if !r.free {
      RefundRestores(w0, r, id);
    }
  }

  ghost predicate Answered(answer: Option<Result>, pc: Phase) {
    if answer.Some? then pc == Finished(answer.value) else pc.Stopped?
  }
}
