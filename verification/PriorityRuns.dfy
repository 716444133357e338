/** Two runs in which purchases of one user's priority support come in each other's way. */
module PriorityRuns {
  import opened Options
  import opened Ledger
  import opened Protocol
  import opened Priority
  import Keys

  const USER := "u"
  const KEY0 := "addon:v1:u:a"
  const KEY1 := "addon:v1:u:b"
  const ID0 := "1"
  const ID1 := "2"

  function Ask(key: string): CallRequest {
    Buy(USER, PrioritySupport, key, false, false)
  }

  function Pending(key: string): Row {
    Row(USER, PrioritySupport, 4900, key, Status.Pending, None, false)
  }

  function BirthOf(key: string, c: CallId): Birth {
    Birth(USER, PrioritySupport, 4900, key, c)
  }

  /** Money for two purchases, and the ledger after the first charge and after both. */
  function Opening(): Books {
    Books(map[USER := Account(9800, false)], [])
  }

  function ChargedOnce(): Books {
    Post(Opening(), Charge(USER, 4900, KEY0, ID0)).0
  }

  function ChargedTwice(): Books {
    Post(ChargedOnce(), Charge(USER, 4900, KEY1, ID1)).0
  }

  function Start(calls: map<CallId, Call>): World {
    World(Opening(), map[], [], map[], calls, map[], [], map[], map[USER := 9800])
  }

  /** Both purchases have claimed their rows and stand at `p` and `q`. */
  function Both(books: Books, support: map<UserId, Support>, p: Phase, q: Phase): World {
    World(books, map[ID0 := Pending(KEY0), ID1 := Pending(KEY1)], [], support,
          map[0 := Call(Ask(KEY0), p), 1 := Call(Ask(KEY1), q)],
          map[ID0 := BirthOf(KEY0, 0), ID1 := BirthOf(KEY1, 1)], [ID0, ID1], map[], map[USER := 9800])
  }

  function Until(end: Time): map<UserId, Support> {
    map[USER := Support(true, Some(end))]
  }

  function FirstClaimed(): World {
    World(Opening(), map[ID0 := Pending(KEY0)], [], map[],
          map[0 := Call(Ask(KEY0), Claimed(ID0)), 1 := Call(Ask(KEY1), Asking)],
          map[ID0 := BirthOf(KEY0, 0)], [ID0], map[], map[USER := 9800])
  }

  const DONE0 := Delivered(ID0, false, Applied, None)
  const DONE1 := Delivered(ID1, false, Applied, None)

  /** Up to the charges: both purchases pass the check before either delivers. */
  function Prefix(i: nat): World {
    match i
    case 0 => Start(map[])
    case 1 => Start(map[0 := Call(Ask(KEY0), Asking)])
    case 2 => Start(map[0 := Call(Ask(KEY0), Asking), 1 := Call(Ask(KEY1), Asking)])
    case 3 => FirstClaimed()
    case 4 => Both(Opening(), map[], Claimed(ID0), Claimed(ID1))
    case 5 => Both(Opening(), map[], Ready(ID0, false), Claimed(ID1))
    case 6 => Both(Opening(), map[], Ready(ID0, false), Ready(ID1, false))
    case 7 => Both(ChargedOnce(), map[], Paid(ID0, false), Ready(ID1, false))
    case _ => Both(ChargedTwice(), map[], Paid(ID0, false), Paid(ID1, false))
  }

  function PrefixMove(i: nat): Move {
    match i
    case 0 => Move(0, Submit(Ask(KEY0)))
    case 1 => Move(1, Submit(Ask(KEY1)))
    case 2 => Move(0, Proceed(0, ID0))
    case 3 => Move(1, Proceed(0, ID1))
    case 4 => Move(0, Proceed(0, ""))
    case 5 => Move(1, Proceed(0, ""))
    case 6 => Move(0, Proceed(0, ""))
    case _ => Move(1, Proceed(0, ""))
  }

  // ------------------------------------------------------------------ the common steps

  lemma Submitted(i: nat)
    requires i < 2
    ensures StepBy(Prefix(i), Prefix(i + 1), PrefixMove(i).call, PrefixMove(i).action)
  {
    assert KEY0[..9] == Keys.PURCHASE_PREFIX && KEY1[..9] == Keys.PURCHASE_PREFIX;
    assert Prefix(1).calls == Prefix(0).calls[0 := Call(Ask(KEY0), Asking)];
    assert Prefix(2).calls == Prefix(1).calls[1 := Call(Ask(KEY1), Asking)];
  }

  lemma FirstClaims()
    ensures StepBy(Prefix(2), Prefix(3), 0, Proceed(0, ID0))
  {
    var w, w' := Prefix(2), Prefix(3);
    assert !InUse(w.rows, KEY0);
    assert w'.calls == w.calls[0 := Call(Ask(KEY0), Claimed(ID0))];
    assert Claim(w, w', 0, ID0);
  }

  lemma SecondClaims()
    ensures StepBy(Prefix(3), Prefix(4), 1, Proceed(0, ID1))
  {
    var w, w' := Prefix(3), Prefix(4);
    assert KEY0[11] != KEY1[11];
    assert !InUse(w.rows, KEY1);
    assert w'.calls == w.calls[1 := Call(Ask(KEY1), Claimed(ID1))];
    assert w'.rows == w.rows[ID1 := Pending(KEY1)] && w'.born == w.born[ID1 := BirthOf(KEY1, 1)];
    assert w'.order == w.order + [ID1];
    assert Claim(w, w', 1, ID1);
  }

  lemma FirstPasses()
    ensures StepBy(Prefix(4), Prefix(5), 0, Proceed(0, ""))
  {
    var w, w' := Prefix(4), Prefix(5);
    assert w'.calls == w.calls[0 := Call(Ask(KEY0), Ready(ID0, false))];
    assert CheckPeriod(w, w', 0, ID0, 0);
  }

  lemma SecondPasses()
    ensures StepBy(Prefix(5), Prefix(6), 1, Proceed(0, ""))
  {
    var w, w' := Prefix(5), Prefix(6);
    assert w'.calls == w.calls[1 := Call(Ask(KEY1), Ready(ID1, false))];
    assert CheckPeriod(w, w', 1, ID1, 0);
  }

  /** A charge goes through when the money is there and its key is new. */
  lemma Charged(b: Books, balance: int, key: string, id: RowId)
    requires b.accounts == map[USER := Account(balance, false)] && balance >= 4900
    requires !HasKey(b.entries, Keys.ChargeKey(Some(key), id))
    ensures var (books, o) := Post(b, Charge(USER, 4900, key, id));
            && o.Posted? && o.entry.key == Some(Keys.ChargeKey(Some(key), id))
            && books == Books(map[USER := Account(balance - 4900, false)], b.entries + [o.entry])
  {
  }

  lemma FirstCanPay()
    ensures Post(Opening(), Charge(USER, 4900, KEY0, ID0)).1.Posted?
    ensures ChargedOnce().accounts == map[USER := Account(4900, false)]
    ensures !HasKey(ChargedOnce().entries, Keys.ChargeKey(Some(KEY1), ID1))
  {
    Charged(Opening(), 9800, KEY0, ID0);
    Keys.LedgerKeysApart(Some(KEY0), ID0, Some(KEY1), ID1);
    FindAfterAppend([], Post(Opening(), Charge(USER, 4900, KEY0, ID0)).1.entry, Keys.ChargeKey(Some(KEY1), ID1));
  }

  lemma BothCanPay()
    ensures Post(Opening(), Charge(USER, 4900, KEY0, ID0)).1.Posted?
    ensures Post(ChargedOnce(), Charge(USER, 4900, KEY1, ID1)).1.Posted?
    ensures ChargedTwice().accounts == map[USER := Account(0, false)]
  {
    FirstCanPay();
    Charged(ChargedOnce(), 4900, KEY1, ID1);
  }

  /** A call takes its payment when the ledger takes its charge. */
  lemma Pays(w: World, w': World, c: CallId, key: string, id: RowId)
    requires c in w.calls && w.calls[c] == Call(Ask(key), Ready(id, false))
    requires Post(w.books, Charge(USER, 4900, key, id)).1.Posted?
    requires w' == w.(books := Post(w.books, Charge(USER, 4900, key, id)).0,
                      calls := w.calls[c := Call(Ask(key), Paid(id, false))])
    ensures StepBy(w, w', c, Proceed(0, ""))
  {
    assert TakePayment(w, w', c, id, false);
  }

  lemma FirstPays(books: Books, after: Books)
    requires var (b, o) := Post(books, Charge(USER, 4900, KEY0, ID0)); o.Posted? && after == b
    ensures StepBy(Both(books, map[], Ready(ID0, false), Ready(ID1, false)),
                   Both(after, map[], Paid(ID0, false), Ready(ID1, false)), 0, Proceed(0, ""))
  {
    var w, w' := Both(books, map[], Ready(ID0, false), Ready(ID1, false)),
                 Both(after, map[], Paid(ID0, false), Ready(ID1, false));
    assert w'.calls == w.calls[0 := Call(Ask(KEY0), Paid(ID0, false))];
    Pays(w, w', 0, KEY0, ID0);
  }

  lemma SecondPays(books: Books, after: Books)
    requires var (b, o) := Post(books, Charge(USER, 4900, KEY1, ID1)); o.Posted? && after == b
    ensures StepBy(Both(books, map[], Paid(ID0, false), Ready(ID1, false)),
                   Both(after, map[], Paid(ID0, false), Paid(ID1, false)), 1, Proceed(0, ""))
  {
    var w, w' := Both(books, map[], Paid(ID0, false), Ready(ID1, false)),
                 Both(after, map[], Paid(ID0, false), Paid(ID1, false));
    assert w'.calls == w.calls[1 := Call(Ask(KEY1), Paid(ID1, false))];
    Pays(w, w', 1, KEY1, ID1);
  }

  lemma ClaimSteps(i: nat)
    requires i < 4
    ensures StepBy(Prefix(i), Prefix(i + 1), PrefixMove(i).call, PrefixMove(i).action)
  {
    if i < 2 {
      Submitted(i);
    } else if i == 2 {
      FirstClaims();
    } else {
      SecondClaims();
    }
  }

  lemma PaySteps(i: nat)
    requires 4 <= i < 8
    ensures StepBy(Prefix(i), Prefix(i + 1), PrefixMove(i).call, PrefixMove(i).action)
  {
    if i == 4 {
      FirstPasses();
    } else if i == 5 {
      SecondPasses();
    } else if i == 6 {
      BothCanPay();
      FirstPays(Opening(), ChargedOnce());
    } else {
      BothCanPay();
      SecondPays(ChargedOnce(), ChargedTwice());
    }
  }

  lemma FirstReads(books: Books, support: map<UserId, Support>, start: Time, q: Phase)
    requires start == ExtendFrom(SupportIn(support, USER), 0)
    ensures StepBy(Both(books, support, Paid(ID0, false), q),
                   Both(books, support, PeriodRead(ID0, false, start), q), 0, Proceed(0, ""))
  {
    var w, w' := Both(books, support, Paid(ID0, false), q),
                 Both(books, support, PeriodRead(ID0, false, start), q);
    assert w'.calls == w.calls[0 := Call(Ask(KEY0), PeriodRead(ID0, false, start))];
    assert Deliver(w, w', 0, ID0, false, 0);
  }

  lemma SecondReads(books: Books, support: map<UserId, Support>, start: Time, p: Phase)
    requires start == ExtendFrom(SupportIn(support, USER), 0)
    ensures StepBy(Both(books, support, p, Paid(ID1, false)),
                   Both(books, support, p, PeriodRead(ID1, false, start)), 1, Proceed(0, ""))
  {
    var w, w' := Both(books, support, p, Paid(ID1, false)),
                 Both(books, support, p, PeriodRead(ID1, false, start));
    assert w'.calls == w.calls[1 := Call(Ask(KEY1), PeriodRead(ID1, false, start))];
    assert Deliver(w, w', 1, ID1, false, 0);
  }

  lemma FirstWrites(books: Books, start: Time, q: Phase)
    ensures StepBy(Both(books, map[], PeriodRead(ID0, false, start), q),
                   Both(books, Until(start + PERIOD_MS), DONE0, q), 0, Proceed(0, ""))
  {
    var w, w' := Both(books, map[], PeriodRead(ID0, false, start), q),
                 Both(books, Until(start + PERIOD_MS), DONE0, q);
    assert w'.calls == w.calls[0 := Call(Ask(KEY0), DONE0)];
    assert w'.support == w.support[USER := Support(true, Some(start + PERIOD_MS))];
    assert WritePeriod(w, w', 0, ID0, false, start);
  }

  lemma SecondWrites(books: Books, end: Time, start: Time, p: Phase)
    ensures StepBy(Both(books, Until(end), p, PeriodRead(ID1, false, start)),
                   Both(books, Until(start + PERIOD_MS), p, DONE1), 1, Proceed(0, ""))
  {
    var w, w' := Both(books, Until(end), p, PeriodRead(ID1, false, start)),
                 Both(books, Until(start + PERIOD_MS), p, DONE1);
    assert w'.calls == w.calls[1 := Call(Ask(KEY1), DONE1)];
    assert w'.support == w.support[USER := Support(true, Some(start + PERIOD_MS))];
    assert WritePeriod(w, w', 1, ID1, false, start);
  }

  // ------------------------------------------------------------------- a period lost

  /** Both read the period before either writes it. */
  function OverlapAt(i: nat): World {
    match i
    case 9 => Both(ChargedTwice(), map[], PeriodRead(ID0, false, 0), Paid(ID1, false))
    case 10 => Both(ChargedTwice(), map[], PeriodRead(ID0, false, 0), PeriodRead(ID1, false, 0))
    case 11 => Both(ChargedTwice(), Until(PERIOD_MS), DONE0, PeriodRead(ID1, false, 0))
    case 12 => Both(ChargedTwice(), Until(PERIOD_MS), DONE0, DONE1)
    case _ => Prefix(i)
  }

  function OverlapMove(i: nat): Move {
    match i
    case 8 => Move(0, Proceed(0, ""))
    case 9 => Move(1, Proceed(0, ""))
    case 10 => Move(0, Proceed(0, ""))
    case 11 => Move(1, Proceed(0, ""))
    case _ => PrefixMove(i)
  }

  function OverlapRun(): seq<World> {
    seq(13, (i: nat) => OverlapAt(i))
  }

  function OverlapMoves(): seq<Move> {
    seq(12, (i: nat) => OverlapMove(i))
  }

  lemma OverlapSteps(i: nat)
    requires i < 12
    ensures StepBy(OverlapAt(i), OverlapAt(i + 1), OverlapMove(i).call, OverlapMove(i).action)
  {
    if i < 4 {
      ClaimSteps(i);
    } else if i < 8 {
      PaySteps(i);
    } else {
      match i
      case 8 => FirstReads(ChargedTwice(), map[], 0, Paid(ID1, false));
      case 9 => SecondReads(ChargedTwice(), map[], 0, PeriodRead(ID0, false, 0));
      case 10 => FirstWrites(ChargedTwice(), 0, PeriodRead(ID1, false, 0));
      case 11 => SecondWrites(ChargedTwice(), PERIOD_MS, 0, DONE0);
    }
  }

  lemma StartIsInit()
    ensures Init(Prefix(0))
  {
  }

  /** A run in which two purchases are charged, delivered at time 0, and the period lasts for one. */
  lemma PeriodLost()
    ensures RunBy(OverlapRun(), OverlapMoves())
    ensures OverlapRun()[12].books.accounts == map[USER := Account(0, false)]
    ensures OverlapRun()[12].SupportOf(USER) == Support(true, Some(PERIOD_MS))
    ensures EndAfter(EndOf(OverlapRun()[0].SupportOf(USER)), [0, 0]) == 2 * PERIOD_MS
  {
    StartIsInit();
    BothCanPay();
    forall i: nat {:trigger StepAt(OverlapRun(), OverlapMoves(), i)} | i < 12
      ensures StepAt(OverlapRun(), OverlapMoves(), i)
    {
      OverlapSteps(i);
    }
    assert [0, 0][..1] == [0] && [0][..0] == [];
    assert EndAfter(0, [0]) == PERIOD_MS;
  }

  // ------------------------------------------------------------- an unasked extension

  /** The first delivers in full before the second does. */
  function UnaskedAt(i: nat): World {
    match i
    case 9 => Both(ChargedTwice(), map[], PeriodRead(ID0, false, 0), Paid(ID1, false))
    case 10 => Both(ChargedTwice(), Until(PERIOD_MS), DONE0, Paid(ID1, false))
    case 11 => Both(ChargedTwice(), Until(PERIOD_MS), DONE0, PeriodRead(ID1, false, PERIOD_MS))
    case 12 => Both(ChargedTwice(), Until(2 * PERIOD_MS), DONE0, DONE1)
    case _ => Prefix(i)
  }

  function UnaskedMove(i: nat): Move {
    match i
    case 8 => Move(0, Proceed(0, ""))
    case 9 => Move(0, Proceed(0, ""))
    case 10 => Move(1, Proceed(0, ""))
    case 11 => Move(1, Proceed(0, ""))
    case _ => PrefixMove(i)
  }

  function UnaskedRun(): seq<World> {
    seq(13, (i: nat) => UnaskedAt(i))
  }

  function UnaskedMoves(): seq<Move> {
    seq(12, (i: nat) => UnaskedMove(i))
  }

  lemma UnaskedSteps(i: nat)
    requires i < 12
    ensures StepBy(UnaskedAt(i), UnaskedAt(i + 1), UnaskedMove(i).call, UnaskedMove(i).action)
  {
    if i < 4 {
      ClaimSteps(i);
    } else if i < 8 {
      PaySteps(i);
    } else {
      match i
      case 8 => FirstReads(ChargedTwice(), map[], 0, Paid(ID1, false));
      case 9 => FirstWrites(ChargedTwice(), 0, Paid(ID1, false));
      case 10 => SecondReads(ChargedTwice(), Until(PERIOD_MS), PERIOD_MS, DONE0);
      case 11 => SecondWrites(ChargedTwice(), PERIOD_MS, PERIOD_MS, DONE0);
    }
  }

  lemma UnaskedRunIsRun()
    ensures RunBy(UnaskedRun(), UnaskedMoves())
  {
    StartIsInit();
    forall i: nat {:trigger StepAt(UnaskedRun(), UnaskedMoves(), i)} | i < 12
      ensures StepAt(UnaskedRun(), UnaskedMoves(), i)
    {
      UnaskedSteps(i);
    }
  }

  lemma UnaskedRead()
    ensures Reads(UnaskedAt(10), UnaskedMove(10), USER) && UnaskedMove(10).call == UnaskedMove(5).call == 1
    ensures !UnaskedAt(10).calls[1].req.extend && PriorityActive(UnaskedAt(10).SupportOf(USER), 0)
    ensures UnaskedAt(12).SupportOf(USER) == Support(true, Some(2 * PERIOD_MS))
  {
  }

  lemma UnaskedCheck()
    ensures Passes(UnaskedAt(5), UnaskedAt(6), UnaskedMove(5))
  {
  }

  /** A run in which a purchase passed the check, asked for no extension, and yet extends a running period. */
  lemma ExtendedUnasked()
    ensures RunBy(UnaskedRun(), UnaskedMoves())
    ensures Passes(UnaskedRun()[5], UnaskedRun()[6], UnaskedMoves()[5])
    ensures Reads(UnaskedRun()[10], UnaskedMoves()[10], USER) && UnaskedMoves()[10].call == UnaskedMoves()[5].call
    ensures !UnaskedRun()[10].calls[1].req.extend && PriorityActive(UnaskedRun()[10].SupportOf(USER), 0)
    ensures UnaskedRun()[12].SupportOf(USER) == Support(true, Some(2 * PERIOD_MS))
  {
    UnaskedRunIsRun();
    UnaskedRead();
    UnaskedCheck();
    assert forall i: nat | i < 12 :: UnaskedRun()[i] == UnaskedAt(i) && UnaskedMoves()[i] == UnaskedMove(i);
  }
}
