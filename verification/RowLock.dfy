/**
 * Ledger entries applied by any number of concurrent calls, one database statement at a time:
 * fast look-up, `SELECT … FOR UPDATE`, check, UPDATE, INSERT under a unique index, COMMIT.
 * Writes of an open transaction live in its call and reach the tables only at COMMIT, where the
 * UPDATE stores the balance computed earlier, so only the row lock prevents a lost update.
 */
module RowLock {
  import opened Options
  import opened Ledger

  type CallId = nat

  datatype Phase =
    | Begun                          // the fast look-up found nothing
    | Locked(seen: Account)          // holds the row lock, has read the row
    | Written(newBalance: int)       // UPDATE executed, not committed
    | Inserted(entry: Entry)         // INSERT executed, not committed
    | Raced                          // unique violation: rolled back, about to look the winner up
    | Done(outcome: Outcome)
    | Dead                           // connection lost or process stopped

  datatype Call = Call(req: Request, phase: Phase)
  {
    predicate HoldsLock() {
      phase.Locked? || phase.Written? || phase.Inserted?
    }
  }

  /** `history` is auxiliary: the committed requests in commit order. */
  datatype State = State(db: Books, locks: map<UserId, CallId>, calls: map<CallId, Call>, history: seq<Request>)
  {
    function To(c: CallId, phase: Phase): State
      requires c in calls
    {
      this.(calls := calls[c := calls[c].(phase := phase)])
    }

    function Release(c: CallId, phase: Phase): State
      requires c in calls
    {
      To(c, phase).(locks := locks - {calls[c].req.user})
    }
  }

  ghost predicate InitState(opening: map<UserId, int>, s: State) {
    Sound(opening, s.db) && s.locks == map[] && s.calls == map[] && s.history == []
  }

  ghost predicate Start(s: State, s': State, c: CallId, r: Request) {
    && c !in s.calls
    && s' == s.(calls := s.calls[c := Call(r,
                  if r.amount <= 0 then Done(NotPositive)
                  else if r.Keyed() && HasKey(s.db.entries, r.key.value)
                    then Done(Existing(Find(s.db.entries, r.key.value).value))
                  else Begun)])
  }

  ghost predicate Lock(s: State, s': State, c: CallId) {
    && c in s.calls && s.calls[c].phase.Begun?
    && var u := s.calls[c].req.user;
    if u !in s.db.accounts then s' == s.To(c, Done(NoAccount))
    else u !in s.locks && s' == s.To(c, Locked(s.db.accounts[u])).(locks := s.locks[u := c])
  }

  ghost predicate Update(s: State, s': State, c: CallId) {
    && c in s.calls && s.calls[c].phase.Locked?
    && var seen := s.calls[c].phase.seen;
    var newBalance := seen.balance + s.calls[c].req.Signed();
    s' == if seen.subaccount then s.Release(c, Done(SubAccount))
          else if newBalance < 0 then s.Release(c, Done(Insufficient))
          else s.To(c, Written(newBalance))
  }

  /** The unique index: an equal key that is committed fails the INSERT, one that is still open makes it wait. */
  ghost predicate Insert(s: State, s': State, c: CallId) {
    && c in s.calls && s.calls[c].phase.Written?
    && var r := s.calls[c].req;
    var e := Entry(r.user, r.Signed(), s.calls[c].phase.newBalance, r.key);
    if r.key.Some? && HasKey(s.db.entries, r.key.value)
    then s' == s.Release(c, if r.Keyed() then Raced else Done(KeyTaken))
    else
      && (r.key.Some? ==> forall d | d in s.calls && s.calls[d].phase.Inserted? :: s.calls[d].req.key != r.key)
      && s' == s.To(c, Inserted(e))
  }

  ghost predicate Commit(s: State, s': State, c: CallId) {
    && c in s.calls && s.calls[c].phase.Inserted?
    && s.calls[c].req.user in s.db.accounts
    && var r := s.calls[c].req;
    var e := s.calls[c].phase.entry;
    var row := s.db.accounts[r.user].(balance := e.balanceAfter);
    s' == s.Release(c, Done(Posted(e)))
           .(db := Books(s.db.accounts[r.user := row], s.db.entries + [e]), history := s.history + [r])
  }

  ghost predicate LookUp(s: State, s': State, c: CallId) {
    && c in s.calls && s.calls[c].phase.Raced?
    && s.calls[c].req.Keyed()
    && var found := Find(s.db.entries, s.calls[c].req.key.value);
    s' == s.To(c, Done(if found.Some? then Existing(found.value) else KeyTaken))
  }

  ghost predicate Crash(s: State, s': State, c: CallId) {
    && c in s.calls && !s.calls[c].phase.Done?
    && s' == if s.calls[c].HoldsLock() then s.Release(c, Dead) else s.To(c, Dead)
  }

  ghost predicate StepOf(s: State, s': State, c: CallId) {
    || (exists r :: Start(s, s', c, r))
    || Lock(s, s', c) || Update(s, s', c) || Insert(s, s', c)
    || Commit(s, s', c) || LookUp(s, s', c) || Crash(s, s', c)
  }

  ghost predicate Next(s: State, s': State) {
    exists c :: StepOf(s, s', c)
  }

  ghost predicate NextAt(run: seq<State>, i: nat) {
    i + 1 < |run| && Next(run[i], run[i + 1])
  }

  ghost predicate Run(opening: map<UserId, int>, run: seq<State>) {
    && run != [] && InitState(opening, run[0])
    && forall i: nat {:trigger NextAt(run, i)} | i + 1 < |run| :: NextAt(run, i)
  }

  // ---------------------------------------------------------------- invariant

  /** What call `c` may rely on between its statements. */
  ghost predicate CallInv(s: State, c: CallId)
    requires c in s.calls
  {
    var Call(r, p) := s.calls[c];
    && (!p.Done? && !p.Dead? ==> r.amount > 0)
    && (s.calls[c].HoldsLock() ==>
          && r.user in s.locks && s.locks[r.user] == c
          && r.user in s.db.accounts)
    && (p.Locked? ==> p.seen == s.db.accounts[r.user])
    && (p.Written? || p.Inserted? ==> !s.db.accounts[r.user].subaccount)
    && (p.Written? ==> p.newBalance == s.db.accounts[r.user].balance + r.Signed() >= 0)
    && (p.Inserted? ==>
          && p.entry == EntryFor(r, s.db.accounts[r.user].balance)
          && p.entry.balanceAfter >= 0
          && (r.key.Some? ==> !HasKey(s.db.entries, r.key.value)))
    && (p.Raced? ==> r.Keyed() && HasKey(s.db.entries, r.key.value))
    && (p.Done? && p.outcome.Posted? ==> p.outcome.entry in s.db.entries)
    && (p.Done? && p.outcome.Existing? ==> p.outcome.entry in s.db.entries && p.outcome.entry.key == r.key)
  }

  /** No two open transactions have inserted the same key. */
  ghost predicate OpenKeysDiffer(s: State) {
    forall c, d | c in s.calls && d in s.calls && c != d && s.calls[c].phase.Inserted? && s.calls[d].phase.Inserted? ::
      s.calls[c].req.key.Some? ==> s.calls[c].req.key != s.calls[d].req.key
  }

  ghost predicate Inv(start: Books, s: State) {
    && (forall c | c in s.calls :: CallInv(s, c))
    && OpenKeysDiffer(s)
    && s.db == PostAll(start, s.history)
  }

  /** Committing is exactly posting the request to the books as they are at that moment. */
  lemma CommitPosts(start: Books, s: State, s': State, c: CallId)
    requires Inv(start, s) && Commit(s, s', c)
    ensures Post(s.db, s.calls[c].req) == (s'.db, s'.calls[c].phase.outcome)
  {
  }

  /** A call keeps its facts while the books stand still and nobody takes its lock. */
  lemma Undisturbed(s: State, s': State, d: CallId)
    requires d in s.calls && CallInv(s, d)
    requires d in s'.calls && s'.calls[d] == s.calls[d] && s'.db == s.db
    requires s.calls[d].HoldsLock() ==> s.calls[d].req.user in s'.locks && s'.locks[s.calls[d].req.user] == d
    ensures CallInv(s', d)
  {
  }

  lemma CommitKeepsCalls(start: Books, s: State, s': State, c: CallId)
    requires Inv(start, s) && Commit(s, s', c)
    ensures forall d | d in s'.calls :: CallInv(s', d)
    ensures OpenKeysDiffer(s')
  {
  }

  lemma EarlyFactsKept(s: State, s': State, c: CallId)
    requires (exists r :: Start(s, s', c, r)) || Lock(s, s', c) || Update(s, s', c)
    requires c in s.calls ==> CallInv(s, c)
    ensures c in s'.calls && CallInv(s', c)
  {
  }

  lemma LateFactsKept(s: State, s': State, c: CallId)
    requires c in s.calls && CallInv(s, c)
    requires Insert(s, s', c) || LookUp(s, s', c) || Crash(s, s', c)
    ensures c in s'.calls && CallInv(s', c)
  {
  }

  lemma OwnFactsKept(s: State, s': State, c: CallId)
    requires StepOf(s, s', c) && !Commit(s, s', c)
    requires c in s.calls ==> CallInv(s, c)
    ensures c in s'.calls && CallInv(s', c)
  {
    if Insert(s, s', c) || LookUp(s, s', c) || Crash(s, s', c) {
      LateFactsKept(s, s', c);
    } else {
      EarlyFactsKept(s, s', c);
    }
  }

  /** No other step touches the books, another call, or a lock held by another call. */
  lemma OthersUntouched(s: State, s': State, c: CallId, d: CallId)
    requires StepOf(s, s', c) && !Commit(s, s', c)
    requires d != c && d in s'.calls
    requires d in s.calls ==> CallInv(s, d)
    requires c in s.calls ==> CallInv(s, c)
    ensures d in s.calls && s'.calls[d] == s.calls[d] && s'.db == s.db && s'.history == s.history
    ensures s.calls[d].HoldsLock() ==> s.calls[d].req.user in s'.locks && s'.locks[s.calls[d].req.user] == d
  {
  }

  lemma StepKeepsCalls(start: Books, s: State, s': State, c: CallId)
    requires Inv(start, s) && StepOf(s, s', c) && !Commit(s, s', c)
    ensures forall d | d in s'.calls :: CallInv(s', d)
  {
    forall d | d in s'.calls
      ensures CallInv(s', d)
    {
      if d == c {
        OwnFactsKept(s, s', c);
      } else {
        OthersUntouched(s, s', c, d);
        Undisturbed(s, s', d);
      }
    }
  }

  lemma InsertingMeetsNone(s: State, s': State, c: CallId, e: CallId)
    requires StepOf(s, s', c) && !Commit(s, s', c) && s'.calls[c].phase.Inserted?
    requires e in s.calls && s.calls[e].phase.Inserted?
    ensures s'.calls[c].req.key.Some? ==> s'.calls[c].req.key != s.calls[e].req.key
  {
    assert Insert(s, s', c);
  }

  lemma OpenPair(s: State, s': State, c: CallId, d: CallId, e: CallId)
    requires StepOf(s, s', c) && !Commit(s, s', c) && OpenKeysDiffer(s)
    requires d in s.calls && e in s.calls && e != c && d != e
    requires d in s'.calls && s'.calls[d].phase.Inserted? && e in s'.calls && s'.calls[e].phase.Inserted?
    requires s'.calls[e] == s.calls[e] && (d != c ==> s'.calls[d] == s.calls[d])
    ensures s'.calls[d].req.key.Some? ==> s'.calls[d].req.key != s'.calls[e].req.key
  {
    if d == c {
      InsertingMeetsNone(s, s', c, e);
    }
  }

  lemma InsertedWasThere(start: Books, s: State, s': State, c: CallId, d: CallId)
    requires Inv(start, s) && StepOf(s, s', c) && !Commit(s, s', c) && d in s'.calls && s'.calls[d].phase.Inserted?
    ensures d in s.calls && (d != c ==> s'.calls[d] == s.calls[d])
  {
    if d != c {
      OthersUntouched(s, s', c, d);
    }
  }

  lemma StepKeepsOpenKeys(start: Books, s: State, s': State, c: CallId)
    requires Inv(start, s) && StepOf(s, s', c) && !Commit(s, s', c)
    ensures OpenKeysDiffer(s')
  {
    forall d, e | d in s'.calls && e in s'.calls && d != e && s'.calls[d].phase.Inserted? && s'.calls[e].phase.Inserted?
      ensures s'.calls[d].req.key.Some? ==> s'.calls[d].req.key != s'.calls[e].req.key
    {
      InsertedWasThere(start, s, s', c, d);
      InsertedWasThere(start, s, s', c, e);
      if e != c {
        OpenPair(s, s', c, d, e);
      } else {
        OpenPair(s, s', c, e, d);
      }
    }
  }

  lemma StepKeepsInv(start: Books, s: State, s': State, c: CallId)
    requires Inv(start, s) && StepOf(s, s', c)
    ensures Inv(start, s')
  {
    if Commit(s, s', c) {
      CommitKeepsCalls(start, s, s', c);
      CommitPosts(start, s, s', c);
      PostAllAppend(start, s.history, s.calls[c].req);
    } else {
      StepKeepsCalls(start, s, s', c);
      StepKeepsOpenKeys(start, s, s', c);
    }
  }

  lemma {:induction false} RunInv(opening: map<UserId, int>, run: seq<State>, i: nat)
    requires Run(opening, run) && i < |run|
    ensures Inv(run[0].db, run[i])
  {
    if i == 0 {
    } else {
      RunInv(opening, run, i - 1);
      assert NextAt(run, i - 1);
      var c :| StepOf(run[i - 1], run[i], c);
      StepKeepsInv(run[0].db, run[i - 1], run[i], c);
    }
  }

  // ----------------------------------------------------------------- theorems

  /**
   * Row-locked entries lose no update. In every state of every interleaving the books are what the
   * committed requests would have produced one after another, each balance is the opening balance plus
   * the owner's entries, every entry carries the running balance, nothing is negative and no key repeats.
   */
  lemma NoLostUpdate(opening: map<UserId, int>, run: seq<State>, i: nat)
    requires Run(opening, run) && i < |run|
    ensures run[i].db == PostAll(run[0].db, run[i].history)
    ensures Sound(opening, run[i].db)
  {
    RunInv(opening, run, i);
    PostAllKeepsSound(opening, run[0].db, run[i].history);
  }

  /**
   * No entry is ever written to a sub-account: in every state of every interleaving the opening entries stand, and each
   * entry behind them was committed for a positive request of its user, credited or debited as it says, and the user
   * has an account that is no sub-account. Nor does any account become one.
   */
  lemma OnlyOwnersWrite(opening: map<UserId, int>, run: seq<State>, i: nat, k: nat) returns (r: Request)
    requires Run(opening, run) && i < |run| && |run[0].db.entries| <= k < |run[i].db.entries|
    ensures run[0].db.entries <= run[i].db.entries
    ensures r in run[i].history && WrittenFor(run[0].db.accounts, run[i].db.entries[k], r)
    ensures run[i].db.entries[k].user in run[i].db.accounts
    ensures !run[i].db.accounts[run[i].db.entries[k].user].subaccount
  {
    RunInv(opening, run, i);
    PostAllGrows(run[0].db, run[i].history);
    var all, n := run[i].db.entries, |run[0].db.entries|;
    assert all[n..][k - n] == all[k] && all[k] in all[n..];
    r :| r in run[i].history && WrittenFor(run[0].db.accounts, all[k], r);
  }

  /** The call is past its look-up and short of its write when its key is already committed by another. */
  ghost predicate Overtaken(s: State, c: CallId) {
    && c in s.calls && (s.calls[c].phase.Begun? || s.calls[c].phase.Locked?)
    && s.calls[c].req.Keyed() && HasKey(s.db.entries, s.calls[c].req.key.value)
  }

  /** A failed check is reported where the key's entry was due. */
  predicate Misreports(b: Books, r: Request, o: Outcome) {
    Post(b, r).1.Existing? && (o.NoAccount? || o.SubAccount? || o.Insufficient?)
  }

  /**
   * Each call takes effect at the step that finishes it: books and answer are those of a single `Post`, exactly
   * unless it was overtaken; then it reports its own failed check instead of the winner's entry, and the books do
   * not change.
   */
  lemma FinishesLikePost(opening: map<UserId, int>, run: seq<State>, i: nat, c: CallId)
    requires Run(opening, run) && i + 1 < |run|
    requires StepOf(run[i], run[i + 1], c)
    requires run[i + 1].calls[c].phase.Done?
    ensures var r, o := run[i + 1].calls[c].req, run[i + 1].calls[c].phase.outcome;
            && (Post(run[i].db, r) == (run[i + 1].db, o) <==> !Overtaken(run[i], c))
            && (Overtaken(run[i], c) ==> run[i + 1].db == run[i].db && Misreports(run[i].db, r, o))
  {
    RunInv(opening, run, i);
    FinishingStep(run[0].db, run[i], run[i + 1], c);
  }

  lemma FinishingStep(start: Books, s: State, s': State, c: CallId)
    requires Inv(start, s) && StepOf(s, s', c) && s'.calls[c].phase.Done?
    ensures var r, o := s'.calls[c].req, s'.calls[c].phase.outcome;
            && (Post(s.db, r) == (s'.db, o) <==> !Overtaken(s, c))
            && (Overtaken(s, c) ==> s'.db == s.db && Misreports(s.db, r, o))
  {
    if c in s.calls {
      assert CallInv(s, c);
      if Commit(s, s', c) {
        CommitPosts(start, s, s', c);
      }
    }
  }

  /** Steps that do not finish a call leave the books alone. */
  lemma UnfinishedStepsAreInvisible(s: State, s': State, c: CallId)
    requires StepOf(s, s', c) && !s'.calls[c].phase.Done?
    ensures s'.db == s.db
  {
  }

  // ------------------------------------------------------------ the race, shown

  const ALICE := "alice"
  const CHARGE := Request(ALICE, 100, Debit, Some("key"))

  function Books0(): Books { Books(map[ALICE := Account(100, false)], []) }
  function Entry0(): Entry { Entry(ALICE, -100, 0, Some("key")) }
  function Books1(): Books { Books(map[ALICE := Account(0, false)], [Entry0()]) }

  function RaceState(db: Books, locks: map<UserId, CallId>, p: Phase, q: Phase, h: seq<Request>): State {
    State(db, locks, map[0 := Call(CHARGE, p), 1 := Call(CHARGE, q)], h)
  }

  /** Two calls with one key and money for one: the second looks the key up before the first commits. */
  function RaceAt(i: nat): State {
    match i
    case 0 => State(Books0(), map[], map[], [])
    case 1 => State(Books0(), map[], map[0 := Call(CHARGE, Begun)], [])
    case 2 => RaceState(Books0(), map[], Begun, Begun, [])
    case 3 => RaceState(Books0(), map[ALICE := 0], Locked(Account(100, false)), Begun, [])
    case 4 => RaceState(Books0(), map[ALICE := 0], Written(0), Begun, [])
    case 5 => RaceState(Books0(), map[ALICE := 0], Inserted(Entry0()), Begun, [])
    case 6 => RaceState(Books1(), map[], Done(Posted(Entry0())), Begun, [CHARGE])
    case 7 => RaceState(Books1(), map[ALICE := 1], Done(Posted(Entry0())), Locked(Account(0, false)), [CHARGE])
    case _ => RaceState(Books1(), map[], Done(Posted(Entry0())), Done(Insufficient), [CHARGE])
  }

  function RaceRun(): seq<State> {
    seq(9, (i: nat) => RaceAt(i))
  }

  lemma RaceFirstHalf(i: nat)
    requires i < 5
    ensures Next(RaceAt(i), RaceAt(i + 1))
  {
    match i
    case 0 => assert Start(RaceAt(0), RaceAt(1), 0, CHARGE); assert StepOf(RaceAt(0), RaceAt(1), 0);
    case 1 => assert Start(RaceAt(1), RaceAt(2), 1, CHARGE); assert StepOf(RaceAt(1), RaceAt(2), 1);
    case 2 => assert Lock(RaceAt(2), RaceAt(3), 0); assert StepOf(RaceAt(2), RaceAt(3), 0);
    case 3 => assert Update(RaceAt(3), RaceAt(4), 0); assert StepOf(RaceAt(3), RaceAt(4), 0);
    case 4 => assert Insert(RaceAt(4), RaceAt(5), 0); assert StepOf(RaceAt(4), RaceAt(5), 0);
  }

  lemma RaceSecondHalf(i: nat)
    requires 5 <= i < 8
    ensures Next(RaceAt(i), RaceAt(i + 1))
  {
    match i
    case 5 =>
      assert Books1().entries == Books0().entries + [Entry0()];
      assert Commit(RaceAt(5), RaceAt(6), 0);
      assert StepOf(RaceAt(5), RaceAt(6), 0);
    case 6 => assert Lock(RaceAt(6), RaceAt(7), 1); assert StepOf(RaceAt(6), RaceAt(7), 1);
    case 7 => assert Update(RaceAt(7), RaceAt(8), 1); assert StepOf(RaceAt(7), RaceAt(8), 1);
  }

  /** So the documented "existing entry is returned unchanged" fails for a repeated key: this run shows it. */
  lemma RepeatedKeyMayReportInsufficient()
    ensures Run(map[ALICE := 100], RaceRun())
    ensures RaceAt(8).calls[1].phase == Done(Insufficient) && HasKey(RaceAt(8).db.entries, "key")
  {
    var run := RaceRun();
    assert run[0] == RaceAt(0);
    forall i: nat {:trigger NextAt(run, i)} | i + 1 < |run|
      ensures NextAt(run, i)
    {
      assert run[i] == RaceAt(i) && run[i + 1] == RaceAt(i + 1);
      if i < 5 {
        RaceFirstHalf(i);
      } else {
        RaceSecondHalf(i);
      }
    }
  }
}
