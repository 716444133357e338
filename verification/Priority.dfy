/** How long priority support lasts after a series of purchases. */
module Priority {
  import opened Options
  import opened Ledger
  import opened Protocol
  import opened ProtocolTheorems
  import Calendar
  import Gregorian

  /** The end of the period after a purchase delivered at `now` to a user whose period ends at `end`. */
  function NextEnd(end: Time, now: Time): Time {
    Later(end, now) + PERIOD_MS
  }

  /** The end after purchases delivered at `times`, one after another. */
  function EndAfter(end: Time, times: seq<Time>): Time {
    if times == [] then end else NextEnd(EndAfter(end, times[..|times| - 1]), times[|times| - 1])
  }

  /** The candidates the closed form takes the maximum of. */
  predicate Candidate(end: Time, times: seq<Time>, value: Time) {
    || value == end + |times| * PERIOD_MS
    || exists j | 0 <= j < |times| :: value == times[j] + (|times| - j) * PERIOD_MS
  }

  /**
   * After purchases one after another the period ends at the maximum of the old end plus all the periods
   * bought, and of each purchase's time plus the periods bought from it on: no paid day is lost.
   */
  lemma {:induction false} PeriodClosedForm(end: Time, times: seq<Time>)
    ensures Candidate(end, times, EndAfter(end, times))
    ensures EndAfter(end, times) >= end + |times| * PERIOD_MS
    ensures forall j | 0 <= j < |times| :: EndAfter(end, times) >= times[j] + (|times| - j) * PERIOD_MS
  {
    if times == [] {
    } else {
      var front, last := times[..|times| - 1], times[|times| - 1];
      PeriodClosedForm(end, front);
      var before, after := EndAfter(end, front), EndAfter(end, times);
      forall j | 0 <= j < |times|
        ensures after >= times[j] + (|times| - j) * PERIOD_MS
      {
        if j < |front| {
          assert front[j] == times[j];
          assert before >= front[j] + (|front| - j) * PERIOD_MS;
        }
      }
      if before > last && before != end + |front| * PERIOD_MS {
        var j :| 0 <= j < |front| && before == front[j] + (|front| - j) * PERIOD_MS;
        assert times[j] == front[j] && after == times[j] + (|times| - j) * PERIOD_MS;
      } else if before <= last {
        assert after == times[|times| - 1] + (|times| - (|times| - 1)) * PERIOD_MS;
      }
    }
  }

  /** The two steps of a delivery put exactly `NextEnd` of what the first of them read. */
  lemma DeliveryExtends(w: World, w1: World, w2: World, w3: World, c: CallId, id: RowId, ext: bool, now: Time)
    requires c in w.calls && w.calls[c].req.Buy? && w.calls[c].req.addon == PrioritySupport
    requires w.calls[c].pc == Paid(id, ext)
    requires Deliver(w, w1, c, id, ext, now)
    requires c in w2.calls && w2.calls[c] == w1.calls[c]
    requires WritePeriod(w2, w3, c, id, ext, w1.calls[c].pc.start)
    ensures var u := w.calls[c].req.user;
            w3.SupportOf(u) == Support(true, Some(NextEnd(EndOf(w.SupportOf(u)), now)))
  {
  }

  /**
   * A period bought from an instant on ends at the same time of day, on the day thirty days after that of the instant;
   * the date picker's shift finds that day exactly if the year of the instant is not read as one of the last century.
   */
  lemma PeriodInDays(w: World, w': World, c: CallId, id: RowId, ext: bool, start: Time)
    requires c in w.calls && w.calls[c].req.Buy? && WritePeriod(w, w', c, id, ext, start)
    ensures var end := EndOf(w'.SupportOf(w.calls[c].req.user));
            var day := Gregorian.FromDay(start / 86_400_000);
            && end % 86_400_000 == start % 86_400_000 && end / 86_400_000 == start / 86_400_000 + 30
            && (Gregorian.FromDay(end / 86_400_000) == Calendar.ShiftDays(day, 30) <==> !(0 <= day.year <= 99))
  {
    ThirtyDaysOn(start, EndOf(w'.SupportOf(w.calls[c].req.user)));
    Calendar.DayLater(start / 86_400_000, 30);
  }

  lemma ThirtyDaysOn(start: Time, end: Time)
    requires end == start + 30 * 86_400_000
    ensures end % 86_400_000 == start % 86_400_000 && end / 86_400_000 == start / 86_400_000 + 30
  {
  }

  // ------------------------------------------------------------------ over whole runs

  datatype Move = Move(call: CallId, action: Action)

  ghost predicate StepAt(run: seq<World>, moves: seq<Move>, i: nat) {
    i < |moves| && i + 1 < |run| && StepBy(run[i], run[i + 1], moves[i].call, moves[i].action)
  }

  /** A run with the calls and actions that make its steps. */
  ghost predicate RunBy(run: seq<World>, moves: seq<Move>) {
    && run != [] && Init(run[0]) && |moves| == |run| - 1
    && forall i {:trigger StepAt(run, moves, i)} | 0 <= i < |moves| :: StepAt(run, moves, i)
  }

  /** Every run is made by some moves. */
  lemma RunHasMoves(run: seq<World>) returns (moves: seq<Move>)
    requires Run(run)
    ensures RunBy(run, moves)
  {
    moves := [];
    while |moves| < |run| - 1
      invariant |moves| <= |run| - 1
      invariant forall i {:trigger StepAt(run, moves, i)} | 0 <= i < |moves| :: StepAt(run, moves, i)
    {
      var i := |moves|;
      assert NextAt(run, i);
      var c, a :| StepBy(run[i], run[i + 1], c, a);
      ghost var before := moves;
      moves := moves + [Move(c, a)];
      assert forall k {:trigger StepAt(run, moves, k)} | 0 <= k < i :: StepAt(run, before, k) ==> StepAt(run, moves, k);
    }
  }

  /** A purchase of user `u` stands between reading the period and writing it. */
  predicate Reading(w: World, c: CallId, u: UserId) {
    c in w.calls && w.calls[c].req.Buy? && w.calls[c].req.user == u && w.calls[c].pc.PeriodRead?
  }

  predicate Reads(w: World, m: Move, u: UserId) {
    && m.action.Proceed? && m.call in w.calls && w.calls[m.call].pc.Paid?
    && w.calls[m.call].req.Buy? && w.calls[m.call].req.user == u && w.calls[m.call].req.addon == PrioritySupport
  }

  predicate Writes(w: World, m: Move, u: UserId) {
    m.action.Proceed? && Reading(w, m.call, u)
  }

  // what one step does to a period and to the calls that read it

  predicate SupportMoves(w: World, w': World, m: Move, u: UserId) {
    w'.SupportOf(u) ==
    if Writes(w, m, u) then Support(true, Some(w.calls[m.call].pc.start + PERIOD_MS)) else w.SupportOf(u)
  }

  predicate ReaderMoves(w: World, w': World, m: Move, c: CallId, u: UserId) {
    Reading(w', c, u) ==>
      if Reading(w, c, u) then w'.calls[c] == w.calls[c] && !(m.call == c && m.action.Proceed?)
      else m.call == c && Reads(w, m, u) && w'.calls[c].pc.start == ExtendFrom(w.SupportOf(u), m.action.now)
  }

  lemma EarlyBuySupport(w: World, w': World, d: CallId, now: Time, newId: RowId, c: CallId, u: UserId)
    requires d in w.calls && w.calls[d].req.Buy? && BuyStep(w, w', d, now, newId)
    requires var pc := w.calls[d].pc; pc.Asking? || pc.Duplicate? || pc.Claimed? || pc.Ready?
    ensures var m := Move(d, Proceed(now, newId)); SupportMoves(w, w', m, u) && ReaderMoves(w, w', m, c, u)
  {
  }

  lemma DeliverySupport(w: World, w': World, d: CallId, now: Time, newId: RowId, c: CallId, u: UserId)
    requires d in w.calls && w.calls[d].req.Buy? && BuyStep(w, w', d, now, newId)
    requires w.calls[d].pc.Paid? || w.calls[d].pc.PeriodRead?
    ensures var m := Move(d, Proceed(now, newId)); SupportMoves(w, w', m, u) && ReaderMoves(w, w', m, c, u)
  {
  }

  lemma LateBuySupport(w: World, w': World, d: CallId, now: Time, newId: RowId, c: CallId, u: UserId)
    requires d in w.calls && w.calls[d].req.Buy? && BuyStep(w, w', d, now, newId)
    requires var pc := w.calls[d].pc; pc.Undelivered? || pc.Rejected? || pc.Declined? || pc.Returned? || pc.Delivered?
    ensures var m := Move(d, Proceed(now, newId)); SupportMoves(w, w', m, u) && ReaderMoves(w, w', m, c, u)
  {
  }

  lemma CloseKeepsSupport(w: World, w': World, d: CallId)
    requires d in w.calls && w.calls[d].req.Close? && CloseStep(w, w', d)
    ensures w'.support == w.support
  {
  }

  lemma CloseSupport(w: World, w': World, d: CallId, now: Time, newId: RowId, c: CallId, u: UserId)
    requires d in w.calls && w.calls[d].req.Close? && CloseStep(w, w', d)
    ensures var m := Move(d, Proceed(now, newId)); SupportMoves(w, w', m, u) && ReaderMoves(w, w', m, c, u)
  {
    CloseKeepsSupport(w, w', d);
    CloseCalls(w, w', d);
  }

  lemma OtherSupport(w: World, w': World, m: Move, u: UserId)
    requires StepBy(w, w', m.call, m.action) && !m.action.Proceed?
    ensures SupportMoves(w, w', m, u)
  {
  }

  lemma OtherReaders(w: World, w': World, m: Move, c: CallId, u: UserId)
    requires StepBy(w, w', m.call, m.action) && !m.action.Proceed?
    ensures ReaderMoves(w, w', m, c, u)
  {
    StepCalls(w, w', m.call, m.action);
  }

  lemma StepSupport(w: World, w': World, m: Move, c: CallId, u: UserId)
    requires StepBy(w, w', m.call, m.action)
    ensures SupportMoves(w, w', m, u) && ReaderMoves(w, w', m, c, u)
  {
    if !m.action.Proceed? {
      OtherSupport(w, w', m, u);
      OtherReaders(w, w', m, c, u);
    } else {
      var Proceed(now, newId) := m.action;
      if w.calls[m.call].req.Close? {
        CloseSupport(w, w', m.call, now, newId, c, u);
      } else {
        var pc := w.calls[m.call].pc;
        if pc.Asking? || pc.Duplicate? || pc.Claimed? || pc.Ready? {
          EarlyBuySupport(w, w', m.call, now, newId, c, u);
        } else if pc.Paid? || pc.PeriodRead? {
          DeliverySupport(w, w', m.call, now, newId, c, u);
        } else {
          LateBuySupport(w, w', m.call, now, newId, c, u);
        }
      }
    }
  }

  /** The step before step `n` at which call `c` last read the period. */
  function ReadStep(run: seq<World>, moves: seq<Move>, n: nat, c: CallId): (k: nat)
    requires n <= |moves| < |run|
    ensures n > 0 ==> k < n
  {
    if n == 0 then 0
    else
      var w, m := run[n - 1], moves[n - 1];
      if m.call == c && m.action.Proceed? && c in w.calls && w.calls[c].pc.Paid? then n - 1
      else ReadStep(run, moves, n - 1, c)
  }

  /** The time of that step. */
  function ReadTime(run: seq<World>, moves: seq<Move>, n: nat, c: CallId): Time
    requires n <= |moves| < |run|
  {
    var k := ReadStep(run, moves, n, c);
    if k < |moves| && moves[k].action.Proceed? then moves[k].action.now else 0
  }

  /** A call about to write has read, and writes on from what it read then. */
  lemma {:induction false} WriterHasRead(run: seq<World>, moves: seq<Move>, n: nat, c: CallId, u: UserId)
    requires RunBy(run, moves) && n < |run| && Reading(run[n], c, u)
    ensures var k := ReadStep(run, moves, n, c);
            && k < n && Reads(run[k], moves[k], u) && moves[k].call == c
            && run[n].calls[c].pc.start == ExtendFrom(run[k].SupportOf(u), moves[k].action.now)
  {
    if n == 0 {
    } else {
      assert StepAt(run, moves, n - 1);
      StepSupport(run[n - 1], run[n], moves[n - 1], c, u);
      if Reading(run[n - 1], c, u) {
        WriterHasRead(run, moves, n - 1, c, u);
      }
    }
  }

  /** The times, in the order of the writes, at which the purchases of `u` delivered before step `n` were delivered. */
  function Deliveries(run: seq<World>, moves: seq<Move>, n: nat, u: UserId): seq<Time>
    requires n <= |moves| < |run|
  {
    if n == 0 then []
    else
      Deliveries(run, moves, n - 1, u)
      + if Writes(run[n - 1], moves[n - 1], u) then [ReadTime(run, moves, n - 1, moves[n - 1].call)] else []
  }

  /** No two purchases of `u` are between reading the period and writing it at once. */
  predicate InTurn(run: seq<World>, n: nat, u: UserId)
    requires n <= |run|
  {
    forall k, c, d |
      0 <= k < n && c in run[k].calls && d in run[k].calls && Reading(run[k], c, u) && Reading(run[k], d, u) ::
      c == d
  }

  lemma {:induction false} ReadStillHolds(run: seq<World>, moves: seq<Move>, n: nat, c: CallId, u: UserId)
    requires RunBy(run, moves) && n < |run| && InTurn(run, n, u) && Reading(run[n], c, u)
    ensures run[n].calls[c].pc.start == ExtendFrom(run[n].SupportOf(u), ReadTime(run, moves, n, c))
  {
    if n == 0 {
    } else {
      var w, w', m := run[n - 1], run[n], moves[n - 1];
      assert StepAt(run, moves, n - 1);
      StepSupport(w, w', m, c, u);
      if Reading(w, c, u) {
        ReadStillHolds(run, moves, n - 1, c, u);
        assert Writes(w, m, u) ==> Reading(w, m.call, u) && m.call == c;
      }
    }
  }

  /**
   * As long as the purchases of a user read and write their period in turn, the period ends, in every state of every
   * run, where the purchases delivered so far put it one after another.
   */
  lemma {:induction false} PeriodOverRun(run: seq<World>, moves: seq<Move>, n: nat, u: UserId)
    requires RunBy(run, moves) && n < |run| && InTurn(run, n, u)
    ensures EndOf(run[n].SupportOf(u)) == EndAfter(EndOf(run[0].SupportOf(u)), Deliveries(run, moves, n, u))
  {
    if n == 0 {
    } else {
      var w, w', m := run[n - 1], run[n], moves[n - 1];
      var times := Deliveries(run, moves, n - 1, u);
      PeriodOverRun(run, moves, n - 1, u);
      assert StepAt(run, moves, n - 1);
      StepSupport(w, w', m, m.call, u);
      if Writes(w, m, u) {
        ReadStillHolds(run, moves, n - 1, m.call, u);
        var t := ReadTime(run, moves, n - 1, m.call);
        assert (times + [t])[..|times|] == times;
      } else {
        assert Deliveries(run, moves, n, u) == times;
      }
    }
  }

  /** So no paid day is lost: the period lasts at least for all that was bought, counted from any delivery on. */
  lemma NoPaidDayLost(run: seq<World>, moves: seq<Move>, n: nat, u: UserId)
    requires RunBy(run, moves) && n < |run| && InTurn(run, n, u)
    ensures var end, times := EndOf(run[n].SupportOf(u)), Deliveries(run, moves, n, u);
            && Candidate(EndOf(run[0].SupportOf(u)), times, end)
            && end >= EndOf(run[0].SupportOf(u)) + |times| * PERIOD_MS
            && forall j | 0 <= j < |times| :: end >= times[j] + (|times| - j) * PERIOD_MS
  {
    PeriodOverRun(run, moves, n, u);
    PeriodClosedForm(EndOf(run[0].SupportOf(u)), Deliveries(run, moves, n, u));
  }

  // ------------------------------------------------------------- extending unasked

  /** Call `c` passes the check for a running period at this step. */
  predicate Passes(w: World, w': World, m: Move) {
    && m.action.Proceed? && m.call in w.calls && w.calls[m.call].req.Buy? && w.calls[m.call].pc.Claimed?
    && m.call in w'.calls && w'.calls[m.call].pc.Ready?
  }

  lemma SupportStays(run: seq<World>, moves: seq<Move>, k: nat, u: UserId)
    requires RunBy(run, moves) && k < |moves| && !Writes(run[k], moves[k], u)
    ensures run[k + 1].SupportOf(u) == run[k].SupportOf(u)
  {
    assert StepAt(run, moves, k);
    StepSupport(run[k], run[k + 1], moves[k], 0, u);
  }

  lemma {:induction false} SupportOver(run: seq<World>, moves: seq<Move>, i: nat, j: nat, u: UserId)
    requires RunBy(run, moves) && i <= j < |run|
    requires forall k | i <= k < j :: !Writes(run[k], moves[k], u)
    ensures run[j].SupportOf(u) == run[i].SupportOf(u)
    decreases j - i
  {
    if i == j {
    } else {
      SupportOver(run, moves, i, j - 1, u);
      SupportStays(run, moves, j - 1, u);
    }
  }

  lemma CheckFinds(w: World, w': World, m: Move)
    requires StepBy(w, w', m.call, m.action) && Passes(w, w', m)
    requires w.calls[m.call].req.addon == PrioritySupport && !w.calls[m.call].req.extend
    ensures !PriorityActive(w.SupportOf(w.calls[m.call].req.user), m.action.now)
    ensures !Writes(w, m, w.calls[m.call].req.user)
  {
  }

  lemma {:induction false} RequestStays(run: seq<World>, moves: seq<Move>, i: nat, j: nat, c: CallId)
    requires RunBy(run, moves) && i <= j < |run| && c in run[i].calls
    ensures c in run[j].calls && run[j].calls[c].req == run[i].calls[c].req
    decreases j - i
  {
    if i == j {
    } else {
      RequestStays(run, moves, i, j - 1, c);
      assert StepAt(run, moves, j - 1);
      StepCalls(run[j - 1], run[j], moves[j - 1].call, moves[j - 1].action);
    }
  }

  /** The last write of `u`'s period before step `i`. */
  predicate LastWrite(run: seq<World>, moves: seq<Move>, j: nat, i: nat, u: UserId)
    requires j < i <= |moves| < |run|
  {
    Writes(run[j], moves[j], u) && forall k | j < k < i :: !Writes(run[k], moves[k], u)
  }

  lemma {:induction false} FindLastWrite(run: seq<World>, moves: seq<Move>, j: nat, i: nat, u: UserId) returns (k: nat)
    requires j < i <= |moves| < |run| && Writes(run[j], moves[j], u)
    ensures j <= k < i && LastWrite(run, moves, k, i, u)
    decreases i - j
  {
    if forall l | j < l < i :: !Writes(run[l], moves[l], u) {
      k := j;
    } else {
      var l :| j < l < i && Writes(run[l], moves[l], u);
      k := FindLastWrite(run, moves, l, i, u);
    }
  }

  lemma OneLastWrite(run: seq<World>, moves: seq<Move>, j: nat, i: nat, u: UserId)
    requires j < i <= |moves| < |run| && LastWrite(run, moves, j, i, u)
    ensures forall k | 0 <= k < i && LastWrite(run, moves, k, i, u) :: k == j
  {
  }

  lemma AfterLastWrite(run: seq<World>, moves: seq<Move>, j: nat, i: nat, u: UserId)
    requires RunBy(run, moves) && j < i < |run| && LastWrite(run, moves, j, i, u)
    ensures run[i].SupportOf(u) == Support(true, Some(run[j].calls[moves[j].call].pc.start + PERIOD_MS))
  {
    assert StepAt(run, moves, j);
    StepSupport(run[j], run[j + 1], moves[j], 0, u);
    SupportOver(run, moves, j + 1, i, u);
  }

  /**
   * A purchase that did not ask for an extension, and so passed the check at step `k`, finds a running period when it
   * delivers at step `i` exactly if purchases wrote the period in between and the last of them read a start less than a
   * period ago; in turn, from check to delivery, a running period is extended only if asked.
   */
  lemma UnaskedExtensionIff(run: seq<World>, moves: seq<Move>, k: nat, i: nat, u: UserId)
    requires RunBy(run, moves) && k < i < |moves|
    requires Passes(run[k], run[k + 1], moves[k]) && Reads(run[i], moves[i], u) && moves[i].call == moves[k].call
    requires !run[i].calls[moves[i].call].req.extend && moves[k].action.now <= moves[i].action.now
    ensures var now := moves[i].action.now;
            PriorityActive(run[i].SupportOf(u), now) <==>
              exists j | k < j < i ::
                LastWrite(run, moves, j, i, u) && run[j].calls[moves[j].call].pc.start + PERIOD_MS > now
  {
    RequestStays(run, moves, k, i, moves[k].call);
    assert StepAt(run, moves, k);
    CheckFinds(run[k], run[k + 1], moves[k]);
    if j :| k < j < i && Writes(run[j], moves[j], u) {
      var last := FindLastWrite(run, moves, j, i, u);
      AfterLastWrite(run, moves, last, i, u);
      OneLastWrite(run, moves, last, i, u);
    } else {
      SupportOver(run, moves, k, i, u);
    }
  }

  // --------------------------------------------------------------- overlapping purchases

  lemma WriteEnds(run: seq<World>, moves: seq<Move>, k: nat, u: UserId)
    requires RunBy(run, moves) && k < |moves| && Writes(run[k], moves[k], u)
    ensures EndOf(run[k + 1].SupportOf(u)) == run[k].calls[moves[k].call].pc.start + PERIOD_MS
  {
    assert StepAt(run, moves, k);
    StepSupport(run[k], run[k + 1], moves[k], 0, u);
  }

  lemma LossIff(end: Time, s: Time, t: Time)
    ensures EndAfter(end, [t]) == NextEnd(end, t)
    ensures EndAfter(end, [t]) == EndAfter(end, [s, t]) <==> NextEnd(end, s) <= t
    ensures s == t ==> EndAfter(end, [s, t]) == EndAfter(end, [t]) + PERIOD_MS
  {
    assert [t][..0] == [] && [s][..0] == [] && [s, t][..1] == [s];
    assert EndAfter(end, [s]) == NextEnd(end, s);
  }

  lemma SameWhenRead(run: seq<World>, moves: seq<Move>, a: nat, b: nat, k: nat, u: UserId)
    requires RunBy(run, moves) && a < k < |run| && b < k
    requires forall j | j < k && (a <= j || b <= j) :: !Writes(run[j], moves[j], u)
    ensures run[a].SupportOf(u) == run[b].SupportOf(u)
  {
    SupportOver(run, moves, a, k, u);
    SupportOver(run, moves, b, k, u);
  }

  /**
   * In any run, two purchases of one user that both read the period before the first of them writes it, at step `k`:
   * the one that writes later, at step `l`, overwrites the other, in whatever order they read. Nothing is lost exactly
   * if the first period would have been over when the second purchase was delivered.
   */
  lemma OverlappingPurchasesLoseAPeriod(run: seq<World>, moves: seq<Move>, k: nat, l: nat, u: UserId)
    requires RunBy(run, moves) && k < l < |moves| && Writes(run[k], moves[k], u) && Writes(run[l], moves[l], u)
    requires ReadStep(run, moves, l, moves[l].call) < k
    requires forall j | j < k && (|| ReadStep(run, moves, k, moves[k].call) <= j
                                  || ReadStep(run, moves, l, moves[l].call) <= j) :: !Writes(run[j], moves[j], u)
    ensures var a, b := ReadStep(run, moves, k, moves[k].call), ReadStep(run, moves, l, moves[l].call);
            && Reads(run[a], moves[a], u) && Reads(run[b], moves[b], u)
            && var s, t, end := moves[a].action.now, moves[b].action.now, EndOf(run[a].SupportOf(u));
            && EndOf(run[l + 1].SupportOf(u)) == EndAfter(end, [t])
            && (EndOf(run[l + 1].SupportOf(u)) == EndAfter(end, [s, t]) <==> NextEnd(end, s) <= t)
            && (s == t ==> EndAfter(end, [s, t]) == EndAfter(end, [t]) + PERIOD_MS)
  {
    var a, b := ReadStep(run, moves, k, moves[k].call), ReadStep(run, moves, l, moves[l].call);
    WriterHasRead(run, moves, k, moves[k].call, u);
    WriterHasRead(run, moves, l, moves[l].call, u);
    SameWhenRead(run, moves, a, b, k, u);
    WriteEnds(run, moves, l, u);
    LossIff(EndOf(run[a].SupportOf(u)), moves[a].action.now, moves[b].action.now);
  }
}
