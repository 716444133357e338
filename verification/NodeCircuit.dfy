/**
 * The circuit breaker for DirectAdmin nodes (`node-circuit.ts`): its two maps, and what a history of failures,
 * successes and questions says about a node, which the maps are proved to agree with. Times are milliseconds.
 */
module NodeCircuit {
  import opened Options

  const NODE_DOWN_MS := 120000
  const TIMEOUT_WINDOW_MS := 5 * 60000

  const CONNECT_CODES := {"ECONNREFUSED", "ENOTFOUND", "EAI_AGAIN", "EHOSTUNREACH", "ENETUNREACH"}
  const TIMEOUT_CODES := {"ETIMEDOUT", "ECONNABORTED"}

  datatype Kind = Connect | Timeout

  /** `None` where the source has no error at all, or no code. */
  datatype NetError = NetError(code: Option<string>, response: bool)

  /** `nodeErrorKind`: an HTTP response, even an error one, means that the node is alive. */
  function ErrorKind(err: Option<NetError>): Option<Kind> {
    if err.None? || err.value.response || err.value.code.None? then None
    else if err.value.code.value in CONNECT_CODES then Some(Connect)
    else if err.value.code.value in TIMEOUT_CODES then Some(Timeout)
    else None
  }

  // -------------------------------------------------------------------- the maps

  datatype Breaker = Breaker(downUntil: map<string, int>, lastTimeout: map<string, int>)

  const CLOSED := Breaker(map[], map[])

  predicate Opens(b: Breaker, key: string, err: Option<NetError>, now: int) {
    match ErrorKind(err)
    case None => false
    case Some(Connect) => true
    case Some(Timeout) => key in b.lastTimeout && now - b.lastTimeout[key] <= TIMEOUT_WINDOW_MS
  }

  function AfterFailure(b: Breaker, key: string, err: Option<NetError>, now: int): Breaker {
    Breaker(
      if Opens(b, key, err, now) then b.downUntil[key := now + NODE_DOWN_MS] else b.downUntil,
      if ErrorKind(err) == Some(Timeout) then b.lastTimeout[key := now] else b.lastTimeout)
  }

  function AfterSuccess(b: Breaker, key: string): Breaker {
    Breaker(b.downUntil - {key}, b.lastTimeout - {key})
  }

  function Left(b: Breaker, key: string, now: int): int {
    if key in b.downUntil && b.downUntil[key] > now then b.downUntil[key] - now else 0
  }

  function AfterAsking(b: Breaker, key: string, now: int): Breaker {
    if key in b.downUntil && b.downUntil[key] <= now then b.(downUntil := b.downUntil - {key}) else b
  }

  class Circuits {
    var downUntil: map<string, int>
    var lastTimeout: map<string, int>

    ghost function Contents(): Breaker
      reads this
    {
      Breaker(downUntil, lastTimeout)
    }

    constructor ()
      ensures Contents() == CLOSED
    {
      downUntil, lastTimeout := map[], map[];
    }

    /** `recordNodeFailure` */
    method RecordFailure(key: string, err: Option<NetError>, now: int) returns (opens: bool)
      modifies this
      ensures Contents() == AfterFailure(old(Contents()), key, err, now)
      ensures opens == Opens(old(Contents()), key, err, now)
    {
      var kind := ErrorKind(err);
      if kind.None? {
        return false;
      }
      if kind.value.Timeout? {
        var prev := if key in lastTimeout then Some(lastTimeout[key]) else None;
        lastTimeout := lastTimeout[key := now];
        if prev.None? || now - prev.value > TIMEOUT_WINDOW_MS {
          return false;
        }
      }
      downUntil := downUntil[key := now + NODE_DOWN_MS];
      return true;
    }

    /** `recordNodeSuccess` */
    method RecordSuccess(key: string)
      modifies this
      ensures Contents() == AfterSuccess(old(Contents()), key)
    {
      lastTimeout := lastTimeout - {key};
      downUntil := downUntil - {key};
    }

    /** `nodeDownFor`: an expired entry is deleted on the way. */
    method NodeDownFor(key: string, now: int) returns (left: int)
      modifies this
      ensures left == Left(old(Contents()), key, now)
      ensures Contents() == AfterAsking(old(Contents()), key, now)
    {
      if key !in downUntil {
        return 0;
      }
      var t := downUntil[key];
      if t <= now {
        downUntil := downUntil - {key};
        return 0;
      }
      return t - now;
    }
  }

  // --------------------------------------------------------------- the history

  datatype Event =
    | Failed(key: string, at: int, err: Option<NetError>)
    | Succeeded(key: string, at: int)
    | Asked(key: string, at: int)

  function After(b: Breaker, e: Event): Breaker {
    match e
    case Failed(key, at, err) => AfterFailure(b, key, err, at)
    case Succeeded(key, at) => AfterSuccess(b, key)
    case Asked(key, at) => AfterAsking(b, key, at)
  }

  function Run(h: seq<Event>): Breaker {
    if h == [] then CLOSED else After(Run(h[..|h| - 1]), h[|h| - 1])
  }

  lemma RunThen(h: seq<Event>, e: Event)
    ensures Run(h + [e]) == After(Run(h), e)
  {
  }

  /** The clock never runs backwards, up to `now`. */
  predicate InOrder(h: seq<Event>, now: int) {
    && (forall i, j | 0 <= i <= j < |h| :: h[i].at <= h[j].at)
    && (forall i | 0 <= i < |h| :: h[i].at <= now)
  }

  predicate FailureIs(e: Event, key: string, kind: Kind) {
    e.Failed? && e.key == key && ErrorKind(e.err) == Some(kind)
  }

  predicate SuccessIs(e: Event, key: string) {
    e.Succeeded? && e.key == key
  }

  predicate NoSuccessAfter(h: seq<Event>, key: string, i: int) {
    forall j | 0 <= j < |h| && i < j :: !SuccessIs(h[j], key)
  }

  predicate LatestTimeout(h: seq<Event>, key: string, i: int) {
    && 0 <= i < |h| && FailureIs(h[i], key, Timeout) && NoSuccessAfter(h, key, i)
    && forall j | i < j < |h| :: !FailureIs(h[j], key, Timeout)
  }

  /**
   * A failure that opens the breaker: the connection failed, or it timed out within five minutes of the timeout
   * just before it, with no success between the two.
   */
  predicate Opening(h: seq<Event>, key: string, i: int) {
    && 0 <= i < |h|
    && (|| FailureIs(h[i], key, Connect)
        || (FailureIs(h[i], key, Timeout)
            && exists j | 0 <= j < i :: LatestTimeout(h[..i], key, j) && h[i].at - h[j].at <= TIMEOUT_WINDOW_MS))
  }

  predicate LatestOpening(h: seq<Event>, key: string, i: int) {
    && Opening(h, key, i) && NoSuccessAfter(h, key, i)
    && forall j | i < j < |h| :: !Opening(h, key, j)
  }

  // ---------------------------------------------------- the maps hold the history

  lemma LatestTimeoutUnique(h: seq<Event>, key: string, i: int, j: int)
    requires LatestTimeout(h, key, i) && LatestTimeout(h, key, j)
    ensures i == j
  {
  }

  lemma LatestTimeoutStep(g: seq<Event>, e: Event, key: string, i: int)
    ensures LatestTimeout(g + [e], key, i) <==>
            if FailureIs(e, key, Timeout) then i == |g| else !SuccessIs(e, key) && LatestTimeout(g, key, i)
  {
    var h := g + [e];
    assert h[|g|] == e && forall j | 0 <= j < |g| :: h[j] == g[j];
  }

  lemma {:induction false} LastTimeoutKept(h: seq<Event>, key: string)
    ensures forall i | LatestTimeout(h, key, i) ::
              key in Run(h).lastTimeout && Run(h).lastTimeout[key] == h[i].at
    ensures key in Run(h).lastTimeout ==> exists i :: LatestTimeout(h, key, i)
  {
    if h == [] {
    } else {
      var g, e := h[..|h| - 1], h[|h| - 1];
      assert h == g + [e];
      LastTimeoutKept(g, key);
      forall i
        ensures LatestTimeout(h, key, i) <==>
                if FailureIs(e, key, Timeout) then i == |g| else !SuccessIs(e, key) && LatestTimeout(g, key, i)
      {
        LatestTimeoutStep(g, e, key, i);
      }
      if FailureIs(e, key, Timeout) {
        assert LatestTimeout(h, key, |g|);
      } else if key in Run(h).lastTimeout {
        var i :| LatestTimeout(g, key, i);
        assert LatestTimeout(h, key, i);
      }
    }
  }

  lemma OpeningStep(g: seq<Event>, e: Event, key: string, i: int)
    requires 0 <= i < |g|
    ensures Opening(g + [e], key, i) <==> Opening(g, key, i)
  {
    assert (g + [e])[..i] == g[..i];
    assert (g + [e])[i] == g[i] && forall j | 0 <= j < i :: (g + [e])[j] == g[j];
  }

  /** The breaker opens on exactly the failures that the history calls opening. */
  lemma OpensIff(g: seq<Event>, e: Event, key: string)
    requires e.Failed? && e.key == key
    ensures Opens(Run(g), key, e.err, e.at) <==> Opening(g + [e], key, |g|)
  {
    var h := g + [e];
    assert h[..|g|] == g && h[|g|] == e && forall j | 0 <= j < |g| :: h[j] == g[j];
    LastTimeoutKept(g, key);
    if FailureIs(e, key, Timeout) && key in Run(g).lastTimeout {
      var j :| LatestTimeout(g, key, j);
      forall i | LatestTimeout(g, key, i)
        ensures i == j
      {
        LatestTimeoutUnique(g, key, i, j);
      }
    }
  }

  lemma LatestOpeningStep(g: seq<Event>, e: Event, key: string, i: int)
    ensures LatestOpening(g + [e], key, i) <==>
            if Opening(g + [e], key, |g|) then i == |g| else !SuccessIs(e, key) && LatestOpening(g, key, i)
  {
    var h := g + [e];
    assert h[|g|] == e && forall j | 0 <= j < |g| :: h[j] == g[j];
    forall j | 0 <= j < |g|
      ensures Opening(h, key, j) <==> Opening(g, key, j)
    {
      OpeningStep(g, e, key, j);
    }
  }

  lemma {:induction false} DownUntilKept(h: seq<Event>, key: string, now: int)
    requires InOrder(h, now)
    ensures forall i | LatestOpening(h, key, i) ::
              if key in Run(h).downUntil then Run(h).downUntil[key] == h[i].at + NODE_DOWN_MS
              else h[i].at + NODE_DOWN_MS <= now
    ensures key in Run(h).downUntil ==> exists i :: LatestOpening(h, key, i)
  {
    if h == [] {
    } else {
      var g, e := h[..|h| - 1], h[|h| - 1];
      assert h == g + [e];
      assert InOrder(g, e.at);
      DownUntilKept(g, key, e.at);
      forall i
        ensures LatestOpening(h, key, i) <==>
                if Opening(h, key, |g|) then i == |g| else !SuccessIs(e, key) && LatestOpening(g, key, i)
      {
        LatestOpeningStep(g, e, key, i);
      }
      if e.Failed? && e.key == key {
        OpensIff(g, e, key);
      }
      if Opening(h, key, |g|) {
        assert LatestOpening(h, key, |g|);
      } else if key in Run(h).downUntil {
        var i :| LatestOpening(g, key, i);
        assert LatestOpening(h, key, i);
      }
    }
  }

  lemma {:induction false} LatestOpeningExists(h: seq<Event>, key: string, i: int)
    requires Opening(h, key, i) && NoSuccessAfter(h, key, i)
    ensures exists j | i <= j < |h| :: LatestOpening(h, key, j)
    decreases |h| - i
  {
    if j :| i < j < |h| && Opening(h, key, j) {
      LatestOpeningExists(h, key, j);
    } else {
      assert LatestOpening(h, key, i);
    }
  }

  predicate RecentOpening(h: seq<Event>, key: string, now: int, i: int) {
    Opening(h, key, i) && NoSuccessAfter(h, key, i) && now - h[i].at < NODE_DOWN_MS
  }

  /** What the history says: whether requests to the node are to be refused. */
  predicate Down(h: seq<Event>, key: string, now: int) {
    exists i | 0 <= i < |h| :: RecentOpening(h, key, now, i)
  }

  /**
   * A node is refused exactly when an opening failure since its last success is under two minutes old, and then
   * for the time left since the latest one. Questions asked, and what happened to other nodes, play no part.
   */
  lemma BreakerReadsHistory(h: seq<Event>, key: string, now: int)
    requires InOrder(h, now)
    ensures Left(Run(h), key, now) > 0 <==> Down(h, key, now)
    ensures forall i | LatestOpening(h, key, i) ::
              var left := h[i].at + NODE_DOWN_MS - now;
              Left(Run(h), key, now) == if left > 0 then left else 0
  {
    DownUntilKept(h, key, now);
    if Left(Run(h), key, now) > 0 {
      var i :| LatestOpening(h, key, i);
      assert RecentOpening(h, key, now, i);
    }
    if Down(h, key, now) {
      var i :| 0 <= i < |h| && RecentOpening(h, key, now, i);
      LatestOpeningExists(h, key, i);
      var j :| i <= j < |h| && LatestOpening(h, key, j);
      assert h[i].at <= h[j].at;
    }
  }

  // ----------------------------------------------------- in error codes and numbers

  /** No answer came, and this is the code of the error. */
  predicate Unanswered(e: Event, key: string, code: string) {
    e.Failed? && e.key == key && e.err == Some(NetError(Some(code), false))
  }

  predicate Disconnects(e: Event, key: string) {
    || Unanswered(e, key, "ECONNREFUSED") || Unanswered(e, key, "ENOTFOUND") || Unanswered(e, key, "EAI_AGAIN")
    || Unanswered(e, key, "EHOSTUNREACH") || Unanswered(e, key, "ENETUNREACH")
  }

  predicate TimesOut(e: Event, key: string) {
    Unanswered(e, key, "ETIMEDOUT") || Unanswered(e, key, "ECONNABORTED")
  }

  lemma KindsInCodes(e: Event, key: string)
    ensures FailureIs(e, key, Connect) <==> Disconnects(e, key)
    ensures FailureIs(e, key, Timeout) <==> TimesOut(e, key)
  {
    if e.Failed? && e.err.Some? && e.err.value.code.Some? {
      CodesApart(e.err.value.code.value);
    }
  }

  lemma CodesApart(c: string)
    ensures c in CONNECT_CODES <==>
              c == "ECONNREFUSED" || c == "ENOTFOUND" || c == "EAI_AGAIN" || c == "EHOSTUNREACH" || c == "ENETUNREACH"
    ensures c in TIMEOUT_CODES <==> c == "ETIMEDOUT" || c == "ECONNABORTED"
    ensures !(c in CONNECT_CODES && c in TIMEOUT_CODES)
  {
    assert "ETIMEDOUT"[1] == 'T' && "ECONNABORTED"[5] == 'A' && "ECONNREFUSED"[5] == 'R';
    assert |"ENOTFOUND"| == 9 && "ENOTFOUND"[1] == 'N' && "EAI_AGAIN"[1] == 'A';
    assert "EHOSTUNREACH"[1] == 'H' && "ENETUNREACH"[1] == 'N' && "ECONNABORTED"[1] == 'C';
  }

  /** A timeout at `i` within five minutes of another before it, with no success of the node between them. */
  predicate SecondTimeout(h: seq<Event>, key: string, i: int, j: int) {
    && 0 <= j < i < |h| && TimesOut(h[i], key) && TimesOut(h[j], key) && h[i].at - h[j].at <= 300000
    && forall k | j < k < i :: !SuccessIs(h[k], key)
  }

  predicate OpensInCodes(h: seq<Event>, key: string, i: int) {
    0 <= i < |h| && (Disconnects(h[i], key) || exists j | 0 <= j < i :: SecondTimeout(h, key, i, j))
  }

  lemma {:induction false} LatestTimeoutFrom(h: seq<Event>, key: string, j: int)
    requires 0 <= j < |h| && TimesOut(h[j], key) && NoSuccessAfter(h, key, j)
    ensures exists k | j <= k < |h| :: LatestTimeout(h, key, k)
    decreases |h| - j
  {
    if k :| j < k < |h| && TimesOut(h[k], key) {
      LatestTimeoutFrom(h, key, k);
    } else {
      forall k | j <= k < |h|
        ensures FailureIs(h[k], key, Timeout) <==> TimesOut(h[k], key)
      {
        KindsInCodes(h[k], key);
      }
      assert LatestTimeout(h, key, j);
    }
  }

  lemma SecondTimeoutOpens(h: seq<Event>, key: string, now: int, i: int, j: int)
    requires InOrder(h, now) && SecondTimeout(h, key, i, j)
    ensures Opening(h, key, i)
  {
    KindsInCodes(h[i], key);
    assert NoSuccessAfter(h[..i], key, j);
    LatestTimeoutFrom(h[..i], key, j);
    var k :| j <= k < i && LatestTimeout(h[..i], key, k);
    assert h[j].at <= h[k].at;
  }

  lemma OpeningInCodes(h: seq<Event>, key: string, now: int, i: int)
    requires InOrder(h, now)
    ensures Opening(h, key, i) <==> OpensInCodes(h, key, i)
  {
    if 0 <= i < |h| {
      KindsInCodes(h[i], key);
      if Opening(h, key, i) && !Disconnects(h[i], key) {
        var j :| 0 <= j < i && LatestTimeout(h[..i], key, j) && h[i].at - h[j].at <= TIMEOUT_WINDOW_MS;
        KindsInCodes(h[j], key);
        forall k | j < k < i
          ensures !SuccessIs(h[k], key)
        {
          assert h[..i][k] == h[k];
        }
        assert SecondTimeout(h, key, i, j);
      }
      if j :| 0 <= j < i && SecondTimeout(h, key, i, j) {
        SecondTimeoutOpens(h, key, now, i, j);
      }
    }
  }

  /** A failure that opened the breaker less than two minutes ago, with no success since. */
  predicate ShutBy(h: seq<Event>, key: string, now: int, i: int) {
    OpensInCodes(h, key, i) && now - h[i].at < 120000 && forall j | i < j < |h| :: !SuccessIs(h[j], key)
  }

  ghost predicate Shut(h: seq<Event>, key: string, now: int) {
    exists i | 0 <= i < |h| :: ShutBy(h, key, now, i)
  }

  /**
   * The whole breaker, in the codes of the errors and in numbers: a node is refused exactly when, less than two minutes
   * ago and with no success since, a connection to it failed or it timed out a second time within five minutes.
   */
  lemma BreakerInCodes(h: seq<Event>, key: string, now: int)
    requires InOrder(h, now)
    ensures Left(Run(h), key, now) > 0 <==> Shut(h, key, now)
    ensures 0 <= Left(Run(h), key, now) <= 120000
  {
    BreakerReadsHistory(h, key, now);
    forall i | 0 <= i < |h|
      ensures RecentOpening(h, key, now, i) <==> ShutBy(h, key, now, i)
    {
      OpeningInCodes(h, key, now, i);
    }
    LeftWithin(h, key, now);
  }

  lemma LeftWithin(h: seq<Event>, key: string, now: int)
    requires InOrder(h, now)
    ensures 0 <= Left(Run(h), key, now) <= NODE_DOWN_MS
  {
    DownUntilKept(h, key, now);
    if key in Run(h).downUntil {
      var i :| LatestOpening(h, key, i);
      assert h[i].at <= now;
    }
  }

  /** Nothing has failed or succeeded at the node. */
  predicate Unheard(h: seq<Event>, key: string) {
    forall e | e in h && e.key == key :: e.Asked?
  }

  lemma UnheardStep(b: Breaker, e: Event, key: string)
    requires (e.key == key ==> e.Asked?) && key !in b.downUntil
    ensures key !in After(b, e).downUntil && (key in After(b, e).lastTimeout <==> key in b.lastTimeout)
    ensures key in b.lastTimeout ==> After(b, e).lastTimeout[key] == b.lastTimeout[key]
  {
  }

  lemma {:induction false} UnheardIsClosed(h: seq<Event>, key: string)
    requires Unheard(h, key)
    ensures key !in Run(h).downUntil && key !in Run(h).lastTimeout
  {
    if h == [] {
    } else {
      var g, e := h[..|h| - 1], h[|h| - 1];
      assert e in h;
      UnheardIsClosed(g, key);
      UnheardStep(Run(g), e, key);
    }
  }

  /** The first failure of a node shuts it for two minutes exactly if the connection failed. */
  lemma FirstFailure(h: seq<Event>, key: string, code: string, t: int)
    requires Unheard(h, key)
    ensures Left(Run(h + [Failed(key, t, Some(NetError(Some(code), false)))]), key, t) ==
              if || code == "ECONNREFUSED" || code == "ENOTFOUND" || code == "EAI_AGAIN" || code == "EHOSTUNREACH"
                 || code == "ENETUNREACH"
              then 120000 else 0
  {
    var e := Failed(key, t, Some(NetError(Some(code), false)));
    UnheardIsClosed(h, key);
    RunThen(h, e);
    KindsInCodes(e, key);
  }

  lemma RunApart(h: seq<Event>, f: seq<Event>, e: Event)
    ensures Run(h + (f + [e])) == After(Run(h + f), e)
  {
    assert h + (f + [e]) == (h + f) + [e];
    RunThen(h + f, e);
  }

  lemma {:induction false} UnheardSince(h: seq<Event>, g: seq<Event>, key: string)
    requires Unheard(g, key) && key !in Run(h).downUntil
    ensures key !in Run(h + g).downUntil
    ensures key in Run(h + g).lastTimeout <==> key in Run(h).lastTimeout
    ensures key in Run(h).lastTimeout ==> Run(h + g).lastTimeout[key] == Run(h).lastTimeout[key]
  {
    if g == [] {
      assert h + g == h;
    } else {
      var f, e := g[..|g| - 1], g[|g| - 1];
      assert e in g && g == f + [e];
      UnheardSince(h, f, key);
      RunApart(h, f, e);
      UnheardStep(Run(h + f), e, key);
    }
  }

  /** Two timeouts with nothing heard between them shut the node exactly if they are five minutes apart or less. */
  lemma TwoTimeouts(h: seq<Event>, g: seq<Event>, key: string, first: Event, second: Event)
    requires Unheard(h, key) && Unheard(g, key)
    requires TimesOut(first, key) && TimesOut(second, key) && first.at <= second.at
    ensures Left(Run(h + [first] + g + [second]), key, second.at) ==
              if second.at - first.at <= 300000 then 120000 else 0
  {
    UnheardIsClosed(h, key);
    KindsInCodes(first, key);
    KindsInCodes(second, key);
    RunThen(h, first);
    UnheardSince(h + [first], g, key);
    RunThen(h + [first] + g, second);
  }

  /** A failure with an answer, or with any other code or none, changes no breaker. */
  lemma OtherFailure(b: Breaker, key: string, at: int, err: Option<NetError>)
    ensures err.None? || err.value.response || err.value.code.None? ==> AfterFailure(b, key, err, at) == b
    ensures var e := Failed(key, at, err);
            !Disconnects(e, key) && !TimesOut(e, key) ==> AfterFailure(b, key, err, at) == b
  {
    KindsInCodes(Failed(key, at, err), key);
  }

  lemma {:induction false} AnsweredFailure(h: seq<Event>, g: seq<Event>, key: string, at: int, code: Option<string>)
    ensures Run(h + [Failed(key, at, Some(NetError(code, true)))] + g) == Run(h + g)
  {
    var e := Failed(key, at, Some(NetError(code, true)));
    if g == [] {
      assert h + [e] + g == h + [e] && h + g == h;
      RunThen(h, e);
      OtherFailure(Run(h), key, at, e.err);
    } else {
      var f, last := g[..|g| - 1], g[|g| - 1];
      assert g == f + [last];
      AnsweredFailure(h, f, key, at, code);
      RunApart(h + [e], f, last);
      RunApart(h, f, last);
    }
  }
}
