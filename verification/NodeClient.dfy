/**
 * The interceptors that put every request of a DirectAdmin client through the circuit breaker (`client.ts`). Any
 * number of clients and requests share the breaker: a run is a sequence of requests begun and of outcomes, in any
 * order. A refused request rejects with a code of its own, and that rejection passes through the outcome
 * interceptor as well.
 */
module NodeClient {
  import opened Options
  import opened NodeCircuit

  const REFUSAL := Some(NetError(Some("ETIMEDOUT_CIRCUIT"), false))

  datatype Action =
    | Begin(key: string, at: int)
    | Answer(key: string, at: int)
    | Break(key: string, at: int, err: Option<NetError>)

  /** A request is sent to the node, not refused. */
  predicate Sent(b: Breaker, key: string, now: int) {
    Left(b, key, now) == 0
  }

  function AfterBegin(b: Breaker, key: string, now: int): Breaker {
    var asked := AfterAsking(b, key, now);
    if Sent(b, key, now) then asked else AfterFailure(asked, key, REFUSAL, now)
  }

  class DaClient {
    const circuits: Circuits
    const key: string

    constructor (circuits: Circuits, key: string)
      ensures this.circuits == circuits && this.key == key
    {
      this.circuits, this.key := circuits, key;
    }

    /** The request interceptor, and the outcome interceptor on its refusal. */
    method BeginRequest(now: int) returns (sent: bool)
      modifies circuits
      ensures sent == Sent(old(circuits.Contents()), key, now)
      ensures circuits.Contents() == AfterBegin(old(circuits.Contents()), key, now)
    {
      var left := circuits.NodeDownFor(key, now);
      if left > 0 {
        var opens := Rejected(REFUSAL, now);
        return false;
      }
      return true;
    }

    method Answered()
      modifies circuits
      ensures circuits.Contents() == AfterSuccess(old(circuits.Contents()), key)
    {
      circuits.RecordSuccess(key);
    }

    method Rejected(err: Option<NetError>, now: int) returns (opens: bool)
      modifies circuits
      ensures circuits.Contents() == AfterFailure(old(circuits.Contents()), key, err, now)
      ensures opens == Opens(old(circuits.Contents()), key, err, now)
    {
      opens := circuits.RecordFailure(key, err, now);
    }
  }

  // --------------------------------------------------------------------- runs

  function AfterAction(b: Breaker, a: Action): Breaker {
    match a
    case Begin(key, at) => AfterBegin(b, key, at)
    case Answer(key, at) => AfterSuccess(b, key)
    case Break(key, at, err) => AfterFailure(b, key, err, at)
  }

  function RunActions(s: seq<Action>): Breaker {
    if s == [] then CLOSED else AfterAction(RunActions(s[..|s| - 1]), s[|s| - 1])
  }

  predicate ActionsInOrder(s: seq<Action>, now: int) {
    && (forall i, j | 0 <= i <= j < |s| :: s[i].at <= s[j].at)
    && (forall i | 0 <= i < |s| :: s[i].at <= now)
  }

  function Outcome(a: Action): seq<Event> {
    match a
    case Begin(key, at) => []
    case Answer(key, at) => [Succeeded(key, at)]
    case Break(key, at, err) => [Failed(key, at, err)]
  }

  /** What really happened at the nodes: no refusals, no questions. */
  function Outcomes(s: seq<Action>): seq<Event> {
    if s == [] then [] else Outcomes(s[..|s| - 1]) + Outcome(s[|s| - 1])
  }

  lemma {:induction false} OutcomesInOrder(s: seq<Action>, now: int)
    requires ActionsInOrder(s, now)
    ensures InOrder(Outcomes(s), now)
  {
    if s == [] {
    } else {
      var last := s[|s| - 1].at;
      assert ActionsInOrder(s[..|s| - 1], last);
      OutcomesInOrder(s[..|s| - 1], last);
    }
  }

  /** The breakers differ at most in entries that have expired. */
  predicate SameButExpired(b: Breaker, c: Breaker, now: int) {
    && b.lastTimeout == c.lastTimeout
    && (forall k | k in b.downUntil :: k in c.downUntil && c.downUntil[k] == b.downUntil[k])
    && (forall k | k in c.downUntil && k !in b.downUntil :: c.downUntil[k] <= now)
  }

  lemma RefusalChangesNothing(b: Breaker, key: string, now: int)
    ensures AfterFailure(b, key, REFUSAL, now) == b
  {
  }

  lemma SameAfter(b: Breaker, c: Breaker, a: Action)
    requires SameButExpired(b, c, a.at)
    ensures SameButExpired(AfterAction(b, a), if a.Begin? then c else After(c, Outcome(a)[0]), a.at)
  {
  }

  lemma {:induction false} RefusalsLeaveNoTrace(s: seq<Action>, now: int)
    requires ActionsInOrder(s, now)
    ensures SameButExpired(RunActions(s), Run(Outcomes(s)), now)
  {
    if s == [] {
    } else {
      var r, a := s[..|s| - 1], s[|s| - 1];
      assert ActionsInOrder(r, a.at);
      RefusalsLeaveNoTrace(r, a.at);
      SameAfter(RunActions(r), Run(Outcomes(r)), a);
      if a.Begin? {
        assert Outcomes(s) == Outcomes(r);
      } else {
        RunThen(Outcomes(r), Outcome(a)[0]);
        assert Outcomes(s) == Outcomes(r) + [Outcome(a)[0]];
      }
    }
  }

  lemma SameLeft(b: Breaker, c: Breaker, key: string, now: int)
    requires SameButExpired(b, c, now)
    ensures Left(b, key, now) == Left(c, key, now)
  {
  }

  /**
   * A request is refused exactly when a real failure of that node, opening and under two minutes old, has come
   * since its last answer; otherwise it reaches the node. Refusals and their rejections play no part.
   */
  lemma RefusedIff(s: seq<Action>, key: string, now: int)
    requires ActionsInOrder(s, now)
    ensures !Sent(RunActions(s), key, now) <==> Down(Outcomes(s), key, now)
  {
    RefusalsLeaveNoTrace(s, now);
    OutcomesInOrder(s, now);
    SameLeft(RunActions(s), Run(Outcomes(s)), key, now);
    BreakerReadsHistory(Outcomes(s), key, now);
  }

  /** In the codes of the errors and in numbers (`BreakerInCodes`). */
  lemma RefusedInCodes(s: seq<Action>, key: string, now: int)
    requires ActionsInOrder(s, now)
    ensures !Sent(RunActions(s), key, now) <==> Shut(Outcomes(s), key, now)
  {
    RefusalsLeaveNoTrace(s, now);
    OutcomesInOrder(s, now);
    SameLeft(RunActions(s), Run(Outcomes(s)), key, now);
    BreakerInCodes(Outcomes(s), key, now);
  }

  predicate NetworkFailure(a: Action, key: string) {
    a.Break? && a.key == key && ErrorKind(a.err).Some?
  }

  /** However many requests were refused, two minutes after the last network failure the node is tried again. */
  lemma {:induction false} RefusalsNeverProlong(s: seq<Action>, key: string, last: int, now: int)
    requires forall i | 0 <= i < |s| && NetworkFailure(s[i], key) :: s[i].at <= last
    requires last + NODE_DOWN_MS <= now
    ensures Sent(RunActions(s), key, now)
    ensures key in RunActions(s).downUntil ==> RunActions(s).downUntil[key] <= last + NODE_DOWN_MS
  {
    if s == [] {
    } else {
      var r, a := s[..|s| - 1], s[|s| - 1];
      RefusalsNeverProlong(r, key, last, now);
      if a.Begin? {
        RefusalChangesNothing(AfterAsking(RunActions(r), a.key, a.at), a.key, a.at);
      }
    }
  }
}
