/** Who may close an order (`zamknijZlecenie`), and with what text for the client. */
module Closings {
  import opened Options
  import opened Ledger
  import opened Protocol
  import opened ProtocolInvariant
  import opened ProtocolSteps
  import opened ProtocolTheorems

  const MIN_REFUSAL := 10
  const MAX_TEXT := 1000

  /** The trimmed text by its length; `clients` is set for orders of clients, not of staff. */
  datatype ClosingRequest = ClosingRequest(id: RowId, refuse: bool, textLength: nat, admin: bool, clients: bool)

  function AskClosing(i: ClosingRequest): CallRequest {
    var fits := i.textLength <= MAX_TEXT && (i.refuse ==> i.textLength >= MIN_REFUSAL);
    Close(i.id, i.refuse, fits && (i.admin || i.clients))
  }

  /** Every closing was asked for by a request. */
  ghost predicate Asked(w: World, asked: map<CallId, ClosingRequest>) {
    forall c | c in w.calls && w.calls[c].req.Close? :: c in asked && AskClosing(asked[c]) == w.calls[c].req
  }

  /** The closing has found its order open, or has got further. */
  predicate PastLook(pc: Phase) {
    Live(pc).Seen? || Live(pc).Decided? || Live(pc).RefundFailed? || Live(pc) == Finished(Closed)
  }

  ghost predicate PermittedSoFar(w: World, c: CallId)
    requires c in w.calls
  {
    w.calls[c].req.Close? && PastLook(w.calls[c].pc) ==> w.calls[c].req.permitted
  }

  ghost predicate OnlyPermitted(w: World) {
    forall c | c in w.calls :: PermittedSoFar(w, c)
  }

  lemma LookPermitted(w: World, w': World, d: CallId)
    requires d in w.calls && w.calls[d].req.Close? && Look(w, w', d)
    ensures d in w'.calls && PermittedSoFar(w', d)
  {
  }

  lemma PastLookAlready(pc: Phase)
    requires pc.Seen? || pc.Decided? || pc.RefundFailed?
    ensures PastLook(pc)
  {
  }

  lemma ClosingPermitted(w: World, w': World, d: CallId)
    requires d in w.calls && w.calls[d].req.Close? && CloseStep(w, w', d) && PermittedSoFar(w, d)
    ensures d in w'.calls && PermittedSoFar(w', d)
  {
    if w.calls[d].pc.Opening? {
      LookPermitted(w, w', d);
    } else {
      CloseCalls(w, w', d);
      PastLookAlready(w.calls[d].pc);
    }
  }

  lemma OtherStepPermitted(w: World, w': World, d: CallId, a: Action)
    requires StepBy(w, w', d, a) && (a.Fail? || a.Crash?) && PermittedSoFar(w, d)
    ensures d in w'.calls && PermittedSoFar(w', d)
  {
  }

  lemma StepKeepsPermitted(w: World, w': World, d: CallId, a: Action)
    requires StepBy(w, w', d, a) && OnlyPermitted(w)
    ensures OnlyPermitted(w')
  {
    StepCalls(w, w', d, a);
    if d in w.calls {
      assert PermittedSoFar(w, d);
      if a.Fail? || a.Crash? {
        OtherStepPermitted(w, w', d, a);
      } else if a.Proceed? && w.calls[d].req.Close? {
        ClosingPermitted(w, w', d);
      }
    }
    forall c | c in w'.calls
      ensures PermittedSoFar(w', c)
    {
      if c != d {
        assert c in w.calls && PermittedSoFar(w, c);
      }
    }
  }

  lemma {:induction false} RunPermitted(run: seq<World>, n: nat)
    requires Run(run) && n < |run|
    ensures OnlyPermitted(run[n])
  {
    if n == 0 {
    } else {
      RunPermitted(run, n - 1);
      assert NextAt(run, n - 1);
      var c, a :| StepBy(run[n - 1], run[n], c, a);
      StepKeepsPermitted(run[n - 1], run[n], c, a);
    }
  }

  lemma DecidedHasCloser(w: World, id: RowId)
    requires Inv(w) && id in w.rows && w.rows[id].status in {Fulfilled, Refunded}
    ensures id in w.born && ClosedBy(w, id, w.rows[id].status == Refunded)
  {
    assert RowInv(w, id);
  }

  /**
   * Whatever order stands decided, in any run, was so by a request that allowed it: to close that very order the way it
   * is closed, by an administrator if it is not a client's, with a text of no more than a thousand characters, and of
   * ten at least for a refusal.
   */
  lemma ClosingsWereAllowed(run: seq<World>, n: nat, asked: map<CallId, ClosingRequest>, id: RowId)
    requires Run(run) && n < |run| && Asked(run[n], asked)
    requires id in run[n].rows && run[n].rows[id].status in {Fulfilled, Refunded}
    ensures id in run[n].closer && run[n].closer[id] in asked
    ensures var i := asked[run[n].closer[id]];
            && i.id == id && (i.refuse <==> run[n].rows[id].status == Refunded)
            && (i.admin || i.clients) && i.textLength <= 1000 && (i.refuse ==> i.textLength >= 10)
  {
    RunInv(run, n);
    RunPermitted(run, n);
    DecidedHasCloser(run[n], id);
    assert PermittedSoFar(run[n], run[n].closer[id]);
  }
}
