/** From a request to a purchase: what a client (`purchase`) and an operator (`dodajPrzezOperatora`) may start. */
module Requests {
  import opened Options
  import opened Ledger
  import opened Protocol
  import opened ProtocolInvariant
  import opened ProtocolSteps
  import opened ProtocolTheorems
  import Keys
  import Text

  /** The catalogue. */
  function AddonOf(slug: string): Option<Addon> {
    if slug == "priority_support_30d" then Some(PrioritySupport)
    else if slug == "manual_setup" then Some(ManualSetup)
    else if slug == "dedicated_ip" then Some(DedicatedIp)
    else None
  }

  datatype Payment = FromWallet | Gratis | UnknownPayment

  datatype ServiceStatus = PendingPayment | Provisioning | Active | PastDue | Suspended | Canceled | Expired

  /** The service as it is found; `clients` is set for accounts of clients, not of staff. */
  datatype Service = Service(id: string, owner: UserId, status: ServiceStatus, clients: bool)

  /** The number given: none, not the client's ticket, or that ticket with or without the client's own request in it. */
  datatype TicketCheck = NoTicket | NotTheirs | Found(askedByClient: bool)

  datatype OperatorRequest = OperatorRequest(
    slug: string, payment: Payment, service: Option<Service>, admin: bool, reasonLength: nat,
    ticket: TicketCheck, key: Option<string>, extend: bool)

  const MIN_REASON := 10

  datatype Refusal =
    | UnknownAddon | BadPayment | NoService | ServiceEnded | StaffAccount | NoReason | BadTicket
    | TicketNeeded | NotAsked | ServiceSuspended

  datatype Answer = Refused(why: Refusal) | Start(purchase: CallRequest)

  /** `purchase`: a service named must be the buyer's own. */
  function AskClient(user: UserId, slug: string, subscription: Option<string>, own: bool, clientKey: Option<string>,
                     extend: bool, now: nat): Answer
  {
    if AddonOf(slug).None? then Refused(UnknownAddon)
    else if subscription.Some? && subscription.value != "" && !own then Refused(NoService)
    else
      var key := Keys.PurchaseKey(user, slug, subscription, clientKey, now);
      Start(Buy(user, AddonOf(slug).value, key, false, extend))
  }

  /** `dodajPrzezOperatora`, with its checks in order. */
  function AskOperator(i: OperatorRequest, now: nat): Answer {
    if AddonOf(i.slug).None? then Refused(UnknownAddon)
    else if i.payment.UnknownPayment? then Refused(BadPayment)
    else if i.service.None? then Refused(NoService)
    else
      var s := i.service.value;
      if s.status.Canceled? || s.status.Expired? then Refused(ServiceEnded)
      else if !i.admin && !s.clients then Refused(StaffAccount)
      else if i.reasonLength < MIN_REASON then Refused(NoReason)
      else if i.ticket.NotTheirs? then Refused(BadTicket)
      else if i.payment.FromWallet? && i.ticket.NoTicket? then Refused(TicketNeeded)
      else if i.payment.FromWallet? && !i.ticket.askedByClient then Refused(NotAsked)
      else if i.payment.FromWallet? && s.status.Suspended? then Refused(ServiceSuspended)
      else
        Start(Buy(s.owner, AddonOf(i.slug).value, Keys.OperatorKey(s.owner, i.slug, s.id, i.key, now),
                  i.payment.Gratis?, i.extend))
  }

  /** What both start is a purchase of that add-on for that account, under a key that the theorems speak of. */
  lemma StartsOwnPurchase(user: UserId, slug: string, subscription: Option<string>, own: bool,
                          clientKey: Option<string>, extend: bool, now: nat, i: OperatorRequest)
    ensures var a := AskClient(user, slug, subscription, own, clientKey, extend, now);
            a.Start? ==>
              && a.purchase.user == user && AddonOf(slug) == Some(a.purchase.addon) && a.purchase.extend == extend
              && !a.purchase.free && Keys.IsPurchaseKey(a.purchase.key)
    ensures var a := AskOperator(i, now);
            a.Start? ==>
              && i.service.Some? && a.purchase.user == i.service.value.owner
              && AddonOf(i.slug) == Some(a.purchase.addon) && a.purchase.extend == i.extend
              && (a.purchase.free <==> i.payment == Gratis) && Keys.IsPurchaseKey(a.purchase.key)
  {
  }

  // ------------------------------------------------------------------ over whole runs

  /** The request that a purchase was started by. */
  datatype Origin =
    | FromClient(user: UserId, slug: string, subscription: Option<string>, own: bool, clientKey: Option<string>,
                 extend: bool, now: nat)
    | FromOperator(request: OperatorRequest, now: nat)

  function AnswerTo(o: Origin): Answer {
    match o
    case FromClient(user, slug, subscription, own, clientKey, extend, now) =>
      AskClient(user, slug, subscription, own, clientKey, extend, now)
    case FromOperator(request, now) => AskOperator(request, now)
  }

  /** Every purchase was started by a request. */
  ghost predicate Originated(w: World, origins: map<CallId, Origin>) {
    forall c | c in w.calls && w.calls[c].req.Buy? :: c in origins && AnswerTo(origins[c]) == Start(w.calls[c].req)
  }

  function SlugOf(o: Origin): string {
    if o.FromClient? then o.slug else o.request.slug
  }

  /** User `u` wanted the purchase: it was their own, or an operator made it at their request in a ticket of theirs. */
  predicate WantedBy(o: Origin, u: UserId) {
    match o
    case FromClient(user, _, subscription, own, _, _, _) => user == u && (Keys.Given(subscription) ==> own)
    case FromOperator(i, _) =>
      && i.payment == FromWallet && i.ticket == Found(true) && i.reasonLength >= MIN_REASON
      && i.service.Some? && i.service.value.owner == u && i.service.value.status !in {Suspended, Canceled, Expired}
      && (i.admin || i.service.value.clients)
  }

  lemma PaidOriginWanted(o: Origin, r: CallRequest)
    requires AnswerTo(o) == Start(r) && r.Buy? && !r.free
    ensures WantedBy(o, r.user) && AddonOf(SlugOf(o)) == Some(r.addon)
  {
  }

  /** The entry is the charge for the row that call `c` created. */
  ghost predicate ChargeOf(w: World, e: Entry, c: CallId) {
    && c in w.calls && w.calls[c].req.Buy? && RowOf(w.calls[c].pc).Some?
    && var id := RowOf(w.calls[c].pc).value;
    && id in w.born && w.born[id].call == c && e.key == Some(Keys.ChargeKey(Some(w.calls[c].req.key), id))
  }

  /** The purchase that a charge belongs to. */
  lemma ChargeHasCall(w: World, e: Entry) returns (c: CallId)
    requires Inv(w) && e in w.books.entries && e.key.Some? && Keys.IsAddonKey(e.key.value) && e.amount < 0
    ensures ChargeOf(w, e, c) && !w.calls[c].req.free
    ensures e.user == w.calls[c].req.user && e.amount == 0 - w.calls[c].req.addon.Price()
  {
    var id :| id in w.born && EntryOf(e, id, w.born[id]);
    assert RowInv(w, id) && Owned(w, id);
    c := w.born[id].call;
  }

  /**
   * Whatever a wallet was ever charged for an add-on, in any run, its owner wanted: the charge is for the row of a
   * purchase of their own, or one that an operator made at their request, given in a ticket of theirs, for a service of
   * theirs neither suspended nor ended; and they were charged the price in the catalogue.
   */
  lemma ChargesWereWanted(run: seq<World>, n: nat, origins: map<CallId, Origin>, e: Entry) returns (c: CallId)
    requires Run(run) && n < |run| && Originated(run[n], origins)
    requires e in run[n].books.entries && e.key.Some? && Keys.IsAddonKey(e.key.value) && e.amount < 0
    ensures ChargeOf(run[n], e, c) && c in origins && WantedBy(origins[c], e.user)
    ensures AddonOf(SlugOf(origins[c])).Some? && e.amount == 0 - AddonOf(SlugOf(origins[c])).value.Price()
  {
    RunInv(run, n);
    c := ChargeHasCall(run[n], e);
    PaidOriginWanted(origins[c], run[n].calls[c].req);
  }

  /** And no purchase was charged for twice: different charges belong to different purchases. */
  lemma OneChargeEach(run: seq<World>, n: nat, c: CallId, i: nat, j: nat)
    requires Run(run) && n < |run| && i < |run[n].books.entries| && j < |run[n].books.entries|
    requires ChargeOf(run[n], run[n].books.entries[i], c) && ChargeOf(run[n], run[n].books.entries[j], c)
    ensures i == j
  {
    RunInv(run, n);
  }

  /** The catalogue by slug, add-on and price in grosze. */
  predicate Costs(slug: string, addon: Addon, price: nat) {
    || (slug == "priority_support_30d" && addon == PrioritySupport && price == 4900)
    || (slug == "manual_setup" && addon == ManualSetup && price == 9900)
    || (slug == "dedicated_ip" && addon == DedicatedIp && price == 2500)
  }

  /**
   * What an operator may do: for a service that has not ended, of a client unless by an administrator, with a reason
   * of ten characters and no ticket but the client's; from the wallet only as asked for in one, and not if suspended.
   */
  predicate Entitled(i: OperatorRequest) {
    && i.service.Some?
    && var s := i.service.value;
    && s.status != Canceled && s.status != Expired && (i.admin || s.clients)
    && i.reasonLength >= 10 && i.ticket != NotTheirs
    && (i.payment == Gratis || (i.payment == FromWallet && i.ticket == Found(true) && s.status != Suspended))
  }

  /** The row is what its request asked for, at the price in the catalogue or for nothing. */
  ghost predicate ComesOf(row: Row, o: Origin) {
    match o
    case FromClient(user, slug, subscription, own, _, _, _) =>
      row.user == user && (Keys.Given(subscription) ==> own) && Costs(slug, row.addon, row.amount)
    case FromOperator(i, _) =>
      && Entitled(i) && row.user == i.service.value.owner
      && if i.payment == Gratis then row.amount == 0 && exists price :: Costs(i.slug, row.addon, price)
         else Costs(i.slug, row.addon, row.amount)
  }

  lemma CatalogueIs(slug: string, addon: Addon)
    ensures AddonOf(slug) == Some(addon) <==> Costs(slug, addon, addon.Price())
  {
  }

  lemma OperatorStartsIff(i: OperatorRequest, now: nat)
    ensures AskOperator(i, now).Start? <==> Entitled(i) && exists addon, price :: Costs(i.slug, addon, price)
  {
    if AddonOf(i.slug).Some? {
      CatalogueIs(i.slug, AddonOf(i.slug).value);
    }
  }

  lemma StartedRow(o: Origin, r: CallRequest, row: Row)
    requires AnswerTo(o) == Start(r) && r.Buy?
    requires row.user == r.user && row.addon == r.addon && row.amount == r.Amount()
    ensures ComesOf(row, o)
  {
    CatalogueIs(SlugOf(o), r.addon);
    if o.FromOperator? {
      OperatorStartsIff(o.request, o.now);
    }
  }

  /** Every row there is, in any run, came of a request that was entitled to it; the free ones no less than the rest. */
  lemma RowsWereAllowed(run: seq<World>, n: nat, origins: map<CallId, Origin>, id: RowId)
    requires Run(run) && n < |run| && Originated(run[n], origins) && id in run[n].rows
    ensures id in run[n].born && run[n].born[id].call in origins
    ensures ComesOf(run[n].rows[id], origins[run[n].born[id].call])
  {
    RunInv(run, n);
    assert RowInv(run[n], id);
    var c := run[n].born[id].call;
    StartedRow(origins[c], run[n].calls[c].req, run[n].rows[id]);
  }

  /**
   * One decision of an operator, repeated at any times and by any number of operators, on whatever terms, buys at
   * most once: calls started with the same form key for services of one owner never both buy.
   */
  lemma OperatorDecidesOnce(run: seq<World>, n: nat, i: OperatorRequest, s: nat, j: OperatorRequest, t: nat,
                            c: CallId, d: CallId)
    requires Run(run) && n < |run|
    requires AskOperator(i, s).Start? && AskOperator(j, t).Start?
    requires i.service.value.owner == j.service.value.owner && i.key == j.key && i.key.Some? && i.key.value != ""
    requires c in run[n].calls && run[n].calls[c].req == AskOperator(i, s).purchase
    requires d in run[n].calls && run[n].calls[d].req == AskOperator(j, t).purchase
    requires HasBought(run[n], run[n].calls[c].req.key, c) && HasBought(run[n], run[n].calls[d].req.key, d)
    ensures c == d
  {
    var key := run[n].calls[c].req.key;
    StartsOwnPurchase("", "", None, false, None, false, s, i);
    assert run[n].calls[d].req.key == key;
    OneDecision(run, n, key);
  }

  /** Without keys of their own, requests of clients are one decision exactly in the same window for the same thing. */
  lemma ClientDecidesOnceIff(u: UserId, slug: string, a: Option<string>, v: UserId, slug': string, b: Option<string>,
                             own: bool, own': bool, x: bool, y: bool, s: nat, t: nat)
    requires Text.NoColon(u) && Text.NoColon(v)
    requires (a.Some? ==> Text.NoColon(a.value)) && (b.Some? ==> Text.NoColon(b.value))
    requires AskClient(u, slug, a, own, None, x, s).Start? && AskClient(v, slug', b, own', None, y, t).Start?
    ensures AskClient(u, slug, a, own, None, x, s).purchase.key == AskClient(v, slug', b, own', None, y, t).purchase.key
            <==> && u == v && slug == slug'
                 && (if a.Some? then a.value else "-") == (if b.Some? then b.value else "-")
                 && s / 300_000 == t / 300_000
  {
    SlugHasNoColon(slug);
    SlugHasNoColon(slug');
    Keys.WindowDecisionIff(slug, a, s, slug', b, t);
    Keys.SameKeyIff(u, Keys.WindowDecision(slug, a, s), v, Keys.WindowDecision(slug', b, t));
  }

  lemma SlugHasNoColon(slug: string)
    requires AddonOf(slug).Some?
    ensures Text.NoColon(slug)
  {
  }
}
