/** The idempotency keys of add-on purchases and of their ledger entries. */
module Keys {
  import opened Options
  import opened Text

  const WINDOW_MS := 300_000

  const PURCHASE_PREFIX := "addon:v1:"
  const NO_KEY_PREFIX := "addon:bez-klucza"
  const REFUND_SUFFIX := "zwrot"

  // ------------------------------------------------------------- ledger keys

  /** What precedes the row id in a charge key; an empty purchase key counts as none. */
  function ChargeStem(key: Option<string>): string {
    if key.Some? && key.value != "" then key.value else NO_KEY_PREFIX
  }

  /** `kluczObciazeniaZakupu` */
  function ChargeKey(key: Option<string>, id: string): string {
    ChargeStem(key) + ":" + id
  }

  function RefundKey(key: Option<string>, id: string): string {
    ChargeKey(key, id) + ":" + REFUND_SUFFIX
  }

  /** Charges of distinct rows, and likewise refunds of distinct rows, never share a ledger key. */
  lemma LedgerKeysOfDistinctRows(k: Option<string>, i: string, l: Option<string>, j: string)
    requires NoColon(i) && NoColon(j) && i != j
    ensures ChargeKey(k, i) != ChargeKey(l, j)
    ensures RefundKey(k, i) != RefundKey(l, j)
  {
    if ChargeKey(k, i) == ChargeKey(l, j) {
      LastColon(ChargeStem(k), i, ChargeStem(l), j);
    }
    if RefundKey(k, i) == RefundKey(l, j) {
      LastColon(ChargeKey(k, i), REFUND_SUFFIX, ChargeKey(l, j), REFUND_SUFFIX);
    }
  }

  /** Charge keys agree exactly for one row and one purchase key; no key, an empty one and the stand-in are the same. */
  lemma ChargeKeysAgreeIff(k: Option<string>, i: string, l: Option<string>, j: string)
    requires NoColon(i) && NoColon(j)
    ensures var none := {None, Some(""), Some("addon:bez-klucza")};
            ChargeKey(k, i) == ChargeKey(l, j) <==> i == j && (k == l || (k in none && l in none))
  {
    if ChargeKey(k, i) == ChargeKey(l, j) {
      LastColon(ChargeStem(k), i, ChargeStem(l), j);
    }
  }

  /** A charge key is a refund key exactly if its row has the refund suffix as id and the other charge as key. */
  lemma ChargeIsRefundIff(k: Option<string>, i: string, l: Option<string>, j: string)
    requires NoColon(i)
    ensures ChargeKey(k, i) == RefundKey(l, j) <==> i == REFUND_SUFFIX && ChargeStem(k) == ChargeKey(l, j)
  {
    if ChargeKey(k, i) == RefundKey(l, j) {
      LastColon(ChargeStem(k), i, ChargeKey(l, j), REFUND_SUFFIX);
    }
  }

  /** Colon-free ids alone are therefore not enough to keep charges and refunds apart. */
  lemma RefundSuffixAsId()
    ensures NoColon(REFUND_SUFFIX) && NoColon("7")
    ensures ChargeKey(Some("addon:v1:u:k:7"), REFUND_SUFFIX) == RefundKey(Some("addon:v1:u:k"), "7")
  {
  }

  /** What row ids have (they are UUIDs), and all that the key scheme needs of them. */
  predicate RowIdShape(id: string) {
    NoColon(id) && id != REFUND_SUFFIX
  }

  /** Every ledger key of one row differs from every ledger key of another, and its two keys differ. */
  lemma LedgerKeysApart(k: Option<string>, i: string, l: Option<string>, j: string)
    requires RowIdShape(i) && RowIdShape(j)
    ensures i != j ==> ChargeKey(k, i) != ChargeKey(l, j) && RefundKey(k, i) != RefundKey(l, j)
    ensures ChargeKey(k, i) != RefundKey(l, j)
  {
    ChargeIsRefundIff(k, i, l, j);
    if i != j {
      LedgerKeysOfDistinctRows(k, i, l, j);
    }
  }

  // ----------------------------------------------------------- purchase keys

  predicate IsAddonKey(key: string) {
    "addon:" <= key
  }

  predicate IsPurchaseKey(key: string) {
    PURCHASE_PREFIX <= key
  }

  lemma LedgerKeysAreAddonKeys(key: string, id: string)
    requires IsPurchaseKey(key)
    ensures IsAddonKey(ChargeKey(Some(key), id)) && IsAddonKey(RefundKey(Some(key), id))
  {
  }

  function UserKey(user: string, decision: string): string {
    PURCHASE_PREFIX + (user + ":" + decision)
  }

  /** The five-minute window: service, or a dash for an account-level add-on, and window number. */
  function WindowDecision(slug: string, subscription: Option<string>, now: nat): string {
    slug + ":" + (if subscription.Some? then subscription.value else "-") + ":" + Decimal(now / WINDOW_MS)
  }

  predicate Given(key: Option<string>) {
    key.Some? && key.value != ""
  }

  /** `kluczIdempotencji` */
  function PurchaseKey(user: string, slug: string, subscription: Option<string>, clientKey: Option<string>, now: nat)
    : string
  {
    UserKey(user, if Given(clientKey) then clientKey.value else WindowDecision(slug, subscription, now))
  }

  /** What an operator's key says of the decision: the form's key, or the window. */
  function OperatorDecision(slug: string, subscription: string, formKey: Option<string>, now: nat): string {
    if Given(formKey) then formKey.value else WindowDecision(slug, Some(subscription), now)
  }

  /** The operator's key in `dodajPrzezOperatora`. */
  function OperatorKey(user: string, slug: string, subscription: string, formKey: Option<string>, now: nat): string {
    UserKey(user, "op:" + OperatorDecision(slug, subscription, formKey, now))
  }

  /** Keys of different users never meet; one user's keys meet exactly when the decisions read the same. */
  lemma SameKeyIff(u: string, d: string, v: string, e: string)
    requires NoColon(u) && NoColon(v)
    ensures UserKey(u, d) == UserKey(v, e) <==> u == v && d == e
  {
    SamePrefix(PURCHASE_PREFIX, u + ":" + d, v + ":" + e);
    if UserKey(u, d) == UserKey(v, e) {
      FirstColon(u, d, v, e);
    }
  }

  /** Two requests without a client key are one decision exactly for the same add-on and service in the same window. */
  lemma WindowDecisionIff(slug: string, s: Option<string>, now: nat, slug': string, s': Option<string>, now': nat)
    requires NoColon(slug) && NoColon(slug')
    requires (s.Some? ==> NoColon(s.value)) && (s'.Some? ==> NoColon(s'.value))
    ensures WindowDecision(slug, s, now) == WindowDecision(slug', s', now') <==>
              && slug == slug'
              && (if s.Some? then s.value else "-") == (if s'.Some? then s'.value else "-")
              && now / 300_000 == now' / 300_000
  {
    var a, b := if s.Some? then s.value else "-", if s'.Some? then s'.value else "-";
    var m, n := Decimal(now / WINDOW_MS), Decimal(now' / WINDOW_MS);
    if WindowDecision(slug, s, now) == WindowDecision(slug', s', now') {
      LastColon(slug + ":" + a, m, slug' + ":" + b, n);
      FirstColon(slug, a, slug', b);
      DecimalInjective(now / WINDOW_MS, now' / WINDOW_MS);
    }
  }

  /**
   * A key of the client's own is the decision, whatever it is for and whenever it comes: two such requests are one
   * exactly with the same key, and one without a key is the same exactly if the key spells its window out.
   */
  lemma ClientKeysAgreeIff(u: string, slug: string, s: Option<string>, k: string, now: nat,
                           v: string, slug': string, s': Option<string>, k': Option<string>, now': nat)
    requires NoColon(u) && NoColon(v) && k != ""
    ensures PurchaseKey(u, slug, s, Some(k), now) == "addon:v1:" + u + ":" + k
    ensures PurchaseKey(u, slug, s, Some(k), now) == PurchaseKey(v, slug', s', k', now') <==>
              && u == v
              && if Given(k') then k' == Some(k)
                 else k == slug' + ":" + (if s'.Some? then s'.value else "-") + ":" + Decimal(now' / 300_000)
  {
    SameKeyIff(u, k, v, if Given(k') then k'.value else WindowDecision(slug', s', now'));
  }

  lemma WindowIsNoOperators(slug: string, subscription: Option<string>, now: nat, decision: string)
    requires NoColon(slug) && slug != "op"
    ensures WindowDecision(slug, subscription, now) != "op:" + decision
  {
    var rest := (if subscription.Some? then subscription.value else "-") + ":" + Decimal(now / WINDOW_MS);
    assert WindowDecision(slug, subscription, now) == slug + ":" + rest;
    assert "op:" + decision == "op" + ":" + decision;
    if slug + ":" + rest == "op" + ":" + decision {
      FirstColon(slug, rest, "op", decision);
    }
  }

  /**
   * A client's request is taken for an operator's decision exactly when it is for the same user and brings a key of
   * its own that spells the operator's decision out, be that a form's key or a window.
   */
  lemma ClientMeetsOperatorIff(u: string, v: string, slug: string, subscription: Option<string>,
                               clientKey: Option<string>, now: nat,
                               slug': string, s: string, formKey: Option<string>, now': nat)
    requires NoColon(u) && NoColon(v) && NoColon(slug) && slug != "op"
    ensures PurchaseKey(u, slug, subscription, clientKey, now) == OperatorKey(v, slug', s, formKey, now')
            <==> u == v && clientKey == Some("op:" + OperatorDecision(slug', s, formKey, now'))
  {
    var decision := OperatorDecision(slug', s, formKey, now');
    var mine := if Given(clientKey) then clientKey.value else WindowDecision(slug, subscription, now);
    SameKeyIff(u, mine, v, "op:" + decision);
    WindowIsNoOperators(slug, subscription, now, decision);
  }

  predicate KeyChar(c: char) {
    'A' <= c <= 'Z' || 'a' <= c <= 'z' || '0' <= c <= '9' || c == '.' || c == '_' || c == ':' || c == '-'
  }

  predicate KeyChars(s: string) {
    forall i | 0 <= i < |s| :: KeyChar(s[i])
  }

  /** What the forms accept as a key. */
  predicate AcceptedKey(key: string) {
    8 <= |key| <= 128 && KeyChars(key)
  }

  lemma KeyCharsOfSum(a: string, b: string)
    ensures KeyChars(a + b) <==> KeyChars(a) && KeyChars(b)
  {
    assert forall i | 0 <= i < |a| :: (a + b)[i] == a[i];
    assert forall i | 0 <= i < |b| :: (a + b)[|a| + i] == b[i];
  }

  lemma WindowSpelling(slug: string, service: string, now: nat)
    requires KeyChars(slug)
    ensures KeyChars("op:" + WindowDecision(slug, Some(service), now)) <==> KeyChars(service)
  {
    var number := Decimal(now / WINDOW_MS);
    KeyCharsOfSum(slug, ":");
    KeyCharsOfSum(slug + ":", service);
    KeyCharsOfSum(slug + ":" + service, ":");
    KeyCharsOfSum(slug + ":" + service + ":", number);
    KeyCharsOfSum("op:", WindowDecision(slug, Some(service), now));
  }

  /**
   * Of an operator who adds something to a service without a form key, a client may spell out the decision in a key
   * that the form accepts, if it is not too long and the service's id has only letters, digits, `-`, `.`, `:` and `_`;
   * the two then meet.
   */
  lemma AcceptedKeyMeetsOperator(u: string, slug: string, subscription: Option<string>, now: nat,
                                 slug': string, service: string, now': nat)
    requires |slug'| >= 4 && KeyChars(slug')
    ensures var key := "op:" + WindowDecision(slug', Some(service), now');
            && PurchaseKey(u, slug, subscription, Some(key), now) == OperatorKey(u, slug', service, None, now')
            && (AcceptedKey(key) <==>
                  && |key| <= 128
                  && forall c | c in service ::
                       || 48 <= c as int <= 57 || 65 <= c as int <= 90 || 97 <= c as int <= 122
                       || c as int == 45 || c as int == 46 || c as int == 58 || c as int == 95)
  {
    WindowSpelling(slug', service, now');
    assert KeyChars(service) <==> forall c | c in service :: KeyChar(c);
  }
}
