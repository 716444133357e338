/**
 * The wallet ledger (`WalletLedgerService`): what one entry does to the books when it runs alone.
 * Amounts are whole grosze. `RowLock` shows that concurrent entries amount to such single entries.
 */
module Ledger {
  import opened Options

  type UserId = string

  /** A row of WalletTransaction; `amount` is signed. */
  datatype Entry = Entry(user: UserId, amount: int, balanceAfter: int, key: Option<string>)

  /** The wallet columns of a User row. */
  datatype Account = Account(balance: int, subaccount: bool)

  datatype Books = Books(accounts: map<UserId, Account>, entries: seq<Entry>)

  datatype Direction = Credit | Debit

  datatype Request = Request(user: UserId, amount: int, direction: Direction, key: Option<string>)
  {
    function Signed(): int {
      if direction == Credit then amount else -amount
    }

    /** The source tests the key for truthiness, so an empty key counts as no key for look-ups. */
    predicate Keyed() {
      key.Some? && key.value != ""
    }
  }

  datatype Outcome =
    | Posted(entry: Entry)
    | Existing(entry: Entry)
    | NotPositive
    | NoAccount
    | SubAccount
    | Insufficient
    | KeyTaken

  function Find(entries: seq<Entry>, key: string): (r: Option<Entry>)
    ensures r.Some? ==> r.value in entries && r.value.key == Some(key)
    ensures r.None? ==> forall e | e in entries :: e.key != Some(key)
  {
    if entries == [] then None
    else
      var last := entries[|entries| - 1];
      if last.key == Some(key) then Some(last) else Find(entries[..|entries| - 1], key)
  }

  predicate HasKey(entries: seq<Entry>, key: string) {
    Find(entries, key).Some?
  }

  lemma FindAfterAppend(entries: seq<Entry>, e: Entry, key: string)
    ensures HasKey(entries + [e], key) <==> e.key == Some(key) || HasKey(entries, key)
    ensures e.key != Some(key) ==> Find(entries + [e], key) == Find(entries, key)
    ensures e.key == Some(key) ==> Find(entries + [e], key) == Some(e)
  {
  }

  /** The entry a request writes when the account holds `balance`. */
  function EntryFor(r: Request, balance: int): Entry {
    Entry(r.user, r.Signed(), balance + r.Signed(), r.key)
  }

  /** The transaction body (`zapiszWpis`): account checks, balance check, update and insert. */
  function Write(b: Books, r: Request): (Books, Outcome) {
    if r.user !in b.accounts then (b, NoAccount)
    else
      var a := b.accounts[r.user];
      if a.subaccount then (b, SubAccount)
      else if a.balance + r.Signed() < 0 then (b, Insufficient)
      else if r.key.Some? && HasKey(b.entries, r.key.value) then (b, KeyTaken)
      else
        var e := EntryFor(r, a.balance);
        (Books(b.accounts[r.user := a.(balance := e.balanceAfter)], b.entries + [e]), Posted(e))
  }

  /** `applyEntry` run alone: amount check, idempotent look-up, then the transaction. */
  function Post(b: Books, r: Request): (Books, Outcome) {
    if r.amount <= 0 then (b, NotPositive)
    else if r.Keyed() && HasKey(b.entries, r.key.value) then (b, Existing(Find(b.entries, r.key.value).value))
    else Write(b, r)
  }

  /** Sum of a user's signed entries. */
  function Sum(entries: seq<Entry>, u: UserId): int {
    if entries == [] then 0
    else
      var last := entries[|entries| - 1];
      Sum(entries[..|entries| - 1], u) + (if last.user == u then last.amount else 0)
  }

  lemma SumAfterAppend(entries: seq<Entry>, e: Entry, u: UserId)
    ensures Sum(entries + [e], u) == Sum(entries, u) + (if e.user == u then e.amount else 0)
  {
  }

  ghost predicate UniqueKeys(entries: seq<Entry>) {
    forall i, j | 0 <= i < j < |entries| :: entries[i].key.Some? ==> entries[i].key != entries[j].key
  }

  /** Every entry records the balance its owner had right after it, and that balance is not negative. */
  ghost predicate RunningBalances(opening: map<UserId, int>, entries: seq<Entry>) {
    forall i | 0 <= i < |entries| ::
      && entries[i].user in opening
      && entries[i].balanceAfter == opening[entries[i].user] + Sum(entries[..i + 1], entries[i].user)
      && entries[i].balanceAfter >= 0
  }

  /** The books agree with their own history, from the balances in `opening`. */
  ghost predicate Sound(opening: map<UserId, int>, b: Books) {
    && b.accounts.Keys == opening.Keys
    && (forall u | u in b.accounts ::
          b.accounts[u].balance == opening[u] + Sum(b.entries, u) && b.accounts[u].balance >= 0)
    && RunningBalances(opening, b.entries)
    && UniqueKeys(b.entries)
  }

  lemma RunningBalancesAfter(opening: map<UserId, int>, entries: seq<Entry>, e: Entry)
    requires RunningBalances(opening, entries) && e.user in opening && e.balanceAfter >= 0
    requires e.balanceAfter == opening[e.user] + Sum(entries + [e], e.user)
    ensures RunningBalances(opening, entries + [e])
  {
    var all := entries + [e];
    forall i | 0 <= i < |entries|
      ensures all[i] == entries[i] && all[..i + 1] == entries[..i + 1]
    {
    }
    assert all[..|entries| + 1] == all;
  }

  lemma UniqueKeysAfter(entries: seq<Entry>, e: Entry)
    requires UniqueKeys(entries) && (e.key.Some? ==> !HasKey(entries, e.key.value))
    ensures UniqueKeys(entries + [e])
  {
  }

  lemma BalancesAfter(opening: map<UserId, int>, b: Books, r: Request)
    requires Sound(opening, b) && Post(b, r).1.Posted?
    ensures var b' := Post(b, r).0;
            && b'.accounts.Keys == opening.Keys
            && forall u | u in b'.accounts ::
                 b'.accounts[u].balance == opening[u] + Sum(b'.entries, u) && b'.accounts[u].balance >= 0
  {
    var (b', o) := Post(b, r);
    forall u | u in b.accounts
      ensures b'.accounts[u].balance == opening[u] + Sum(b'.entries, u)
    {
      SumAfterAppend(b.entries, o.entry, u);
    }
  }

  /** Posting keeps the books sound: no update is lost, no balance goes negative, no key is used twice. */
  lemma PostKeepsSound(opening: map<UserId, int>, b: Books, r: Request)
    requires Sound(opening, b)
    ensures Sound(opening, Post(b, r).0)
  {
    var (b', o) := Post(b, r);
    if o.Posted? {
      BalancesAfter(opening, b, r);
      RunningBalancesAfter(opening, b.entries, o.entry);
      UniqueKeysAfter(b.entries, o.entry);
    }
  }

  /**
   * An entry is written at most once per key: a repeated request moves nothing. It returns the first entry, exactly
   * unless the key is empty.
   */
  lemma RepeatedPost(b: Books, r: Request, again: Request)
    requires Post(b, r).1.Posted? && r.key.Some? && again.key == r.key && again.amount > 0
    ensures Post(Post(b, r).0, again).0 == Post(b, r).0
    ensures Post(Post(b, r).0, again).1 == Existing(Post(b, r).1.entry) <==> r.key != Some("")
  {
  }

  /** Requests run one after another. */
  function PostAll(b: Books, rs: seq<Request>): Books {
    if rs == [] then b else Post(PostAll(b, rs[..|rs| - 1]), rs[|rs| - 1]).0
  }

  lemma PostAllAppend(b: Books, rs: seq<Request>, r: Request)
    ensures PostAll(b, rs + [r]) == Post(PostAll(b, rs), r).0
  {
  }

  lemma {:induction false} PostAllKeepsSound(opening: map<UserId, int>, b: Books, rs: seq<Request>)
    requires Sound(opening, b)
    ensures Sound(opening, PostAll(b, rs))
  {
    if rs == [] {
    } else {
      PostAllKeepsSound(opening, b, rs[..|rs| - 1]);
      PostKeepsSound(opening, PostAll(b, rs[..|rs| - 1]), rs[|rs| - 1]);
    }
  }

  /** The entry was written for the request, to the account of a customer's own: none else has a wallet. */
  predicate WrittenFor(accounts: map<UserId, Account>, e: Entry, r: Request) {
    && e.user == r.user && r.user in accounts && !accounts[r.user].subaccount
    && r.amount > 0 && e.amount == (if r.direction == Credit then r.amount else 0 - r.amount) && e.key == r.key
  }

  /** The same accounts, with the sub-accounts among them, and entries added for the requests. */
  ghost predicate Grown(b: Books, b': Books, rs: seq<Request>) {
    && b'.accounts.Keys == b.accounts.Keys
    && (forall u | u in b.accounts :: b'.accounts[u].subaccount == b.accounts[u].subaccount)
    && b.entries <= b'.entries
    && forall e | e in b'.entries[|b.entries|..] :: exists r :: r in rs && WrittenFor(b.accounts, e, r)
  }

  lemma PostGrows(b: Books, b': Books, rs: seq<Request>, r: Request)
    requires Grown(b, b', rs)
    ensures Grown(b, Post(b', r).0, rs + [r])
  {
    var (b'', o) := Post(b', r);
    forall e | e in b''.entries[|b.entries|..]
      ensures exists r' :: r' in rs + [r] && WrittenFor(b.accounts, e, r')
    {
      if e in b'.entries[|b.entries|..] {
        var r' :| r' in rs && WrittenFor(b.accounts, e, r');
        assert r' in rs + [r];
      } else {
        assert b''.entries[|b.entries|..] == b'.entries[|b.entries|..] + [o.entry];
        assert r in rs + [r] && WrittenFor(b.accounts, e, r);
      }
    }
  }

  lemma {:induction false} PostAllGrows(b: Books, rs: seq<Request>)
    ensures Grown(b, PostAll(b, rs), rs)
  {
    if rs == [] {
    } else {
      var before := rs[..|rs| - 1];
      PostAllGrows(b, before);
      PostGrows(b, PostAll(b, before), before, rs[|rs| - 1]);
      assert before + [rs[|rs| - 1]] == rs;
    }
  }

  /** The ledger as the object the rest of the system calls, updating its two tables in place. */
  class WalletLedger {
    var accounts: map<UserId, Account>
    var entries: seq<Entry>

    function Contents(): Books
      reads this
    {
      Books(accounts, entries)
    }

    constructor (accounts: map<UserId, Account>)
      ensures Contents() == Books(accounts, [])
    {
      this.accounts := accounts;
      this.entries := [];
    }

    method ApplyEntry(r: Request) returns (o: Outcome)
      modifies this
      ensures (Contents(), o) == Post(old(Contents()), r)
    {
      if r.amount <= 0 {
        return NotPositive;
      }
      if r.Keyed() {
        var existing := Find(entries, r.key.value);
        if existing.Some? {
          return Existing(existing.value);
        }
      }
      if r.user !in accounts {
        return NoAccount;
      }
      var account := accounts[r.user];
      if account.subaccount {
        return SubAccount;
      }
      var newBalance := account.balance + r.Signed();
      if newBalance < 0 {
        return Insufficient;
      }
      if r.key.Some? && HasKey(entries, r.key.value) {
        return KeyTaken;
      }
      accounts := accounts[r.user := account.(balance := newBalance)];
      var created := Entry(r.user, r.Signed(), newBalance, r.key);
      entries := entries + [created];
      o := Posted(created);
    }
  }
}
