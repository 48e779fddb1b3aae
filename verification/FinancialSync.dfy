/**
 Syncing one bank connection (services/finance.py): loading pages with a restart when the
 provider's data changes under the pagination, applying them in one transaction, and what
 the ledger holds after any run of syncs, overlapping ones included.

 The provider is its append-only log of pages.  A cursor is a position in that log; position
 0 stands for the missing cursor of a connection that never synced.
 */
module FinancialSync {
  import opened Options
  import opened FinancialLedger

  /** The provider's answer to one request, apart from the page itself. */
  datatype Answer = Served(hasMore: bool) | Failed(code: string)

  datatype Loaded = Pages(pages: seq<Page>, cursor: nat) | LoadFailed(code: string)

  datatype SyncStatus = Pending | Syncing | Idle | SyncFailed

  const MUTATION := "TRANSACTIONS_SYNC_MUTATION_DURING_PAGINATION"
  const MAX_LOADS := 3

  predicate NeedsReauthorization(code: string) {
    code == "ITEM_LOGIN_REQUIRED" || code == "PENDING_DISCONNECT"
  }

  // ---------------------------------------------------------------- loading

  /** One pass over the pagination; past the end of the log the provider has an empty page. */
  function Paginate(log: seq<Page>, cursor: nat, answers: nat -> Answer): Loaded
    requires cursor <= |log|
    decreases |log| - cursor
  {
    match answers(cursor)
    case Failed(code) => LoadFailed(code)
    case Served(hasMore) =>
      if cursor == |log| then Pages([EmptyPage], cursor)
      else if !hasMore then Pages([log[cursor]], cursor + 1)
      else match Paginate(log, cursor + 1, answers)
        case LoadFailed(code) => LoadFailed(code)
        case Pages(rest, end) => Pages([log[cursor]] + rest, end)
  }

  /** The first attempt that is not broken by a mutation, or the last one allowed. */
  function Load(log: seq<Page>, original: nat, answers: nat -> nat -> Answer, attempt: nat): Loaded
    requires original <= |log| && attempt < MAX_LOADS
    decreases MAX_LOADS - attempt
  {
    var result := Paginate(log, original, answers(attempt));
    if result == LoadFailed(MUTATION) && attempt < MAX_LOADS - 1 then Load(log, original, answers, attempt + 1)
    else result
  }

  ghost predicate Unbroken(log: seq<Page>, pages: seq<Page>, lo: nat, hi: nat) {
    && lo <= hi <= |log|
    && (pages == log[lo..hi] || pages == log[lo..hi] + [EmptyPage])
  }

  lemma {:induction false} PaginateUnbroken(log: seq<Page>, cursor: nat, answers: nat -> Answer)
    requires cursor <= |log|
    ensures var r := Paginate(log, cursor, answers);
      r.Pages? ==> r.pages != [] && Unbroken(log, r.pages, cursor, r.cursor)
    decreases |log| - cursor
  {
    if answers(cursor).Served? && cursor < |log| {
      if answers(cursor).hasMore {
        PaginateUnbroken(log, cursor + 1, answers);
        var rest := Paginate(log, cursor + 1, answers);
        if rest.Pages? {
          assert log[cursor..rest.cursor] == [log[cursor]] + log[cursor + 1..rest.cursor];
        }
      }
    }
  }

  /** The pages that are applied come from one attempt and are one stretch of the log. */
  lemma {:induction false} LoadUnbroken(log: seq<Page>, original: nat, answers: nat -> nat -> Answer, attempt: nat)
    requires original <= |log| && attempt < MAX_LOADS
    ensures var r := Load(log, original, answers, attempt);
      r.Pages? ==> r.pages != [] && Unbroken(log, r.pages, original, r.cursor)
    ensures exists k: nat ::
      attempt <= k < MAX_LOADS && Load(log, original, answers, attempt) == Paginate(log, original, answers(k))
    decreases MAX_LOADS - attempt
  {
    var result := Paginate(log, original, answers(attempt));
    PaginateUnbroken(log, original, answers(attempt));
    if result == LoadFailed(MUTATION) && attempt < MAX_LOADS - 1 {
      LoadUnbroken(log, original, answers, attempt + 1);
    }
  }

  /** Only a mutation under the pagination leads to another attempt from the same cursor, and the
      third attempt is the last. */
  lemma LoadTriesThrice(log: seq<Page>, original: nat, answers: nat -> nat -> Answer)
    requires original <= |log|
    ensures var first, second, third :=
          Paginate(log, original, answers(0)), Paginate(log, original, answers(1)), Paginate(log, original, answers(2));
      var broken := LoadFailed("TRANSACTIONS_SYNC_MUTATION_DURING_PAGINATION");
      Load(log, original, answers, 0) == if first != broken then first else if second != broken then second else third
  {
    assert Load(log, original, answers, 1) ==
      if Paginate(log, original, answers(1)) == LoadFailed(MUTATION) then Load(log, original, answers, 2)
      else Paginate(log, original, answers(1));
  }

  method LoadOnce(log: seq<Page>, original: nat, answers: nat -> Answer) returns (result: Loaded)
    requires original <= |log|
    ensures result == Paginate(log, original, answers)
  {
    var cursor: nat := original;
    var pages: seq<Page> := [];
    ghost var goal := Paginate(log, original, answers);
    while true
      invariant original <= cursor <= |log|
      invariant var rest := Paginate(log, cursor, answers);
        goal == if rest.Pages? then Pages(pages + rest.pages, rest.cursor) else rest
      decreases |log| - cursor
    {
      match answers(cursor)
      case Failed(code) => return LoadFailed(code);
      case Served(hasMore) =>
        if cursor == |log| { return Pages(pages + [EmptyPage], cursor); }
        ghost var rest := Paginate(log, cursor, answers);
        ghost var later := Paginate(log, cursor + 1, answers);
        assert hasMore && later.Pages? ==> pages + rest.pages == (pages + [log[cursor]]) + later.pages;
        pages := pages + [log[cursor]];
        cursor := cursor + 1;
        if !hasMore { return Pages(pages, cursor); }
    }
  }

  method LoadTransactionPages(log: seq<Page>, original: nat, answers: nat -> nat -> Answer) returns (result: Loaded)
    requires original <= |log|
    ensures result == Load(log, original, answers, 0)
  {
    var attempt: nat := 0;
    while true
      invariant attempt < MAX_LOADS
      invariant Load(log, original, answers, 0) == Load(log, original, answers, attempt)
      decreases MAX_LOADS - attempt
    {
      result := LoadOnce(log, original, answers(attempt));
      if result != LoadFailed(MUTATION) || attempt == MAX_LOADS - 1 { return; }
      attempt := attempt + 1;
    }
  }

  // ---------------------------------------------------------------- the stored connection

  /** The account as it appears last in the pages of one sync. */
  function LastListed(pages: seq<Page>): map<string, RawAccount> {
    if pages == [] then map[]
    else LastOf(LastListed(pages[..|pages| - 1]), pages[|pages| - 1].accounts)
  }

  function LastOf(found: map<string, RawAccount>, accounts: seq<RawAccount>): map<string, RawAccount> {
    if accounts == [] then found
    else
      var before := LastOf(found, accounts[..|accounts| - 1]);
      var last := accounts[|accounts| - 1];
      if last.id.Some? then before[last.id.value := last] else before
  }

  datatype Account = Account(
    name: string, officialName: Option<string>, mask: Option<string>,
    kind: string, subtype: Option<string>, currency: Option<string>,
    current: Option<int>, available: Option<int>, persistentId: Option<string>)

  function TruncatedOption(s: Option<string>, n: nat): Option<string> {
    if s.Some? then Some(Truncated(s.value, n)) else None
  }

  predicate Given(s: Option<string>) { s.Some? && s.value != "" }

  /** A name or a type that is missing keeps what is stored; every other field is overwritten. */
  function AccountAfter(stored: Option<Account>, d: Details): Account {
    Account(
      NameOr(d.name, if stored.Some? then stored.value.name else "Account", 255),
      TruncatedOption(d.officialName, 255),
      TruncatedOption(d.mask, 16),
      NameOr(d.kind, if stored.Some? then stored.value.kind else "other", 64),
      TruncatedOption(d.subtype, 64),
      TruncatedOption(if Given(d.isoCurrency) then d.isoCurrency else d.otherCurrency, 16),
      d.current, d.available, d.persistentId)
  }

  /** The account says what its listing says; `before` is what was stored. */
  predicate HoldsListing(a: Account, before: Option<Account>, d: Details) {
    && NameHeld(a.name, d.name, if before.Some? then Truncated(before.value.name, 255) else "Account", 255)
    && NameHeld(a.kind, d.kind, if before.Some? then Truncated(before.value.kind, 64) else "other", 64)
    && CutAt(a.officialName, d.officialName, 255) && CutAt(a.mask, d.mask, 16) && CutAt(a.subtype, d.subtype, 64)
    && CutAt(a.currency, if Given(d.isoCurrency) then d.isoCurrency else d.otherCurrency, 16)
    && a.current == d.current && a.available == d.available && a.persistentId == d.persistentId
  }

  predicate CutAt(held: Option<string>, given: Option<string>, n: nat) {
    && (held.Some? <==> given.Some?)
    && (given.Some? ==> held.value <= given.value && |held.value| == if |given.value| <= n then |given.value| else n)
  }

  function Stored(accounts: map<string, Account>, id: string): Option<Account> {
    if id in accounts then Some(accounts[id]) else None
  }

  function AccountsAfter(stored: map<string, Account>, raws: map<string, RawAccount>): map<string, Account> {
    map id | id in stored.Keys + raws.Keys ::
      if id in raws then AccountAfter(Stored(stored, id), raws[id].details) else stored[id]
  }

  /** Within the widths of its columns. */
  predicate Fits(a: Account) { 0 < |a.name| <= 255 && 0 < |a.kind| <= 64 }

  predicate AllFit(accounts: map<string, Account>) { forall id | id in accounts :: Fits(accounts[id]) }

  lemma AccountSettles(stored: Option<Account>, d: Details)
    requires stored.Some? ==> Fits(stored.value)
    ensures var after := AccountAfter(stored, d); Fits(after) && AccountAfter(Some(after), d) == after
    ensures stored.Some? && !Given(d.name) ==> AccountAfter(stored, d).name == stored.value.name
  {
  }

  /** Syncing the same pages again changes no account, and no account loses the name it has. */
  lemma AccountsSettle(stored: map<string, Account>, raws: map<string, RawAccount>)
    requires AllFit(stored)
    ensures AllFit(AccountsAfter(stored, raws))
    ensures AccountsAfter(AccountsAfter(stored, raws), raws) == AccountsAfter(stored, raws)
    ensures forall id | id in stored && (id in raws ==> !Given(raws[id].details.name)) ::
      AccountsAfter(stored, raws)[id].name == stored[id].name
  {
    var after := AccountsAfter(stored, raws);
    forall id | id in after
      ensures Fits(after[id])
      ensures id in raws ==> AccountAfter(Some(after[id]), raws[id].details) == after[id]
      ensures id in stored && (id in raws ==> !Given(raws[id].details.name)) ==> after[id].name == stored[id].name
    {
      if id in raws { AccountSettles(Stored(stored, id), raws[id].details); }
    }
    var again := AccountsAfter(after, raws);
    assert again.Keys == after.Keys;
    forall id | id in after ensures again[id] == after[id] {
      assert id in raws ==> again[id] == AccountAfter(Some(after[id]), raws[id].details);
    }
  }

  lemma {:induction false} LastOfKeys(found: map<string, RawAccount>, accounts: seq<RawAccount>)
    ensures LastOf(found, accounts).Keys == found.Keys + ListedBy(accounts)
  {
    if accounts != [] {
      var front, last := accounts[..|accounts| - 1], accounts[|accounts| - 1];
      LastOfKeys(found, front);
      assert accounts == front + [last];
      assert ListedBy(accounts) == ListedBy(front) + ListedBy([last]);
    }
  }

  lemma {:induction false} LastListedKeys(pages: seq<Page>)
    ensures LastListed(pages).Keys == ListedIn(pages)
  {
    if pages != [] {
      var front, last := pages[..|pages| - 1], pages[|pages| - 1];
      LastListedKeys(front);
      LastOfKeys(LastListed(front), last.accounts);
      assert pages == front + [last];
      assert ListedIn(pages) == ListedIn(front) + Listed(last);
    }
  }

  method CollectAccounts(pages: seq<Page>) returns (raws: map<string, RawAccount>)
    ensures raws == LastListed(pages)
  {
    raws := map[];
    for i := 0 to |pages|
      invariant raws == LastListed(pages[..i])
    {
      ghost var before := raws;
      var accounts := pages[i].accounts;
      for j := 0 to |accounts|
        invariant raws == LastOf(before, accounts[..j])
      {
        assert accounts[..j + 1][..j] == accounts[..j];
        var raw := accounts[j];
        if raw.id.Some? { raws := raws[raw.id.value := raw]; }
      }
      assert accounts[..|accounts|] == accounts;
      assert pages[..i + 1][..i] == pages[..i];
    }
    assert pages[..|pages|] == pages;
  }

  class Connection {
    var ledger: Ledger
    var accounts: map<string, Account>
    var cursor: nat
    var status: SyncStatus
    var needsReauthorization: bool

    constructor ()
      ensures ledger == map[] && accounts == map[] && cursor == 0 && status == Pending && !needsReauthorization
    {
      ledger, accounts, cursor, status, needsReauthorization := map[], map[], 0, Pending, false;
    }

    method UpsertAccounts(pages: seq<Page>) returns (listed: set<string>)
      modifies this`accounts
      ensures listed == ListedIn(pages)
      ensures accounts == AccountsAfter(old(accounts), LastListed(pages))
    {
      var raws := CollectAccounts(pages);
      LastListedKeys(pages);
      listed := raws.Keys;
      var rest := listed;
      ghost var before, goal := accounts, AccountsAfter(accounts, raws);
      while rest != {}
        invariant rest <= listed
        invariant forall id :: id in accounts <==> id in goal && (id in rest ==> id in before)
        invariant forall id | id in accounts :: accounts[id] == if id in rest then before[id] else goal[id]
      {
        var id :| id in rest;
        assert Stored(accounts, id) == Stored(before, id);
        UpsertAccount(id, raws[id].details);
        rest := rest - {id};
      }
      assert accounts == goal;
    }

    method UpsertAccount(id: string, d: Details)
      modifies this`accounts
      ensures accounts == old(accounts)[id := AccountAfter(Stored(old(accounts), id), d)]
      ensures HoldsListing(accounts[id], if id in old(accounts) then Some(old(accounts)[id]) else None, d)
    {
      var account :=
        if id in accounts then accounts[id]
        else Account(NameOr(d.name, "Account", 255), None, None, NameOr(d.kind, "other", 64), None, None, None, None,
          None);
      account := account.(name := NameOr(d.name, account.name, 255));
      account := account.(officialName := TruncatedOption(d.officialName, 255));
      account := account.(mask := TruncatedOption(d.mask, 16), kind := NameOr(d.kind, account.kind, 64));
      var currency := if Given(d.isoCurrency) then d.isoCurrency else d.otherCurrency;
      account := account.(subtype := TruncatedOption(d.subtype, 64), currency := TruncatedOption(currency, 16));
      account := account.(current := d.current, available := d.available, persistentId := d.persistentId);
      accounts := accounts[id := account];
    }

    method UpsertTransaction(listed: set<string>, raw: RawTransaction)
      modifies this`ledger
      ensures ledger == Upserted(old(ledger), listed, raw)
      ensures !(exists id :: Accepts(Offer(raw, listed), id)) ==> ledger == old(ledger)
      ensures forall id | Accepts(Offer(raw, listed), id) ::
        && ledger.Keys == old(ledger).Keys + {id} && Holds(ledger[id], raw) && !ledger[id].removed
        && (forall other | other in old(ledger) && other != id :: ledger[other] == old(ledger)[other])
    {
      assert raw.Raw? && raw.id.Some? ==>
        (Accepts(Offer(raw, listed), raw.id.value) <==> Usable(raw, listed));
      if raw.Malformed? || raw.id.None? || raw.account.None? { return; }
      if raw.account.value !in listed { return; }
      if raw.date.None? || raw.amount.None? { return; }
      var name := if raw.name.Some? && raw.name.value != "" then raw.name.value else "Transaction";
      ledger := ledger[raw.id.value :=
        Entry(raw.account.value, raw.date.value, raw.amount.value, Truncated(name, 500), raw.pending, raw.rest, false)];
    }

    method RemoveTransaction(id: Option<string>)
      modifies this`ledger
      ensures ledger == Dropped(old(ledger), id)
      ensures ledger.Keys == old(ledger).Keys
      ensures forall k | k in ledger ::
        ledger[k] == old(ledger)[k].(removed := old(ledger)[k].removed || id == Some(k))
    {
      if id.Some? && id.value in ledger {
        ledger := ledger[id.value := ledger[id.value].(removed := true)];
      }
    }

    method UpsertEach(listed: set<string>, raws: seq<RawTransaction>)
      modifies this`ledger
      ensures ledger == UpsertAll(old(ledger), listed, raws)
    {
      for i := 0 to |raws|
        invariant ledger == UpsertAll(old(ledger), listed, raws[..i])
      {
        assert raws[..i + 1][..i] == raws[..i];
        UpsertTransaction(listed, raws[i]);
      }
      assert raws[..|raws|] == raws;
    }

    method RemoveEach(ids: seq<Option<string>>)
      modifies this`ledger
      ensures ledger == DropAll(old(ledger), ids)
    {
      for i := 0 to |ids|
        invariant ledger == DropAll(old(ledger), ids[..i])
      {
        assert ids[..i + 1][..i] == ids[..i];
        RemoveTransaction(ids[i]);
      }
      assert ids[..|ids|] == ids;
    }

    /** Every stored transaction belongs to a stored account. */
    ghost predicate AccountsExist()
      reads this
    {
      AccountsKnown(ledger, accounts.Keys)
    }

    /** The writing transaction of a sync. */
    method Commit(pages: seq<Page>, finalCursor: nat)
      modifies this
      ensures ledger == Batch(old(ledger), pages)
      ensures accounts == AccountsAfter(old(accounts), LastListed(pages))
      ensures cursor == finalCursor && status == Idle && !needsReauthorization
      ensures old(AccountsExist()) ==> AccountsExist()
    {
      var listed := UpsertAccounts(pages);
      LastListedKeys(pages);
      for i := 0 to |pages|
        invariant ledger == ApplyPages(old(ledger), listed, pages[..i])
        invariant accounts == AccountsAfter(old(accounts), LastListed(pages))
      {
        assert pages[..i + 1][..i] == pages[..i];
        UpsertEach(listed, pages[i].added);
        UpsertEach(listed, pages[i].modified);
        RemoveEach(pages[i].removed);
      }
      assert pages[..|pages|] == pages;
      cursor, status, needsReauthorization := finalCursor, Idle, false;
      if old(AccountsExist()) { AppliedAccounts(old(ledger), listed, pages, accounts.Keys); }
    }

    /** `sync_financial_connection`: failures leave ledger and cursor as they were. */
    method Sync(log: seq<Page>, answers: nat -> nat -> Answer) returns (error: Option<string>)
      requires cursor <= |log|
      modifies this
      ensures var loaded := Load(log, old(cursor), answers, 0);
        && (error.Some? <==> loaded.LoadFailed?)
        && (error.None? ==> ledger == Batch(old(ledger), loaded.pages) && cursor == loaded.cursor && status == Idle)
        && (error.Some? ==> error.value == loaded.code && status == SyncFailed)
      ensures error.Some? ==> ledger == old(ledger) && accounts == old(accounts) && cursor == old(cursor)
      ensures error.Some? ==> needsReauthorization == (old(needsReauthorization) || NeedsReauthorization(error.value))
      ensures error.Some? && !old(needsReauthorization) ==>
        (needsReauthorization <==> error.value == "ITEM_LOGIN_REQUIRED" || error.value == "PENDING_DISCONNECT")
      ensures cursor <= |log|
      ensures ConsistentlyListed(log) && old(ledger) == Full(log, old(cursor)) ==> ledger == Full(log, cursor)
    {
      status := Syncing;
      var loaded := LoadTransactionPages(log, cursor, answers);
      LoadUnbroken(log, cursor, answers, 0);
      match loaded
      case LoadFailed(code) =>
        status := SyncFailed;
        if NeedsReauthorization(code) { needsReauthorization := true; }
        return Some(code);
      case Pages(pages, end) =>
        if ConsistentlyListed(log) { StretchExtendsFull(log, pages, cursor, end); }
        Commit(pages, end);
        return None;
    }
  }

  ghost predicate AccountsKnown(l: Ledger, known: set<string>) {
    forall id | id in l :: l[id].account in known
  }

  lemma {:induction false} UpsertedAccounts(l: Ledger, listed: set<string>, raws: seq<RawTransaction>,
        known: set<string>)
    requires listed <= known && AccountsKnown(l, known)
    ensures AccountsKnown(UpsertAll(l, listed, raws), known)
  {
    if raws != [] { UpsertedAccounts(l, listed, raws[..|raws| - 1], known); }
  }

  lemma {:induction false} DroppedAccounts(l: Ledger, ids: seq<Option<string>>, known: set<string>)
    requires AccountsKnown(l, known)
    ensures AccountsKnown(DropAll(l, ids), known)
  {
    if ids != [] { DroppedAccounts(l, ids[..|ids| - 1], known); }
  }

  lemma {:induction false} AppliedAccounts(l: Ledger, listed: set<string>, pages: seq<Page>, known: set<string>)
    requires listed <= known && AccountsKnown(l, known)
    ensures AccountsKnown(ApplyPages(l, listed, pages), known)
  {
    if pages != [] {
      var front, last := pages[..|pages| - 1], pages[|pages| - 1];
      AppliedAccounts(l, listed, front, known);
      var before := ApplyPages(l, listed, front);
      UpsertedAccounts(before, listed, last.added, known);
      UpsertedAccounts(UpsertAll(before, listed, last.added), listed, last.modified, known);
      DroppedAccounts(UpsertAll(UpsertAll(before, listed, last.added), listed, last.modified), last.removed, known);
    }
  }

  ghost function Full(log: seq<Page>, n: nat): Ledger
    requires n <= |log|
  {
    Fold(map[], log[..n])
  }

  lemma TrailingEmpty(l: Ledger, pages: seq<Page>)
    ensures Batch(l, pages + [EmptyPage]) == Batch(l, pages)
  {
    assert (pages + [EmptyPage])[..|pages|] == pages;
    assert ListedIn(pages + [EmptyPage]) == ListedIn(pages);
  }

  lemma BatchIsStretch(l: Ledger, log: seq<Page>, pages: seq<Page>, lo: nat, hi: nat)
    requires ConsistentlyListed(log) && Unbroken(log, pages, lo, hi)
    ensures Batch(l, pages) == Fold(l, log[lo..hi])
  {
    ConsistentlyListedPart(log, lo, hi);
    BatchIsFold(l, log[lo..hi]);
    if pages != log[lo..hi] { TrailingEmpty(l, log[lo..hi]); }
  }

  lemma StretchExtendsFull(log: seq<Page>, pages: seq<Page>, lo: nat, hi: nat)
    requires ConsistentlyListed(log) && Unbroken(log, pages, lo, hi)
    ensures Batch(Full(log, lo), pages) == Full(log, hi)
  {
    BatchIsStretch(Full(log, lo), log, pages, lo, hi);
    FoldConcat(map[], log[..lo], log[lo..hi]);
    assert log[..hi] == log[..lo] + log[lo..hi];
  }
}
