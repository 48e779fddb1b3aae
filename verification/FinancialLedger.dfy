/**
 The local ledger that bank syncs write (`_upsert_transaction` and the page loop of
 `sync_financial_connection` in services/finance.py), as functions on values, and the laws
 that make replaying an already applied stretch of pages harmless.
 */
module FinancialLedger {
  import opened Options

  /** What the provider sends; `Malformed` is anything that is not an object. */
  datatype RawTransaction =
    | Malformed
    | Raw(id: Option<string>, account: Option<string>, date: Option<int>, amount: Option<int>,
          name: Option<string>, pending: bool, rest: string)

  /** A field of an account is absent or null (None) or a value; balances that are not an
      object are four absent fields. */
  datatype Details = Details(
    name: Option<string>, officialName: Option<string>, mask: Option<string>,
    kind: Option<string>, subtype: Option<string>,
    isoCurrency: Option<string>, otherCurrency: Option<string>,
    current: Option<int>, available: Option<int>,
    persistentId: Option<string>)

  datatype RawAccount = RawAccount(id: Option<string>, details: Details)

  datatype Page = Page(
    accounts: seq<RawAccount>,
    added: seq<RawTransaction>,
    modified: seq<RawTransaction>,
    removed: seq<Option<string>>)

  datatype Entry = Entry(account: string, date: int, amount: int, name: string, pending: bool, rest: string,
        removed: bool)

  type Ledger = map<string, Entry>

  const EmptyPage := Page([], [], [], [])

  const NoDetails := Details(None, None, None, None, None, None, None, None, None, None)

  /** An account of which nothing but the id is known. */
  function Listing(id: string): RawAccount { RawAccount(Some(id), NoDetails) }

  function Truncated(s: string, n: nat): string {
    if |s| <= n then s else s[..n]
  }

  function NameOr(name: Option<string>, default: string, n: nat): string {
    Truncated(if name.Some? && name.value != "" then name.value else default, n)
  }

  // ---------------------------------------------------------------- one page after another

  /** A transaction is stored only when it is complete and its account is listed. */
  predicate Usable(raw: RawTransaction, listed: set<string>) {
    raw.Raw? && raw.id.Some? && raw.account.Some? && raw.account.value in listed && raw.date.Some? && raw.amount.Some?
  }

  function EntryOf(raw: RawTransaction, listed: set<string>): Entry
    requires Usable(raw, listed)
  {
    Entry(raw.account.value, raw.date.value, raw.amount.value, NameOr(raw.name, "Transaction", 500),
          raw.pending, raw.rest, false)
  }

  function Upserted(l: Ledger, listed: set<string>, raw: RawTransaction): Ledger {
    if Usable(raw, listed) then l[raw.id.value := EntryOf(raw, listed)] else l
  }

  function Dropped(l: Ledger, id: Option<string>): Ledger {
    if id.Some? && id.value in l then l[id.value := l[id.value].(removed := true)] else l
  }

  function UpsertAll(l: Ledger, listed: set<string>, raws: seq<RawTransaction>): Ledger {
    if raws == [] then l
    else Upserted(UpsertAll(l, listed, raws[..|raws| - 1]), listed, raws[|raws| - 1])
  }

  function DropAll(l: Ledger, ids: seq<Option<string>>): Ledger {
    if ids == [] then l else Dropped(DropAll(l, ids[..|ids| - 1]), ids[|ids| - 1])
  }

  function ApplyPage(l: Ledger, listed: set<string>, page: Page): Ledger {
    DropAll(UpsertAll(UpsertAll(l, listed, page.added), listed, page.modified), page.removed)
  }

  function ApplyPages(l: Ledger, listed: set<string>, pages: seq<Page>): Ledger {
    if pages == [] then l
    else ApplyPage(ApplyPages(l, listed, pages[..|pages| - 1]), listed, pages[|pages| - 1])
  }

  function ListedBy(accounts: seq<RawAccount>): set<string> {
    set a | a in accounts && a.id.Some? :: a.id.value
  }

  function Listed(page: Page): set<string> { ListedBy(page.accounts) }

  function ListedIn(pages: seq<Page>): set<string> {
    set p, id | p in pages && id in Listed(p) :: id
  }

  /** What one sync writes: all its pages against the accounts listed anywhere in them. */
  function Batch(l: Ledger, pages: seq<Page>): Ledger {
    ApplyPages(l, ListedIn(pages), pages)
  }

  /** The reference: each page on its own, against its own account list. */
  function Fold(l: Ledger, pages: seq<Page>): Ledger {
    if pages == [] then l
    else ApplyPage(Fold(l, pages[..|pages| - 1]), Listed(pages[|pages| - 1]), pages[|pages| - 1])
  }

  /** Every transaction is accepted with the account list of its own page exactly when it is
      accepted with all the lists together; in particular when each page lists the accounts
      of the transactions it carries. */
  ghost predicate ConsistentlyListed(pages: seq<Page>) {
    forall p, raw | p in pages && raw in p.added + p.modified ::
      Usable(raw, ListedIn(pages)) ==> Usable(raw, Listed(p))
  }

  // ---------------------------------------------------------------- pages as writes

  /** One write per record of a page, so that the same log read against different account lists
      gives writes that differ only where one of them is refused. */
  datatype Write = Put(id: string, entry: Entry) | Drop(id: string) | Refused

  function PutOf(raw: RawTransaction, listed: set<string>): Write {
    if Usable(raw, listed) then Put(raw.id.value, EntryOf(raw, listed)) else Refused
  }

  function PutsOf(raws: seq<RawTransaction>, listed: set<string>): seq<Write> {
    if raws == [] then [] else PutsOf(raws[..|raws| - 1], listed) + [PutOf(raws[|raws| - 1], listed)]
  }

  function DropOf(id: Option<string>): Write { if id.Some? then Drop(id.value) else Refused }

  function DropsOf(ids: seq<Option<string>>): seq<Write> {
    if ids == [] then [] else DropsOf(ids[..|ids| - 1]) + [DropOf(ids[|ids| - 1])]
  }

  function WritesOf(page: Page, listed: set<string>): seq<Write> {
    PutsOf(page.added, listed) + PutsOf(page.modified, listed) + DropsOf(page.removed)
  }

  /** Every page against its own account list. */
  function AllWrites(pages: seq<Page>): seq<Write> {
    if pages == [] then []
    else AllWrites(pages[..|pages| - 1]) + WritesOf(pages[|pages| - 1], Listed(pages[|pages| - 1]))
  }

  /** Every page against one account list. */
  function WritesAgainst(pages: seq<Page>, listed: set<string>): seq<Write> {
    if pages == [] then [] else WritesAgainst(pages[..|pages| - 1], listed) + WritesOf(pages[|pages| - 1], listed)
  }

  predicate Concerns(w: Write, id: string) { !w.Refused? && w.id == id }

  function Perform(e: Option<Entry>, w: Write): Option<Entry> {
    match w
    case Put(_, entry) => Some(entry)
    case Drop(_) => if e.Some? then Some(e.value.(removed := true)) else None
    case Refused => e
  }

  /** What a sequence of writes does to the entry of one transaction. */
  function Effect(e: Option<Entry>, ws: seq<Write>, id: string): Option<Entry> {
    if ws == [] then e
    else
      var before := Effect(e, ws[..|ws| - 1], id);
      if Concerns(ws[|ws| - 1], id) then Perform(before, ws[|ws| - 1]) else before
  }

  function Get(l: Ledger, id: string): Option<Entry> {
    if id in l then Some(l[id]) else None
  }

  lemma SameEntriesSameLedger(a: Ledger, b: Ledger)
    requires forall id :: Get(a, id) == Get(b, id)
    ensures a == b
  {
    forall id ensures id in a <==> id in b { assert Get(a, id) == Get(b, id); }
    forall id | id in a ensures a[id] == b[id] { assert Get(a, id) == Get(b, id); }
  }

  lemma {:induction false} EffectConcat(e: Option<Entry>, v: seq<Write>, w: seq<Write>, id: string)
    ensures Effect(e, v + w, id) == Effect(Effect(e, v, id), w, id)
  {
    if w == [] {
      assert v + w == v;
    } else {
      assert (v + w)[..|v + w| - 1] == v + w[..|w| - 1];
      EffectConcat(e, v, w[..|w| - 1], id);
    }
  }

  lemma {:induction false} UpsertEffect(l: Ledger, listed: set<string>, raws: seq<RawTransaction>, id: string)
    ensures Get(UpsertAll(l, listed, raws), id) == Effect(Get(l, id), PutsOf(raws, listed), id)
  {
    if raws != [] {
      var front, last := raws[..|raws| - 1], raws[|raws| - 1];
      UpsertEffect(l, listed, front, id);
      assert PutsOf(raws, listed)[..|PutsOf(raws, listed)| - 1] == PutsOf(front, listed);
    }
  }

  lemma {:induction false} DropEffect(l: Ledger, ids: seq<Option<string>>, id: string)
    ensures Get(DropAll(l, ids), id) == Effect(Get(l, id), DropsOf(ids), id)
  {
    if ids != [] {
      var front, last := ids[..|ids| - 1], ids[|ids| - 1];
      DropEffect(l, front, id);
      assert DropsOf(ids)[..|DropsOf(ids)| - 1] == DropsOf(front);
    }
  }

  lemma PageEffect(l: Ledger, listed: set<string>, page: Page, id: string)
    ensures Get(ApplyPage(l, listed, page), id) == Effect(Get(l, id), WritesOf(page, listed), id)
  {
    var added := UpsertAll(l, listed, page.added);
    var modified := UpsertAll(added, listed, page.modified);
    UpsertEffect(l, listed, page.added, id);
    UpsertEffect(added, listed, page.modified, id);
    DropEffect(modified, page.removed, id);
    EffectConcat(Get(l, id), PutsOf(page.added, listed), PutsOf(page.modified, listed), id);
    EffectConcat(Get(l, id), PutsOf(page.added, listed) + PutsOf(page.modified, listed), DropsOf(page.removed), id);
  }

  /** The ledger holds, for every transaction, exactly what the writes of the log make of it. */
  lemma {:induction false} FoldEffect(l: Ledger, pages: seq<Page>, id: string)
    ensures Get(Fold(l, pages), id) == Effect(Get(l, id), AllWrites(pages), id)
  {
    if pages != [] {
      var front, last := pages[..|pages| - 1], pages[|pages| - 1];
      FoldEffect(l, front, id);
      PageEffect(Fold(l, front), Listed(last), last, id);
      EffectConcat(Get(l, id), AllWrites(front), WritesOf(last, Listed(last)), id);
    }
  }

  lemma {:induction false} BatchEffect(l: Ledger, pages: seq<Page>, listed: set<string>, id: string)
    ensures Get(ApplyPages(l, listed, pages), id) == Effect(Get(l, id), WritesAgainst(pages, listed), id)
  {
    if pages != [] {
      var front, last := pages[..|pages| - 1], pages[|pages| - 1];
      BatchEffect(l, front, listed, id);
      PageEffect(ApplyPages(l, listed, front), listed, last, id);
      EffectConcat(Get(l, id), WritesAgainst(front, listed), WritesOf(last, listed), id);
    }
  }

  lemma {:induction false} FoldConcat(l: Ledger, p: seq<Page>, q: seq<Page>)
    ensures Fold(l, p + q) == Fold(Fold(l, p), q)
  {
    if q == [] {
      assert p + q == p;
    } else {
      assert (p + q)[..|p + q| - 1] == p + q[..|q| - 1];
      FoldConcat(l, p, q[..|q| - 1]);
    }
  }

  lemma {:induction false} WritesConcat(p: seq<Page>, q: seq<Page>)
    ensures AllWrites(p + q) == AllWrites(p) + AllWrites(q)
  {
    if q == [] {
      assert p + q == p;
    } else {
      assert (p + q)[..|p + q| - 1] == p + q[..|q| - 1];
      WritesConcat(p, q[..|q| - 1]);
      assert (p + q)[|p + q| - 1] == q[|q| - 1];
    }
  }

  // ---------------------------------------------------------------- replay

  ghost predicate Puts(ws: seq<Write>, id: string) {
    exists w :: w in ws && w.Put? && w.id == id
  }

  /** After a write that stores the transaction, its earlier history is forgotten. */
  lemma {:induction false} PutForgets(e: Option<Entry>, f: Option<Entry>, ws: seq<Write>, id: string)
    requires Puts(ws, id)
    ensures Effect(e, ws, id) == Effect(f, ws, id)
  {
    var front, last := ws[..|ws| - 1], ws[|ws| - 1];
    if !(last.Put? && last.id == id) {
      assert ws == front + [last];
      assert Puts(front, id);
      PutForgets(e, f, front, id);
    }
  }

  lemma {:induction false} WithoutPuts(e: Option<Entry>, ws: seq<Write>, id: string)
    requires !Puts(ws, id)
    ensures Effect(e, ws, id) == if Drop(id) in ws then Perform(e, Drop(id)) else e
  {
    if ws != [] {
      var front, last := ws[..|ws| - 1], ws[|ws| - 1];
      assert forall w | w in front :: w in ws;
      assert ws == front + [last];
      WithoutPuts(e, front, id);
      assert last in ws;
    }
  }

  lemma EffectAbsorbed(e: Option<Entry>, part: seq<Write>, whole: seq<Write>, id: string)
    requires forall w | w in part :: w in whole
    ensures Effect(Effect(e, part, id), whole, id) == Effect(e, whole, id)
  {
    if Puts(whole, id) {
      PutForgets(Effect(e, part, id), e, whole, id);
    } else {
      WithoutPuts(e, part, id);
      WithoutPuts(Effect(e, part, id), whole, id);
      WithoutPuts(e, whole, id);
    }
  }

  /** Applying a stretch of pages and then a longer stretch that contains it is the same as
      applying the longer stretch alone. */
  lemma ReplayAbsorbed(l: Ledger, before: seq<Page>, part: seq<Page>, after: seq<Page>)
    ensures Fold(Fold(l, part), before + part + after) == Fold(l, before + part + after)
  {
    var whole := before + part + after;
    WritesConcat(before, part);
    WritesConcat(before + part, after);
    assert forall w | w in AllWrites(part) :: w in AllWrites(whole);
    forall id ensures Get(Fold(Fold(l, part), whole), id) == Get(Fold(l, whole), id) {
      FoldEffect(l, part, id);
      FoldEffect(Fold(l, part), whole, id);
      FoldEffect(l, whole, id);
      EffectAbsorbed(Get(l, id), AllWrites(part), AllWrites(whole), id);
    }
    SameEntriesSameLedger(Fold(Fold(l, part), whole), Fold(l, whole));
  }

  // ---------------------------------------------------------------- batches

  lemma {:induction false} UpsertSameListing(l: Ledger, a: set<string>, b: set<string>, raws: seq<RawTransaction>)
    requires forall raw | raw in raws :: Usable(raw, a) <==> Usable(raw, b)
    ensures UpsertAll(l, a, raws) == UpsertAll(l, b, raws)
  {
    if raws != [] {
      assert raws[|raws| - 1] in raws;
      UpsertSameListing(l, a, b, raws[..|raws| - 1]);
    }
  }

  lemma {:induction false} ApplyConsistent(l: Ledger, listed: set<string>, pages: seq<Page>)
    requires forall p, raw | p in pages && raw in p.added + p.modified ::
      Usable(raw, listed) <==> Usable(raw, Listed(p))
    ensures ApplyPages(l, listed, pages) == Fold(l, pages)
  {
    if pages != [] {
      var front, last := pages[..|pages| - 1], pages[|pages| - 1];
      assert last in pages && forall p | p in front :: p in pages;
      ApplyConsistent(l, listed, front);
      var before := Fold(l, front);
      assert forall raw | raw in last.added :: raw in last.added + last.modified;
      assert forall raw | raw in last.modified :: raw in last.added + last.modified;
      UpsertSameListing(before, listed, Listed(last), last.added);
      UpsertSameListing(UpsertAll(before, listed, last.added), listed, Listed(last), last.modified);
    }
  }

  /** How the provider's log is cut into syncs does not matter when it is consistently listed. */
  lemma BatchIsFold(l: Ledger, pages: seq<Page>)
    requires ConsistentlyListed(pages)
    ensures Batch(l, pages) == Fold(l, pages)
  {
    assert forall p, id | p in pages && id in Listed(p) :: id in ListedIn(pages);
    ApplyConsistent(l, ListedIn(pages), pages);
  }

  lemma ConsistentlyListedPart(pages: seq<Page>, lo: nat, hi: nat)
    requires ConsistentlyListed(pages) && lo <= hi <= |pages|
    ensures ConsistentlyListed(pages[lo..hi])
  {
    assert forall p | p in pages[lo..hi] :: p in pages;
    assert ListedIn(pages[lo..hi]) <= ListedIn(pages);
    forall p, raw | p in pages[lo..hi] && raw in p.added + p.modified && Usable(raw, ListedIn(pages[lo..hi]))
      ensures Usable(raw, Listed(p))
    {
      assert Usable(raw, ListedIn(pages));
    }
  }

  function UsableIds(raws: seq<RawTransaction>, listed: set<string>): set<string> {
    set raw | raw in raws && Usable(raw, listed) :: raw.id.value
  }

  function AcceptedTogether(pages: seq<Page>, listed: set<string>): set<string> {
    set p, id | p in pages && id in UsableIds(p.added + p.modified, listed) :: id
  }

  function AcceptedAlone(pages: seq<Page>): set<string> {
    set p, id | p in pages && id in UsableIds(p.added + p.modified, Listed(p)) :: id
  }

  lemma {:induction false} UpsertKeys(l: Ledger, listed: set<string>, raws: seq<RawTransaction>)
    ensures UpsertAll(l, listed, raws).Keys == l.Keys + UsableIds(raws, listed)
  {
    if raws != [] {
      var front, last := raws[..|raws| - 1], raws[|raws| - 1];
      UpsertKeys(l, listed, front);
      assert raws == front + [last];
      assert UsableIds(raws, listed) == UsableIds(front, listed) + UsableIds([last], listed);
    }
  }

  lemma {:induction false} DropKeys(l: Ledger, ids: seq<Option<string>>)
    ensures DropAll(l, ids).Keys == l.Keys
  {
    if ids != [] { DropKeys(l, ids[..|ids| - 1]); }
  }

  lemma PageKeys(l: Ledger, listed: set<string>, page: Page)
    ensures ApplyPage(l, listed, page).Keys == l.Keys + UsableIds(page.added + page.modified, listed)
  {
    var added := UpsertAll(l, listed, page.added);
    UpsertKeys(l, listed, page.added);
    UpsertKeys(added, listed, page.modified);
    DropKeys(UpsertAll(added, listed, page.modified), page.removed);
    assert UsableIds(page.added + page.modified, listed) ==
      UsableIds(page.added, listed) + UsableIds(page.modified, listed);
  }

  lemma {:induction false} BatchKeys(l: Ledger, listed: set<string>, pages: seq<Page>)
    ensures ApplyPages(l, listed, pages).Keys == l.Keys + AcceptedTogether(pages, listed)
  {
    if pages != [] {
      var front, last := pages[..|pages| - 1], pages[|pages| - 1];
      BatchKeys(l, listed, front);
      PageKeys(ApplyPages(l, listed, front), listed, last);
      assert pages == front + [last];
      assert AcceptedTogether(pages, listed) ==
        AcceptedTogether(front, listed) + UsableIds(last.added + last.modified, listed);
    }
  }

  lemma AcceptedAloneMore(front: seq<Page>, last: Page)
    ensures AcceptedAlone(front + [last]) == AcceptedAlone(front) + UsableIds(last.added + last.modified, Listed(last))
  {
    assert last in front + [last];
  }

  lemma {:induction false} FoldKeys(l: Ledger, pages: seq<Page>)
    ensures Fold(l, pages).Keys == l.Keys + AcceptedAlone(pages)
  {
    if pages != [] {
      var front, last := pages[..|pages| - 1], pages[|pages| - 1];
      FoldKeys(l, front);
      PageKeys(Fold(l, front), Listed(last), last);
      assert pages == front + [last];
      AcceptedAloneMore(front, last);
    }
  }

  /** Exactly when cutting the log differently changes which transactions are stored: when one
      the ledger lacks is accepted only thanks to another page's account list. */
  lemma BatchingKeepsTheTransactions(l: Ledger, pages: seq<Page>)
    ensures Batch(l, pages).Keys == Fold(l, pages).Keys
      <==> AcceptedTogether(pages, ListedIn(pages)) <= AcceptedAlone(pages) + l.Keys
  {
    BatchKeys(l, ListedIn(pages), pages);
    FoldKeys(l, pages);
    forall id | id in AcceptedAlone(pages) ensures id in AcceptedTogether(pages, ListedIn(pages)) {
      var p :| p in pages && id in UsableIds(p.added + p.modified, Listed(p));
      var raw :| raw in p.added + p.modified && Usable(raw, Listed(p)) && raw.id.value == id;
      assert raw.account.value in ListedIn(pages);
      assert id in UsableIds(p.added + p.modified, ListedIn(pages));
    }
  }

  // ---------------------------------------------------------------- exactly when batching matters

  /** Position of the last write that stores the transaction. */
  function LastPut(ws: seq<Write>, id: string): (k: Option<nat>)
    ensures k.Some? ==> k.value < |ws| && ws[k.value].Put? && ws[k.value].id == id
  {
    if ws == [] then None
    else if ws[|ws| - 1].Put? && ws[|ws| - 1].id == id then Some(|ws| - 1)
    else LastPut(ws[..|ws| - 1], id)
  }

  predicate DropsFrom(ws: seq<Write>, from: nat, id: string) {
    exists k :: from <= k < |ws| && ws[k] == Drop(id)
  }

  lemma DropsFromMore(ws: seq<Write>, w: Write, from: nat, id: string)
    requires from <= |ws|
    ensures DropsFrom(ws + [w], from, id) <==> DropsFrom(ws, from, id) || w == Drop(id)
  {
    var longer := ws + [w];
    assert longer[|ws|] == w;
    if k :| from <= k < |ws| && ws[k] == Drop(id) { assert longer[k] == Drop(id); }
  }

  function Marked(e: Entry, dropped: bool): Entry { e.(removed := e.removed || dropped) }

  /** The last stored record decides, together with whether a withdrawal follows it. */
  lemma {:induction false} LastPutDecides(e: Option<Entry>, ws: seq<Write>, id: string)
    ensures var last := LastPut(ws, id); var effect := Effect(e, ws, id);
      && (last.Some? ==> effect == Some(Marked(ws[last.value].entry, DropsFrom(ws, last.value, id))))
      && (last.None? && e.Some? ==> effect == Some(Marked(e.value, DropsFrom(ws, 0, id))))
      && (last.None? && e.None? ==> effect == None)
  {
    if ws != [] {
      var front, w := ws[..|ws| - 1], ws[|ws| - 1];
      assert ws == front + [w];
      LastPutDecides(e, front, id);
      var before := LastPut(front, id);
      DropsFromMore(front, w, if before.Some? then before.value else 0, id);
    }
  }

  /** The writes of `own` are those of `wide` with some puts refused. */
  ghost predicate Thins(wide: seq<Write>, own: seq<Write>) {
    |wide| == |own| && forall k | 0 <= k < |wide| :: own[k] == wide[k] || (own[k] == Refused && wide[k].Put?)
  }

  lemma {:induction false} PutsThin(raws: seq<RawTransaction>, listed: set<string>, some: set<string>)
    requires some <= listed
    ensures Thins(PutsOf(raws, listed), PutsOf(raws, some))
  {
    if raws != [] { PutsThin(raws[..|raws| - 1], listed, some); }
  }

  lemma ThinsConcat(a: seq<Write>, b: seq<Write>, c: seq<Write>, d: seq<Write>)
    requires Thins(a, b) && Thins(c, d)
    ensures Thins(a + c, b + d)
  {
  }

  lemma PageThins(page: Page, listed: set<string>, some: set<string>)
    requires some <= listed
    ensures Thins(WritesOf(page, listed), WritesOf(page, some))
  {
    PutsThin(page.added, listed, some);
    PutsThin(page.modified, listed, some);
    ThinsConcat(PutsOf(page.added, listed), PutsOf(page.added, some),
                PutsOf(page.modified, listed), PutsOf(page.modified, some));
    ThinsConcat(PutsOf(page.added, listed) + PutsOf(page.modified, listed),
                PutsOf(page.added, some) + PutsOf(page.modified, some),
                DropsOf(page.removed), DropsOf(page.removed));
  }

  lemma {:induction false} WritesThin(pages: seq<Page>, listed: set<string>)
    requires forall p | p in pages :: Listed(p) <= listed
    ensures Thins(WritesAgainst(pages, listed), AllWrites(pages))
  {
    if pages != [] {
      var front, last := pages[..|pages| - 1], pages[|pages| - 1];
      assert last in pages && forall p | p in front :: p in pages;
      WritesThin(front, listed);
      PageThins(last, listed, Listed(last));
      ThinsConcat(WritesAgainst(front, listed), AllWrites(front), WritesOf(last, listed), WritesOf(last, Listed(last)));
    }
  }

  lemma {:induction false} ThinnerPutsEarlier(wide: seq<Write>, own: seq<Write>, id: string)
    requires Thins(wide, own)
    ensures LastPut(own, id).Some? ==> LastPut(wide, id).Some? && LastPut(own, id).value <= LastPut(wide, id).value
  {
    if wide != [] { ThinnerPutsEarlier(wide[..|wide| - 1], own[..|own| - 1], id); }
  }

  lemma ThinsDropsAlike(wide: seq<Write>, own: seq<Write>, from: nat, id: string)
    requires Thins(wide, own)
    ensures DropsFrom(wide, from, id) <==> DropsFrom(own, from, id)
  {
  }

  /** The last record stored with all account lists together says what the last one stored with
      its own page's list says, or else what the ledger says already; and if a withdrawal
      followed that earlier one, another follows the later one. */
  predicate SettlesAlike(l: Ledger, wide: seq<Write>, own: seq<Write>, id: string) {
    var last, alone := LastPut(wide, id), LastPut(own, id);
    last.Some? ==>
      if alone.Some? then
        && wide[last.value].entry == own[alone.value].entry
        && (DropsFrom(own, alone.value, id) ==> DropsFrom(own, last.value, id))
      else
        && id in l && wide[last.value].entry == l[id].(removed := false)
        && (l[id].removed || DropsFrom(own, 0, id) ==> DropsFrom(own, last.value, id))
  }

  predicate Unmarked(ws: seq<Write>) { forall w | w in ws :: w.Put? ==> !w.entry.removed }

  lemma {:induction false} PutsUnmarked(raws: seq<RawTransaction>, listed: set<string>)
    ensures Unmarked(PutsOf(raws, listed))
  {
    if raws != [] { PutsUnmarked(raws[..|raws| - 1], listed); }
  }

  lemma {:induction false} DropsUnmarked(ids: seq<Option<string>>)
    ensures Unmarked(DropsOf(ids))
  {
    if ids != [] { DropsUnmarked(ids[..|ids| - 1]); }
  }

  lemma {:induction false} WritesUnmarked(pages: seq<Page>, listed: set<string>)
    ensures Unmarked(WritesAgainst(pages, listed))
  {
    if pages != [] {
      var last := pages[|pages| - 1];
      WritesUnmarked(pages[..|pages| - 1], listed);
      PutsUnmarked(last.added, listed);
      PutsUnmarked(last.modified, listed);
      DropsUnmarked(last.removed);
    }
  }

  lemma SameEffectExactly(l: Ledger, wide: seq<Write>, own: seq<Write>, id: string)
    requires Thins(wide, own) && Unmarked(wide)
    ensures Effect(Get(l, id), wide, id) == Effect(Get(l, id), own, id) <==> SettlesAlike(l, wide, own, id)
  {
    var last, alone := LastPut(wide, id), LastPut(own, id);
    LastPutDecides(Get(l, id), wide, id);
    LastPutDecides(Get(l, id), own, id);
    ThinnerPutsEarlier(wide, own, id);
    ThinsDropsAlike(wide, own, 0, id);
    if last.Some? {
      ThinsDropsAlike(wide, own, last.value, id);
      assert wide[last.value] in wide;
      if alone.Some? { assert wide[alone.value] in wide && own[alone.value] == wide[alone.value]; }
    }
  }

  ghost predicate AllSettleAlike(l: Ledger, pages: seq<Page>) {
    forall id :: SettlesAlike(l, WritesAgainst(pages, ListedIn(pages)), AllWrites(pages), id)
  }

  /** Exactly when one sync over the pages leaves the ledger that one sync per page leaves. */
  lemma BatchingMattersExactly(l: Ledger, pages: seq<Page>)
    ensures Batch(l, pages) == Fold(l, pages) <==> AllSettleAlike(l, pages)
  {
    var listed := ListedIn(pages);
    var wide, own := WritesAgainst(pages, listed), AllWrites(pages);
    WritesThin(pages, listed);
    WritesUnmarked(pages, listed);
    forall id ensures Get(Batch(l, pages), id) == Get(Fold(l, pages), id) <==> SettlesAlike(l, wide, own, id) {
      BatchEffect(l, pages, listed, id);
      FoldEffect(l, pages, id);
      SameEffectExactly(l, wide, own, id);
    }
    if AllSettleAlike(l, pages) { SameEntriesSameLedger(Batch(l, pages), Fold(l, pages)); }
  }

  // ---------------------------------------------------------------- what a stored transaction holds

  /** A record as it appears in a log, with the account list of its page, or a withdrawal. */
  datatype Step = Offer(raw: RawTransaction, listed: set<string>) | Withdraw(id: Option<string>)

  function Steps(page: Page): seq<Step> {
    seq(|page.added|, i requires 0 <= i < |page.added| => Offer(page.added[i], Listed(page)))
    + seq(|page.modified|, i requires 0 <= i < |page.modified| => Offer(page.modified[i], Listed(page)))
    + seq(|page.removed|, i requires 0 <= i < |page.removed| => Withdraw(page.removed[i]))
  }

  function AllSteps(pages: seq<Page>): seq<Step> {
    if pages == [] then [] else AllSteps(pages[..|pages| - 1]) + Steps(pages[|pages| - 1])
  }

  /** A complete record of the transaction on a listed account. */
  predicate Accepts(step: Step, id: string) {
    && step.Offer? && step.raw.Raw? && step.raw.id == Some(id)
    && step.raw.account.Some? && step.raw.account.value in step.listed
    && step.raw.date.Some? && step.raw.amount.Some?
  }

  /** The entry says what the record says. */
  predicate Holds(e: Entry, raw: RawTransaction)
    requires raw.Raw?
  {
    && raw.account == Some(e.account) && raw.date == Some(e.date) && raw.amount == Some(e.amount)
    && e.pending == raw.pending && e.rest == raw.rest
    && NameHeld(e.name, raw.name, "Transaction", 500)
  }

  /** The given text, cut at `n` characters, or `default` when it is missing or empty. */
  predicate NameHeld(held: string, given: Option<string>, default: string, n: nat) {
    if given.None? || given.value == "" then held == default
    else held <= given.value && |held| == if |given.value| <= n then |given.value| else n
  }

  function WriteOf(step: Step): Write {
    match step
    case Offer(raw, listed) => PutOf(raw, listed)
    case Withdraw(id) => DropOf(id)
  }

  predicate Matches(steps: seq<Step>, ws: seq<Write>) {
    |steps| == |ws| && forall k | 0 <= k < |steps| :: ws[k] == WriteOf(steps[k])
  }

  lemma {:induction false} PutsMatch(raws: seq<RawTransaction>, listed: set<string>)
    ensures |PutsOf(raws, listed)| == |raws|
    ensures forall k | 0 <= k < |raws| :: PutsOf(raws, listed)[k] == PutOf(raws[k], listed)
  {
    if raws != [] { PutsMatch(raws[..|raws| - 1], listed); }
  }

  lemma {:induction false} DropsMatch(ids: seq<Option<string>>)
    ensures |DropsOf(ids)| == |ids| && forall k | 0 <= k < |ids| :: DropsOf(ids)[k] == DropOf(ids[k])
  {
    if ids != [] { DropsMatch(ids[..|ids| - 1]); }
  }

  lemma PageMatches(page: Page)
    ensures Matches(Steps(page), WritesOf(page, Listed(page)))
  {
    PutsMatch(page.added, Listed(page));
    PutsMatch(page.modified, Listed(page));
    DropsMatch(page.removed);
  }

  lemma {:induction false} StepsMatch(pages: seq<Page>)
    ensures Matches(AllSteps(pages), AllWrites(pages))
  {
    if pages != [] {
      StepsMatch(pages[..|pages| - 1]);
      PageMatches(pages[|pages| - 1]);
    }
  }

  lemma {:induction false} LastPutIs(ws: seq<Write>, id: string, k: nat)
    requires k < |ws| && ws[k].Put? && ws[k].id == id
    requires forall j | k < j < |ws| :: !(ws[j].Put? && ws[j].id == id)
    ensures LastPut(ws, id) == Some(k)
  {
    if k < |ws| - 1 { LastPutIs(ws[..|ws| - 1], id, k); }
  }

  lemma {:induction false} NoLastPut(ws: seq<Write>, id: string)
    requires forall j | 0 <= j < |ws| :: !(ws[j].Put? && ws[j].id == id)
    ensures LastPut(ws, id) == None
  {
    if ws != [] { NoLastPut(ws[..|ws| - 1], id); }
  }

  predicate Withdrawn(steps: seq<Step>, from: nat, id: string) {
    exists j :: from <= j < |steps| && steps[j] == Withdraw(Some(id))
  }

  lemma WithdrawnIsDropped(steps: seq<Step>, ws: seq<Write>, from: nat, id: string)
    requires Matches(steps, ws)
    ensures Withdrawn(steps, from, id) <==> DropsFrom(ws, from, id)
  {
    if j :| from <= j < |steps| && steps[j] == Withdraw(Some(id)) { assert ws[j] == Drop(id); }
    if j :| from <= j < |ws| && ws[j] == Drop(id) { assert steps[j] == Withdraw(Some(id)); }
  }

  lemma PutMeansAccepted(step: Step, id: string)
    ensures Accepts(step, id) <==> WriteOf(step).Put? && WriteOf(step).id == id
    ensures Accepts(step, id) ==> Holds(WriteOf(step).entry, step.raw) && !WriteOf(step).entry.removed
  {
  }

  /** The last complete record of a transaction on an account its page lists is what the ledger
      says of it, marked as removed exactly when a later withdrawal names it. */
  lemma LedgerHoldsTheLastRecord(l: Ledger, pages: seq<Page>, id: string, k: nat)
    requires k < |AllSteps(pages)| && Accepts(AllSteps(pages)[k], id)
    requires forall j | k < j < |AllSteps(pages)| :: !Accepts(AllSteps(pages)[j], id)
    ensures id in Fold(l, pages) && Holds(Fold(l, pages)[id], AllSteps(pages)[k].raw)
    ensures Fold(l, pages)[id].removed <==> Withdrawn(AllSteps(pages), k, id)
  {
    var steps, ws := AllSteps(pages), AllWrites(pages);
    StepsMatch(pages);
    PutMeansAccepted(steps[k], id);
    forall j | k < j < |ws| ensures !(ws[j].Put? && ws[j].id == id) { PutMeansAccepted(steps[j], id); }
    LastPutIs(ws, id, k);
    LastPutDecides(Get(l, id), ws, id);
    FoldEffect(l, pages, id);
    WithdrawnIsDropped(steps, ws, k, id);
  }

  /** Without such a record the ledger keeps what it had, only marked when a withdrawal names it. */
  lemma LedgerKeepsTheRest(l: Ledger, pages: seq<Page>, id: string)
    requires forall j | 0 <= j < |AllSteps(pages)| :: !Accepts(AllSteps(pages)[j], id)
    ensures id in Fold(l, pages) <==> id in l
    ensures id in l ==>
      Fold(l, pages)[id] == l[id].(removed := l[id].removed || Withdrawn(AllSteps(pages), 0, id))
  {
    var steps, ws := AllSteps(pages), AllWrites(pages);
    StepsMatch(pages);
    forall j | 0 <= j < |ws| ensures !(ws[j].Put? && ws[j].id == id) { PutMeansAccepted(steps[j], id); }
    NoLastPut(ws, id);
    LastPutDecides(Get(l, id), ws, id);
    FoldEffect(l, pages, id);
    WithdrawnIsDropped(steps, ws, 0, id);
  }

  // ---------------------------------------------------------------- three logs

  function Record(id: string, account: string): RawTransaction {
    Raw(Some(id), Some(account), Some(0), Some(1), None, false, "")
  }

  lemma Lists(page: Page, account: string)
    ensures page.accounts == [] ==> Listed(page) == {}
    ensures page.accounts == [Listing(account)] ==> Listed(page) == {account}
  {
    if page.accounts == [Listing(account)] {
      assert Listing(account) in page.accounts && Listing(account).id.value == account;
    }
  }

  lemma OneRecord(l: Ledger, listed: set<string>, raw: RawTransaction)
    ensures UpsertAll(l, listed, [raw]) == Upserted(l, listed, raw)
  {
    assert [raw][..0] == [];
  }

  lemma OnePage(l: Ledger, page: Page)
    ensures Fold(l, [page]) == ApplyPage(l, Listed(page), page)
  {
    var pages := [page];
    assert pages[..|pages| - 1] == [];
    assert Fold(l, pages) == ApplyPage(Fold(l, []), Listed(page), page);
  }

  lemma TwoPages(l: Ledger, p: Page, q: Page)
    ensures var all := Listed(p) + Listed(q);
      Batch(l, [p, q]) == ApplyPage(ApplyPage(l, all, p), all, q)
    ensures Fold(l, [p, q]) == ApplyPage(ApplyPage(l, Listed(p), p), Listed(q), q)
  {
    assert [p, q][..1] == [p] && [p][..0] == [];
    var all := Listed(p) + Listed(q);
    assert ListedIn([p, q]) == all by {
      assert p in [p, q] && q in [p, q];
    }
    OnePage(l, p);
    assert ApplyPages(l, all, [p]) == ApplyPage(l, all, p);
  }

  /** It can happen: the transaction comes one page before the list that names its account. */
  lemma BatchingCanMatter()
    ensures exists pages :: Batch(map[], pages).Keys != Fold(map[], pages).Keys
  {
    var raw := Record("t", "a");
    var p := Page([], [raw], [], []);
    var q := Page([Listing("a")], [], [], []);
    Lists(p, "a");
    Lists(q, "a");
    OneRecord(map[], {}, raw);
    OneRecord(map[], {"a"}, raw);
    TwoPages(map[], p, q);
    assert Fold(map[], [p, q]) == map[];
    assert "t" in Batch(map[], [p, q]);
  }

  /** The same transactions are stored either way, but one is moved to an account that only the
      next page lists: alone, the page leaves it where it was. */
  lemma BatchingCanMoveATransaction()
    ensures exists pages ::
      Batch(map[], pages).Keys == Fold(map[], pages).Keys && Batch(map[], pages) != Fold(map[], pages)
  {
    var first, moved := Record("t", "a"), Record("t", "b");
    var p := Page([Listing("a")], [first], [moved], []);
    var q := Page([Listing("b")], [], [], []);
    Lists(p, "a");
    Lists(q, "b");
    OneRecord(map[], {"a"}, first);
    OneRecord(map[], {"a"} + {"b"}, first);
    OneRecord(Upserted(map[], {"a"}, first), {"a"}, moved);
    OneRecord(Upserted(map[], {"a"} + {"b"}, first), {"a"} + {"b"}, moved);
    TwoPages(map[], p, q);
    assert Fold(map[], [p, q])["t"].account == "a" && Batch(map[], [p, q])["t"].account == "b";
    assert Fold(map[], [p, q]).Keys == {"t"} == Batch(map[], [p, q]).Keys;
  }

  /** A late account list does no harm when the record comes again with it. */
  lemma LateListCanBeHarmless()
    ensures exists pages :: !ConsistentlyListed(pages) && Batch(map[], pages) == Fold(map[], pages)
  {
    var raw := Record("t", "a");
    var p := Page([], [raw], [], []);
    var q := Page([Listing("a")], [raw], [], []);
    Lists(p, "a");
    Lists(q, "a");
    OneRecord(map[], {}, raw);
    OneRecord(map[], {"a"}, raw);
    OneRecord(Upserted(map[], {"a"}, raw), {"a"}, raw);
    TwoPages(map[], p, q);
    var pages := [p, q];
    assert {} + {"a"} == {"a"};
    assert Batch(map[], pages) == Fold(map[], pages);
    assert p in pages && q in pages && "a" in ListedIn(pages) && raw in p.added + p.modified;
    assert Usable(raw, ListedIn(pages)) && !Usable(raw, Listed(p));
  }
}
