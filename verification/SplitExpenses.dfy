/**
 The record store of generated apps (services/generated_apps.py, services/generated_app_specs.py),
 as far as shared expenses need it: participants, guests and expenses are validated, created,
 updated and deleted.  Whitespace normalisation, case folding and the checks of the remaining
 fields are arbitrary functions.
 */
module SplitExpenses {
  import opened Options

  datatype Value = Null | Text(text: string) | List(items: seq<Value>) | Other(tag: nat)

  type Data = map<string, Value>

  datatype Rules = Rules(
    clean: string -> string,
    fold: string -> string,
    field: (string, Value) -> Option<Value>,      // amount, category, note, description, date
    other: (string, Data) -> Option<Data>)        // the record types without names

  datatype ModuleType = Expenses(split: bool) | GuestList | OtherModule(kind: string)

  datatype Module = Module(id: string, kind: ModuleType)

  datatype App = Workspace(modules: seq<Module>) | ExpenseSplitter

  datatype Record = Record(moduleId: string, kind: string, data: Data)

  type Records = map<nat, Record>

  const MAX_RECORDS := 10_000
  const MAX_PEOPLE := 20
  const MAX_NAME := 80

  // ---------------------------------------------------------------- field cleaning

  function Get(d: Data, key: string): Value { if key in d then d[key] else Null }

  function CleanText(r: Rules, v: Value, max: nat): Option<string> {
    if !v.Text? then None
    else
      var clean := r.clean(v.text);
      if 1 <= |clean| <= max then Some(clean) else None
  }

  datatype Optional = Invalid | Absent | Given(text: string)

  function OptionalText(r: Rules, v: Value, max: nat): Optional {
    if v.Null? then Absent
    else if !v.Text? then Invalid
    else
      var clean := r.clean(v.text);
      if clean == "" then Absent else if |clean| > max then Invalid else Given(clean)
  }

  predicate Mentions(r: Rules, texts: seq<string>, text: string) {
    exists i :: 0 <= i < |texts| && r.fold(texts[i]) == r.fold(text)
  }

  /** Cleaned texts without repetitions up to case; none when a value is not a text. */
  function UniqueTexts(r: Rules, values: seq<Value>): Option<seq<string>> {
    if values == [] then Some([])
    else
      var front, last := UniqueTexts(r, values[..|values| - 1]), CleanText(r, values[|values| - 1], MAX_NAME);
      if front.None? || last.None? then None
      else if Mentions(r, front.value, last.value) then front
      else Some(front.value + [last.value])
  }

  method CollectUniqueTexts(r: Rules, values: seq<Value>) returns (texts: Option<seq<string>>)
    ensures texts == if |values| > MAX_PEOPLE then None else UniqueTexts(r, values)
  {
    if |values| > MAX_PEOPLE { return None; }
    var result: seq<string>, seen: set<string> := [], {};
    for i := 0 to |values|
      invariant UniqueTexts(r, values[..i]) == Some(result)
      invariant forall key :: key in seen <==> exists k :: 0 <= k < |result| && r.fold(result[k]) == key
    {
      assert values[..i + 1][..i] == values[..i];
      var clean := CleanText(r, values[i], MAX_NAME);
      if clean.None? {
        NoTextsBeyond(r, values, i + 1);
        return None;
      }
      var key := r.fold(clean.value);
      if key !in seen {
        ghost var before := result;
        seen := seen + {key};
        result := result + [clean.value];
        assert forall k | 0 <= k < |before| :: result[k] == before[k];
        assert result[|before|] == clean.value;
      }
    }
    assert values[..|values|] == values;
    return Some(result);
  }

  lemma {:induction false} NoTextsBeyond(r: Rules, values: seq<Value>, i: nat)
    requires i <= |values| && UniqueTexts(r, values[..i]).None?
    ensures UniqueTexts(r, values).None?
    decreases |values| - i
  {
    if i == |values| {
      assert values[..i] == values;
    } else {
      assert values[..i + 1][..i] == values[..i];
      NoTextsBeyond(r, values, i + 1);
    }
  }

  function AllTexts(r: Rules, values: seq<Value>): Option<seq<string>> {
    if values == [] then Some([])
    else
      var front, last := AllTexts(r, values[..|values| - 1]), CleanText(r, values[|values| - 1], MAX_NAME);
      if front.None? || last.None? then None
      else if last.value in front.value then front
      else Some(front.value + [last.value])
  }

  function TextValues(texts: seq<string>): seq<Value> { seq(|texts|, i requires 0 <= i < |texts| => Text(texts[i])) }

  // ---------------------------------------------------------------- record validators

  function ValidParticipant(r: Rules, split: bool, d: Data): Option<Data> {
    if !split || d.Keys != {"name"} then None
    else
      var name := CleanText(r, d["name"], MAX_NAME);
      if name.None? then None else Some(map["name" := Text(name.value)])
  }

  function ValidGuest(r: Rules, d: Data): Option<Data> {
    var name, rest := CleanText(r, Get(d, "name"), MAX_NAME), r.other("guest", d);
    if name.None? || rest.None? then None else Some(rest.value["name" := Text(name.value)])
  }

  function PersonValue(paidBy: Optional): Value { if paidBy.Given? then Text(paidBy.text) else Null }

  function ValidExpense(r: Rules, split: bool, d: Data): Option<Data> {
    if d.Keys != {"amount", "category", "note", "date", "paid_by", "split_between"} then None
    else
      var paidBy := OptionalText(r, d["paid_by"], MAX_NAME);
      if paidBy.Invalid? || !d["split_between"].List? || |d["split_between"].items| > MAX_PEOPLE then None
      else
        var people := UniqueTexts(r, d["split_between"].items);
        if people.None? then None
        else if split && (paidBy.Absent? || people.value == []) then None
        else if !split && (paidBy.Given? || people.value != []) then None
        else
          var amount, category := r.field("amount", d["amount"]), r.field("category", d["category"]);
          var note, date := r.field("note", d["note"]), r.field("date", d["date"]);
          if amount.None? || category.None? || note.None? || date.None? then None
          else Some(map["amount" := amount.value, "category" := category.value, "note" := note.value,
            "date" := date.value,
                        "paid_by" := PersonValue(paidBy), "split_between" := List(TextValues(people.value))])
  }

  function ValidLegacyExpense(r: Rules, d: Data): Option<Data> {
    var paidBy, split := CleanText(r, Get(d, "paid_by"), MAX_NAME), Get(d, "split_between");
    if paidBy.None? || !split.List? then None
    else
      var people := AllTexts(r, if |split.items| > MAX_PEOPLE then split.items[..MAX_PEOPLE] else split.items);
      if people.None? || people.value == [] then None
      else
        var amount, description := r.field("amount", Get(d, "amount")), r.field("description", Get(d, "description"));
        var date := r.field("date", Get(d, "date"));
        if amount.None? || description.None? || date.None? then None
        else Some(map["amount" := amount.value, "description" := description.value, "date" := date.value,
                      "paid_by" := Text(paidBy.value), "split_between" := List(TextValues(people.value))])
  }

  // ---------------------------------------------------------------- modules

  predicate Accepts(m: ModuleType, kind: string) {
    match m
    case Expenses(_) => kind == "participant" || kind == "expense"
    case GuestList => kind == "guest"
    case OtherModule(own) => kind == own && kind !in {"participant", "expense", "guest"}
  }

  function ModuleOf(modules: seq<Module>, id: string): Option<ModuleType> {
    if modules == [] then None
    else if modules[0].id == id then Some(modules[0].kind)
    else ModuleOf(modules[1..], id)
  }

  function Accepting(modules: seq<Module>, kind: string): seq<string> {
    if modules == [] then []
    else (if Accepts(modules[0].kind, kind) then [modules[0].id] else []) + Accepting(modules[1..], kind)
  }

  /** The module a record goes to; without an id it must be the only one for the record type. */
  function Resolved(app: App, moduleId: Option<string>, kind: string): Option<string> {
    match app
    case ExpenseSplitter => if moduleId.Some? && moduleId.value != "expenses" then None else Some("expenses")
    case Workspace(modules) =>
      if moduleId.Some? then
        var m := ModuleOf(modules, moduleId.value);
        if m.Some? && Accepts(m.value, kind) then moduleId else None
      else
        var matches := Accepting(modules, kind);
        if |matches| == 1 then Some(matches[0]) else None
  }

  predicate IsSplit(app: App, moduleId: string) {
    match app
    case ExpenseSplitter => moduleId == "expenses"
    case Workspace(modules) => ModuleOf(modules, moduleId) == Some(Expenses(true))
  }

  /** The record's own validator; other records are not looked at. */
  function Validated(app: App, r: Rules, moduleId: string, kind: string, d: Data): Option<Data> {
    match app
    case ExpenseSplitter =>
      if kind == "participant" then
        var name := CleanText(r, Get(d, "name"), MAX_NAME);
        if name.None? then None else Some(map["name" := Text(name.value)])
      else if kind == "expense" then ValidLegacyExpense(r, d)
      else None
    case Workspace(modules) =>
      var m := ModuleOf(modules, moduleId);
      if m.None? || !Accepts(m.value, kind) then None
      else match m.value
        case Expenses(split) =>
          if kind == "participant" then ValidParticipant(r, split, d) else ValidExpense(r, split, d)
        case GuestList => ValidGuest(r, d)
        case OtherModule(_) => r.other(kind, d)
  }

  // ---------------------------------------------------------------- references between records

  predicate IsNamed(kind: string) { kind == "participant" || kind == "guest" }

  function NameOf(d: Data): string { if Get(d, "name").Text? then Get(d, "name").text else "" }

  predicate IsParticipant(record: Record, moduleId: string, name: string) {
    record.kind == "participant" && record.moduleId == moduleId && NameOf(record.data) == name
  }

  /** Two named records of one module and kind with the same name up to case. */
  predicate Clash(r: Rules, a: Record, b: Record) {
    IsNamed(a.kind) && a.kind == b.kind && a.moduleId == b.moduleId && r.fold(NameOf(a.data)) == r.fold(NameOf(b.data))
  }

  /** The name paid for or shares the expense. */
  predicate Involves(d: Data, name: string) {
    || Get(d, "paid_by") == Text(name)
    || (Get(d, "split_between").List? && Text(name) in Get(d, "split_between").items)
  }

  predicate IsPresent(records: Records, moduleId: string, name: string) {
    exists id :: id in records && IsParticipant(records[id], moduleId, name)
  }

  predicate IsSplitExpense(app: App, record: Record) { record.kind == "expense" && IsSplit(app, record.moduleId) }

  ghost predicate PeoplePresent(records: Records, record: Record) {
    forall name: string {:trigger Involves(record.data, name)} | Involves(record.data, name) ::
      IsPresent(records, record.moduleId, name)
  }

  /** The people a stored expense names. */
  function People(d: Data): seq<string> {
    (if Get(d, "paid_by").Text? then [Get(d, "paid_by").text] else []) +
    (if Get(d, "split_between").List? then Names(Get(d, "split_between").items) else [])
  }

  function Names(items: seq<Value>): seq<string> {
    if items == [] then []
    else Names(items[..|items| - 1]) + (if items[|items| - 1].Text? then [items[|items| - 1].text] else [])
  }

  lemma {:induction false} NamesAreTheTexts(items: seq<Value>, name: string)
    ensures name in Names(items) <==> Text(name) in items
  {
    if items != [] {
      NamesAreTheTexts(items[..|items| - 1], name);
      assert items == items[..|items| - 1] + [items[|items| - 1]];
    }
  }

  lemma PeopleAreInvolved(d: Data, name: string)
    ensures name in People(d) <==> Involves(d, name)
  {
    if Get(d, "split_between").List? { NamesAreTheTexts(Get(d, "split_between").items, name); }
  }

  // ---------------------------------------------------------------- the operations as functions

  predicate Clashes(r: Rules, records: Records, exclude: Option<nat>, record: Record) {
    exists id :: id in records && exclude != Some(id) && Clash(r, records[id], record)
  }

  predicate EveryonePresent(records: Records, record: Record) {
    forall i | 0 <= i < |People(record.data)| :: IsPresent(records, record.moduleId, People(record.data)[i])
  }

  /** The record to store, or none when a check refuses it. */
  function Checked(app: App, r: Rules, records: Records, exclude: Option<nat>, moduleId: Option<string>,
        kind: string, d: Data): Option<Record> {
    var target := Resolved(app, moduleId, kind);
    if target.None? then None
    else
      var data := Validated(app, r, target.value, kind, d);
      if data.None? then None
      else
        var record := Record(target.value, kind, data.value);
        if Clashes(r, records, exclude, record) then None
        else if IsSplitExpense(app, record) && !EveryonePresent(records, record) then None
        else Some(record)
  }

  datatype Change =
    | Create(moduleId: Option<string>, kind: string, data: Data, id: nat)
    | Update(id: nat, data: Data)
    | Delete(id: nat)

  predicate Referenced(records: Records, participant: Record) {
    exists id :: id in records && records[id].kind == "expense" && records[id].moduleId == participant.moduleId
                 && Involves(records[id].data, NameOf(participant.data))
  }

  /** The store after a change, or none when it is refused; refused changes write nothing. */
  function Applied(app: App, r: Rules, records: Records, c: Change): Option<Records> {
    match c
    case Create(moduleId, kind, data, id) =>
      if |records| >= MAX_RECORDS || id in records then None
      else
        var record := Checked(app, r, records, None, moduleId, kind, data);
        if record.None? then None else Some(records[id := record.value])
    case Update(id, data) =>
      if id !in records || !app.Workspace? then None
      else
        var stored := records[id];
        var record := Checked(app, r, records, Some(id), Some(stored.moduleId), stored.kind, stored.data + data);
        if record.None? then None
        else if stored.kind == "participant" && Get(record.value.data, "name") != Get(stored.data, "name") &&
          Referenced(records, stored) then None
        else Some(records[id := stored.(data := record.value.data)])
    case Delete(id) =>
      if id !in records || (records[id].kind == "participant" && Referenced(records, records[id])) then None
      else Some(records - {id})
  }

  // ---------------------------------------------------------------- the invariant

  ghost predicate Inv(app: App, r: Rules, records: Records) {
    && (forall id | id in records :: WellNamed(records[id]))
    && (forall a, b | a in records && b in records && a != b :: !Clash(r, records[a], records[b]))
    && (forall id | id in records && IsSplitExpense(app, records[id]) :: PeoplePresent(records, records[id]))
  }

  predicate WellNamed(record: Record) { record.kind == "participant" ==> Get(record.data, "name").Text? }

  lemma ValidatedIsNamed(app: App, r: Rules, moduleId: string, kind: string, d: Data)
    requires Validated(app, r, moduleId, kind, d).Some?
    ensures WellNamed(Record(moduleId, kind, Validated(app, r, moduleId, kind, d).value))
  {
  }

  /** What a check that passed has established. */
  lemma CheckedMeans(app: App, r: Rules, records: Records, exclude: Option<nat>, moduleId: Option<string>,
        kind: string, d: Data)
    requires Checked(app, r, records, exclude, moduleId, kind, d).Some?
    ensures var record := Checked(app, r, records, exclude, moduleId, kind, d).value;
      && record.kind == kind && WellNamed(record)
      && (app.Workspace? && moduleId.Some? ==> record.moduleId == moduleId.value)
      && (forall id | id in records && exclude != Some(id) :: !Clash(r, records[id], record))
      && (IsSplitExpense(app, record) ==> PeoplePresent(records, record))
  {
    var record := Checked(app, r, records, exclude, moduleId, kind, d).value;
    ValidatedIsNamed(app, r, record.moduleId, kind, d);
    if IsSplitExpense(app, record) {
      forall name: string | Involves(record.data, name) ensures IsPresent(records, record.moduleId, name) {
        PeopleAreInvolved(record.data, name);
        var i :| 0 <= i < |People(record.data)| && People(record.data)[i] == name;
      }
    }
  }

  /** Everyone stays present while no participant disappears or changes its name. */
  lemma PeopleStay(records: Records, records': Records, record: Record)
    requires PeoplePresent(records, record)
    requires forall id | id in records && records[id].kind == "participant" ::
      id in records' && SameParticipant(records[id], records'[id])
    ensures PeoplePresent(records', record)
  {
    forall name: string | Involves(record.data, name) ensures IsPresent(records', record.moduleId, name) {
      var id :| id in records && IsParticipant(records[id], record.moduleId, name);
      assert IsParticipant(records'[id], record.moduleId, name);
    }
  }

  predicate SameParticipant(a: Record, b: Record) {
    a.kind == b.kind && a.moduleId == b.moduleId && NameOf(a.data) == NameOf(b.data)
  }

  /** A participant that no expense refers to is nobody's only witness. */
  lemma PeopleDoNotNeed(records: Records, records': Records, record: Record, p: nat)
    requires p in records && PeoplePresent(records, record) && !Involves(record.data, NameOf(records[p].data))
    requires forall id | id in records && id != p :: id in records' && records'[id] == records[id]
    ensures PeoplePresent(records', record)
  {
    forall name: string | Involves(record.data, name) ensures IsPresent(records', record.moduleId, name) {
      var id :| id in records && IsParticipant(records[id], record.moduleId, name);
      assert IsParticipant(records'[id], record.moduleId, name);
    }
  }

  lemma UnreferencedIsUninvolved(records: Records, p: nat, id: nat)
    requires p in records && id in records && records[id].kind == "expense" && !Referenced(records, records[p])
    requires records[id].moduleId == records[p].moduleId
    ensures !Involves(records[id].data, NameOf(records[p].data))
  {
  }

  lemma CreateKeepsInv(app: App, r: Rules, records: Records, moduleId: Option<string>, kind: string, d: Data, id: nat)
    requires Inv(app, r, records) && id !in records && Checked(app, r, records, None, moduleId, kind, d).Some?
    ensures Inv(app, r, records[id := Checked(app, r, records, None, moduleId, kind, d).value])
  {
    var record := Checked(app, r, records, None, moduleId, kind, d).value;
    var records' := records[id := record];
    CheckedMeans(app, r, records, None, moduleId, kind, d);
    forall e | e in records' && IsSplitExpense(app, records'[e]) ensures PeoplePresent(records', records'[e]) {
      PeopleStay(records, records', records'[e]);
    }
  }

  /** In another module, or another name: an expense that may lose `p` does not need it. */
  lemma OthersStillPresent(records: Records, records': Records, e: nat, p: nat)
    requires p in records && e in records && records[e].kind == "expense" && PeoplePresent(records, records[e])
    requires records[p].kind == "participant" ==>
      !Referenced(records, records[p]) || (p in records' && SameParticipant(records[p], records'[p]))
    requires forall id | id in records && id != p :: id in records' && records'[id] == records[id]
    ensures PeoplePresent(records', records[e])
  {
    if records[p].kind == "participant" && p in records' && SameParticipant(records[p], records'[p]) {
      PeopleStay(records, records', records[e]);
    } else if records[p].kind == "participant" && records[p].moduleId == records[e].moduleId {
      UnreferencedIsUninvolved(records, p, e);
      PeopleDoNotNeed(records, records', records[e], p);
    } else {
      forall name: string | Involves(records[e].data, name) ensures IsPresent(records', records[e].moduleId, name) {
        var id :| id in records && IsParticipant(records[id], records[e].moduleId, name);
        assert IsParticipant(records'[id], records[e].moduleId, name);
      }
    }
  }

  lemma DeleteKeepsInv(app: App, r: Rules, records: Records, id: nat)
    requires Inv(app, r, records) && Applied(app, r, records, Delete(id)).Some?
    ensures Inv(app, r, Applied(app, r, records, Delete(id)).value)
  {
    var records' := records - {id};
    forall e | e in records' && IsSplitExpense(app, records'[e]) ensures PeoplePresent(records', records'[e]) {
      OthersStillPresent(records, records', e, id);
    }
  }

  lemma UpdateKeepsInv(app: App, r: Rules, records: Records, id: nat, data: Data)
    requires Inv(app, r, records) && Applied(app, r, records, Update(id, data)).Some?
    ensures Inv(app, r, Applied(app, r, records, Update(id, data)).value)
  {
    var stored := records[id];
    var record := Checked(app, r, records, Some(id), Some(stored.moduleId), stored.kind, stored.data + data).value;
    CheckedMeans(app, r, records, Some(id), Some(stored.moduleId), stored.kind, stored.data + data);
    var records' := records[id := record];
    assert Applied(app, r, records, Update(id, data)).value == records';
    forall e | e in records' && IsSplitExpense(app, records'[e]) ensures PeoplePresent(records', records'[e]) {
      if e == id {
        PeopleStay(records, records', record);
      } else {
        OthersStillPresent(records, records', e, id);
      }
    }
    forall a, b | a in records' && b in records' && a != b ensures !Clash(r, records'[a], records'[b]) {
      if a == id { assert !Clash(r, records[b], record); }
    }
  }

  function Step(app: App, r: Rules, records: Records, c: Change): Records {
    var after := Applied(app, r, records, c);
    if after.Some? then after.value else records
  }

  function Run(app: App, r: Rules, records: Records, changes: seq<Change>): Records {
    if changes == [] then records
    else Step(app, r, Run(app, r, records, changes[..|changes| - 1]), changes[|changes| - 1])
  }

  /** Whatever is created, updated and deleted, in every app: the payer and the sharers of each
      split expense are participants of its module, and no two participants of a module (and no
      two guests) have the same name up to case. */
  lemma {:induction false} RunKeepsInv(app: App, r: Rules, records: Records, changes: seq<Change>)
    requires Inv(app, r, records)
    ensures Inv(app, r, Run(app, r, records, changes))
  {
    if changes != [] {
      RunKeepsInv(app, r, records, changes[..|changes| - 1]);
      var before, c := Run(app, r, records, changes[..|changes| - 1]), changes[|changes| - 1];
      if Applied(app, r, before, c).Some? {
        match c
        case Create(moduleId, kind, data, id) => CreateKeepsInv(app, r, before, moduleId, kind, data, id);
        case Update(id, data) => UpdateKeepsInv(app, r, before, id, data);
        case Delete(id) => DeleteKeepsInv(app, r, before, id);
      }
    }
  }

  /** A participant can be removed exactly when no expense of its module involves it: the guard
      refuses neither too much nor too little. */
  lemma DeletableExactly(app: App, r: Rules, records: Records, id: nat)
    requires Inv(app, r, records) && id in records && records[id].kind == "participant" &&
      IsSplit(app, records[id].moduleId)
    ensures Applied(app, r, records, Delete(id)).Some? <==>
              forall e | e in records && IsSplitExpense(app, records[e]) :: PeoplePresent(records - {id}, records[e])
  {
    var left := records - {id};
    var name := NameOf(records[id].data);
    if Applied(app, r, records, Delete(id)).Some? {
      DeleteKeepsInv(app, r, records, id);
      forall e | e in records && IsSplitExpense(app, records[e]) ensures PeoplePresent(left, records[e]) {
        assert left[e] == records[e];
      }
    } else {
      var e :| e in records && records[e].kind == "expense" && records[e].moduleId == records[id].moduleId &&
        Involves(records[e].data, name);
      if PeoplePresent(left, records[e]) {
        var other :| other in left && IsParticipant(left[other], records[e].moduleId, name);
        assert Clash(r, records[other], records[id]);
        assert false;
      }
    }
  }

  // ---------------------------------------------------------------- the store itself

  class RecordStore {
    const app: App
    const rules: Rules
    var records: Records

    ghost predicate Valid()
      reads this
    {
      Inv(app, rules, records)
    }

    constructor (app: App, rules: Rules)
      ensures Valid() && records == map[] && this.app == app && this.rules == rules
    {
      this.app, this.rules, records := app, rules, map[];
    }

    method Create(moduleId: Option<string>, kind: string, data: Data, id: nat) returns (ok: bool)
      requires Valid() && id !in records
      modifies this
      ensures Valid() && records == Step(app, rules, old(records), Change.Create(moduleId, kind, data, id))
      ensures ok <==> id in records
    {
      if |records| >= MAX_RECORDS { return false; }
      var record := Checked(app, rules, records, None, moduleId, kind, data);
      if record.None? { return false; }
      CreateKeepsInv(app, rules, records, moduleId, kind, data, id);
      records := records[id := record.value];
      return true;
    }

    method Update(id: nat, data: Data) returns (ok: bool)
      requires Valid()
      modifies this
      ensures Valid() && records == Step(app, rules, old(records), Change.Update(id, data))
      ensures ok <==> Applied(app, rules, old(records), Change.Update(id, data)).Some?
    {
      if id !in records || !app.Workspace? { return false; }
      var stored := records[id];
      var record := Checked(app, rules, records, Some(id), Some(stored.moduleId), stored.kind, stored.data + data);
      if record.None? { return false; }
      if stored.kind == "participant" && Get(record.value.data, "name") != Get(stored.data, "name") &&
        Referenced(records, stored) {
        return false;
      }
      UpdateKeepsInv(app, rules, records, id, data);
      records := records[id := stored.(data := record.value.data)];
      return true;
    }

    method Delete(id: nat) returns (ok: bool)
      requires Valid()
      modifies this
      ensures Valid() && records == Step(app, rules, old(records), Change.Delete(id))
      ensures ok <==> id in old(records) && id !in records
    {
      if id !in records { return false; }
      if records[id].kind == "participant" && Referenced(records, records[id]) { return false; }
      DeleteKeepsInv(app, rules, records, id);
      records := records - {id};
      return true;
    }
  }
}
