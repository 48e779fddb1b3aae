/**
 What the checks of the record store come to: which texts, records and changes are accepted and
 what is stored for them (services/generated_app_specs.py, services/generated_apps.py).
 */
module SplitRules {
  import opened Options
  import opened SplitExpenses

  // ---------------------------------------------------------------- texts

  /** The value is a text that cleans to this one, not empty and no longer than `max`. */
  predicate IsText(r: Rules, v: Value, max: nat, text: string) {
    v.Text? && r.clean(v.text) == text && text != "" && |text| <= max
  }

  lemma TextsMean(r: Rules, v: Value, max: nat, text: string)
    ensures CleanText(r, v, max) == Some(text) <==> IsText(r, v, max, text)
    ensures OptionalText(r, v, max) == Given(text) <==> IsText(r, v, max, text)
    ensures OptionalText(r, v, max) == Absent <==> v == Null || (v.Text? && r.clean(v.text) == "")
  {
  }

  predicate AreTexts(r: Rules, values: seq<Value>) {
    forall v | v in values :: v.Text? && 1 <= |r.clean(v.text)| <= 80
  }

  ghost predicate FromValue(r: Rules, values: seq<Value>, text: string) {
    exists v :: v in values && IsText(r, v, 80, text)
  }

  predicate Covered(r: Rules, texts: seq<string>, v: Value) {
    v.Text? && exists t :: t in texts && r.fold(t) == r.fold(r.clean(v.text))
  }

  /** Each text is some value's, each value's text is there up to case, and once only. */
  ghost predicate ListsOnce(r: Rules, values: seq<Value>, texts: seq<string>) {
    && (forall t {:trigger FromValue(r, values, t)} | t in texts :: FromValue(r, values, t))
    && (forall v {:trigger Covered(r, texts, v)} | v in values :: Covered(r, texts, v))
    && (forall i, j | 0 <= i < j < |texts| :: r.fold(texts[i]) != r.fold(texts[j]))
  }

  /** Names are accepted when every value is a text that cleans to 1 to 80 characters; the first of
      those that differ only in case is kept. */
  lemma {:induction false} UniqueTextsMean(r: Rules, values: seq<Value>)
    ensures UniqueTexts(r, values).Some? <==> AreTexts(r, values)
    ensures AreTexts(r, values) ==> ListsOnce(r, values, UniqueTexts(r, values).value)
  {
    if values != [] {
      var front, last := values[..|values| - 1], values[|values| - 1];
      UniqueTextsMean(r, front);
      assert values == front + [last];
      if AreTexts(r, values) {
        UniqueTextsMore(r, front, last);
      } else {
        assert AreTexts(r, front) ==> CleanText(r, last, MAX_NAME).None?;
      }
    }
  }

  lemma UniqueTextsMore(r: Rules, front: seq<Value>, last: Value)
    requires AreTexts(r, front + [last]) && UniqueTexts(r, front).Some?
    requires ListsOnce(r, front, UniqueTexts(r, front).value)
    ensures UniqueTexts(r, front + [last]).Some?
    ensures ListsOnce(r, front + [last], UniqueTexts(r, front + [last]).value)
  {
    var values, before := front + [last], UniqueTexts(r, front).value;
    assert last in values && values[..|values| - 1] == front;
    var text := r.clean(last.text);
    assert CleanText(r, last, MAX_NAME) == Some(text);
    var after := if Mentions(r, before, text) then before else before + [text];
    assert UniqueTexts(r, values) == Some(after);
    assert IsText(r, last, 80, text);
    forall t | t in after ensures FromValue(r, values, t) {
      if t in before {
        assert FromValue(r, front, t);
        var v :| v in front && IsText(r, v, 80, t);
        assert v in values;
      } else {
        assert t == text;
      }
    }
    forall v | v in values ensures Covered(r, after, v) {
      if v in front {
        assert Covered(r, before, v);
        var t :| t in before && r.fold(t) == r.fold(r.clean(v.text));
        assert t in after;
      } else if Mentions(r, before, text) {
        var i :| 0 <= i < |before| && r.fold(before[i]) == r.fold(text);
        assert before[i] in after;
      } else {
        assert text in after;
      }
    }
  }

  /** What comes first stays first. */
  lemma {:induction false} UniqueTextsKeepOrder(r: Rules, values: seq<Value>, k: nat)
    requires k <= |values| && UniqueTexts(r, values).Some?
    ensures UniqueTexts(r, values[..k]).Some? && UniqueTexts(r, values[..k]).value <= UniqueTexts(r, values).value
  {
    if k < |values| {
      UniqueTextsKeepOrder(r, values[..|values| - 1], k);
      assert values[..|values| - 1][..k] == values[..k];
    } else {
      assert values[..k] == values;
    }
  }

  // ---------------------------------------------------------------- single records

  /** A participant has a name and nothing else, and only in a module in split mode. */
  lemma ParticipantMeans(r: Rules, split: bool, d: Data, data: Data)
    ensures ValidParticipant(r, split, d) == Some(data) <==>
      split && d.Keys == {"name"} && exists name :: IsText(r, d["name"], 80, name) && data == map["name" := Text(name)]
  {
    if split && d.Keys == {"name"} && CleanText(r, d["name"], 80).Some? {
      assert IsText(r, d["name"], 80, CleanText(r, d["name"], 80).value);
    }
  }

  predicate ExpenseKeys(d: Data) { d.Keys == {"amount", "category", "note", "date", "paid_by", "split_between"} }

  /** The payer as stored: the cleaned name, or nothing for a missing or empty one. */
  predicate PayerIs(r: Rules, v: Value, payer: Value) {
    match payer
    case Null => v == Null || (v.Text? && r.clean(v.text) == "")
    case Text(name) => IsText(r, v, 80, name)
    case _ => false
  }

  predicate SharersAre(r: Rules, v: Value, sharers: Value) {
    && v.List? && |v.items| <= 20 && UniqueTexts(r, v.items).Some?
    && sharers == List(TextValues(UniqueTexts(r, v.items).value))
  }

  predicate FieldIs(r: Rules, d: Data, key: string, stored: Value)
    requires key in d
  {
    r.field(key, d[key]) == Some(stored)
  }

  /** What an accepted expense was and is stored as: exactly its six fields, each checked and stored
      on its own; in split mode it has a payer and a sharer, otherwise neither. */
  predicate ExpenseStored(r: Rules, split: bool, d: Data, data: Data) {
    && ExpenseKeys(d) && ExpenseKeys(data)
    && PayerIs(r, d["paid_by"], data["paid_by"]) && SharersAre(r, d["split_between"], data["split_between"])
    && (split <==> data["paid_by"] != Null) && (split <==> data["split_between"] != List([]))
    && FieldIs(r, d, "amount", data["amount"]) && FieldIs(r, d, "category", data["category"])
    && FieldIs(r, d, "note", data["note"]) && FieldIs(r, d, "date", data["date"])
  }

  lemma AcceptedExpenseIsStored(r: Rules, split: bool, d: Data)
    requires ValidExpense(r, split, d).Some?
    ensures ExpenseStored(r, split, d, ValidExpense(r, split, d).value)
  {
    var people := UniqueTexts(r, d["split_between"].items).value;
    assert |TextValues(people)| == |people|;
  }

  lemma StoredExpenseIsAccepted(r: Rules, split: bool, d: Data, data: Data)
    requires ExpenseStored(r, split, d, data)
    ensures ValidExpense(r, split, d) == Some(data)
  {
    var people := UniqueTexts(r, d["split_between"].items).value;
    assert |TextValues(people)| == |people|;
    assert data == map["amount" := data["amount"], "category" := data["category"], "note" := data["note"],
      "date" := data["date"], "paid_by" := data["paid_by"], "split_between" := data["split_between"]];
  }

  /** An expense is accepted, and stored as `data`, exactly under these conditions. */
  lemma ExpenseMeans(r: Rules, split: bool, d: Data, data: Data)
    ensures ValidExpense(r, split, d) == Some(data) <==> ExpenseStored(r, split, d, data)
  {
    if ExpenseStored(r, split, d, data) { StoredExpenseIsAccepted(r, split, d, data); }
    if ValidExpense(r, split, d) == Some(data) { AcceptedExpenseIsStored(r, split, d); }
  }

  lemma {:induction false} AllTextsMean(r: Rules, values: seq<Value>)
    ensures AllTexts(r, values).Some? <==> AreTexts(r, values)
    ensures AllTexts(r, values).Some? ==> forall t :: t in AllTexts(r, values).value <==> FromValue(r, values, t)
    ensures AllTexts(r, values).Some? ==>
      var texts := AllTexts(r, values).value; forall i, j | 0 <= i < j < |texts| :: texts[i] != texts[j]
  {
    if values != [] {
      var front, last := values[..|values| - 1], values[|values| - 1];
      AllTextsMean(r, front);
      assert values == front + [last];
      assert last in values;
      if AllTexts(r, values).Some? {
        forall t ensures t in AllTexts(r, values).value <==> FromValue(r, values, t) {
          if FromValue(r, front, t) {
            var v :| v in front && IsText(r, v, 80, t);
            assert v in values;
          }
          if IsText(r, last, 80, t) { assert FromValue(r, values, t); }
          if FromValue(r, values, t) {
            var v :| v in values && IsText(r, v, 80, t);
            assert v in front ==> FromValue(r, front, t);
          }
        }
      }
    }
  }

  /** A legacy expense keeps four plain fields and the payer, and shares among the texts of its first
      twenty sharers, of which there must be one. */
  lemma LegacyExpenseMeans(r: Rules, d: Data, data: Data)
    requires ValidLegacyExpense(r, d) == Some(data)
    ensures data.Keys == {"amount", "description", "date", "paid_by", "split_between"}
    ensures data["paid_by"].Text? && IsText(r, Get(d, "paid_by"), 80, data["paid_by"].text)
    ensures Get(d, "split_between").List?
    ensures var items := Get(d, "split_between").items;
      AllTexts(r, if |items| <= 20 then items else items[..20]).Some?
      && data["split_between"] == List(TextValues(AllTexts(r, if |items| <= 20 then items else items[..20]).value))
      && data["split_between"] != List([])
    ensures r.field("amount", Get(d, "amount")) == Some(data["amount"])
    ensures r.field("description", Get(d, "description")) == Some(data["description"])
    ensures r.field("date", Get(d, "date")) == Some(data["date"])
  {
    var items := Get(d, "split_between").items;
    var people := AllTexts(r, if |items| <= 20 then items else items[..20]).value;
    assert |TextValues(people)| == |people|;
  }

  /** Which validator applies: that of the module's type for the record type, or the legacy ones. */
  lemma ValidatorsMean(app: App, r: Rules, moduleId: string, kind: string, d: Data)
    ensures app.Workspace? && ModuleOf(app.modules, moduleId).Some? ==>
      var m, valid := ModuleOf(app.modules, moduleId).value, Validated(app, r, moduleId, kind, d);
      && (!Takes(m, kind) ==> valid.None?)
      && (m.Expenses? && kind == "participant" ==> valid == ValidParticipant(r, m.split, d))
      && (m.Expenses? && kind == "expense" ==> valid == ValidExpense(r, m.split, d))
      && (m.OtherModule? && Takes(m, kind) ==> valid == r.other(kind, d))
      && (m.GuestList? && kind == "guest" ==>
            valid == match (CleanText(r, Get(d, "name"), 80), r.other("guest", d))
              case (Some(name), Some(rest)) => Some(rest["name" := Text(name)])
              case _ => None)
    ensures app.ExpenseSplitter? ==>
      var valid := Validated(app, r, moduleId, kind, d);
      && (kind == "participant" ==>
            valid == match CleanText(r, Get(d, "name"), 80)
              case Some(name) => Some(map["name" := Text(name)])
              case None => None)
      && (kind == "expense" ==> valid == ValidLegacyExpense(r, d))
      && (kind != "participant" && kind != "expense" ==> valid.None?)
  {
  }

  // ---------------------------------------------------------------- modules

  predicate Takes(m: ModuleType, kind: string) {
    match m
    case Expenses(_) => kind in {"participant", "expense"}
    case GuestList => kind == "guest"
    case OtherModule(own) => kind == own && kind != "participant" && kind != "expense" && kind != "guest"
  }

  predicate FirstNamed(modules: seq<Module>, id: string, i: nat) {
    i < |modules| && modules[i].id == id && forall j | 0 <= j < i :: modules[j].id != id
  }

  lemma {:induction false} ModuleOfFinds(modules: seq<Module>, id: string, i: nat)
    requires FirstNamed(modules, id, i)
    ensures ModuleOf(modules, id) == Some(modules[i].kind)
  {
    if i > 0 { ModuleOfFinds(modules[1..], id, i - 1); }
  }

  lemma {:induction false} NoModule(modules: seq<Module>, id: string)
    requires forall j | 0 <= j < |modules| :: modules[j].id != id
    ensures ModuleOf(modules, id).None?
  {
    if modules != [] { NoModule(modules[1..], id); }
  }

  predicate OnlyTaker(modules: seq<Module>, kind: string, i: nat) {
    && i < |modules| && Takes(modules[i].kind, kind)
    && forall j | 0 <= j < |modules| && Takes(modules[j].kind, kind) :: j == i
  }

  lemma {:induction false} NoTaker(modules: seq<Module>, kind: string)
    ensures Accepting(modules, kind) == [] <==> forall j | 0 <= j < |modules| :: !Takes(modules[j].kind, kind)
  {
    if modules != [] {
      NoTaker(modules[1..], kind);
      assert forall j | 0 < j < |modules| :: modules[j] == modules[1..][j - 1];
      if forall j | 0 <= j < |modules| :: !Takes(modules[j].kind, kind) {
        assert forall j | 0 <= j < |modules[1..]| :: modules[1..][j] == modules[j + 1];
      }
    }
  }

  lemma {:induction false} OneTaker(modules: seq<Module>, kind: string, i: nat)
    requires OnlyTaker(modules, kind, i)
    ensures Accepting(modules, kind) == [modules[i].id]
  {
    var rest := modules[1..];
    assert forall j | 0 <= j < |rest| :: rest[j] == modules[j + 1];
    if i == 0 {
      NoTaker(rest, kind);
    } else {
      OneTaker(rest, kind, i - 1);
    }
  }

  lemma {:induction false} TheTaker(modules: seq<Module>, kind: string) returns (i: nat)
    requires |Accepting(modules, kind)| == 1
    ensures OnlyTaker(modules, kind, i)
  {
    var rest := modules[1..];
    assert forall j | 0 < j < |modules| :: modules[j] == rest[j - 1];
    if Takes(modules[0].kind, kind) {
      NoTaker(rest, kind);
      i := 0;
    } else {
      var k := TheTaker(rest, kind);
      i := k + 1;
    }
  }

  /** A named module takes the record when it is the first of that name and takes that kind; without
      a name exactly one module must take it. */
  lemma ModulesMean(modules: seq<Module>, id: string, i: nat, kind: string)
    ensures FirstNamed(modules, id, i) ==>
      Resolved(Workspace(modules), Some(id), kind) == (if Takes(modules[i].kind, kind) then Some(id) else None)
    ensures (forall j | 0 <= j < |modules| :: modules[j].id != id) ==>
      Resolved(Workspace(modules), Some(id), kind) == None
    ensures Resolved(Workspace(modules), None, kind).Some? <==> exists j :: OnlyTaker(modules, kind, j)
    ensures OnlyTaker(modules, kind, i) ==> Resolved(Workspace(modules), None, kind) == Some(modules[i].id)
    ensures Resolved(ExpenseSplitter, None, kind) == Some("expenses")
    ensures Resolved(ExpenseSplitter, Some(id), kind) == (if id == "expenses" then Some(id) else None)
  {
    if FirstNamed(modules, id, i) { ModuleOfFinds(modules, id, i); }
    if forall j | 0 <= j < |modules| :: modules[j].id != id { NoModule(modules, id); }
    if |Accepting(modules, kind)| == 1 { var j := TheTaker(modules, kind); }
    if j :| OnlyTaker(modules, kind, j) { OneTaker(modules, kind, j); }
    if OnlyTaker(modules, kind, i) { OneTaker(modules, kind, i); }
  }

  /** Expenses are split in the legacy app, and in the modules that were set up so. */
  lemma SplitMeans(modules: seq<Module>, id: string, i: nat)
    ensures IsSplit(ExpenseSplitter, id) <==> id == "expenses"
    ensures FirstNamed(modules, id, i) ==> (IsSplit(Workspace(modules), id) <==> modules[i].kind == Expenses(true))
    ensures (forall j | 0 <= j < |modules| :: modules[j].id != id) ==> !IsSplit(Workspace(modules), id)
  {
    if FirstNamed(modules, id, i) { ModuleOfFinds(modules, id, i); }
    if forall j | 0 <= j < |modules| :: modules[j].id != id { NoModule(modules, id); }
  }

  lemma NamesMean(d: Data, name: string)
    ensures "name" in d && d["name"] == Text(name) ==> NameOf(d) == name
    ensures "name" in d && d["name"].Text? && NameOf(d) == name ==> d["name"] == Text(name)
  {
  }

  // ---------------------------------------------------------------- checks and changes

  /** Another participant, or guest, of the module has the name up to case. */
  predicate NameTaken(r: Rules, records: Records, exclude: Option<nat>, moduleId: string, kind: string, name: string) {
    exists id :: id in records && exclude != Some(id) && records[id].kind == kind && records[id].moduleId == moduleId
      && r.fold(NameOf(records[id].data)) == r.fold(name)
  }

  predicate HasParticipant(records: Records, moduleId: string, name: string) {
    exists id :: id in records && records[id].kind == "participant" && records[id].moduleId == moduleId
      && NameOf(records[id].data) == name
  }

  ghost predicate EveryoneIsParticipant(records: Records, record: Record) {
    forall name: string {:trigger HasParticipant(records, record.moduleId, name)} |
      Get(record.data, "paid_by") == Text(name)
      || (Get(record.data, "split_between").List? && Text(name) in Get(record.data, "split_between").items) ::
        HasParticipant(records, record.moduleId, name)
  }

  /** A record passes exactly when its module is found, its own validator accepts it, its name is
      free and, for a split expense, its people are participants; it is stored as validated. */
  lemma CheckedExactly(app: App, r: Rules, records: Records, exclude: Option<nat>, moduleId: Option<string>,
        kind: string, d: Data, record: Record)
    ensures Checked(app, r, records, exclude, moduleId, kind, d) == Some(record) <==>
      && Resolved(app, moduleId, kind) == Some(record.moduleId) && record.kind == kind
      && Validated(app, r, record.moduleId, kind, d) == Some(record.data)
      && (kind == "participant" || kind == "guest" ==>
            !NameTaken(r, records, exclude, record.moduleId, kind, NameOf(record.data)))
      && (kind == "expense" && IsSplit(app, record.moduleId) ==> EveryoneIsParticipant(records, record))
  {
    ClashMeansTaken(r, records, exclude, record);
    PresentMeansParticipants(records, record);
  }

  lemma ClashMeansTaken(r: Rules, records: Records, exclude: Option<nat>, record: Record)
    ensures Clashes(r, records, exclude, record) <==>
      (record.kind == "participant" || record.kind == "guest")
      && NameTaken(r, records, exclude, record.moduleId, record.kind, NameOf(record.data))
  {
    if NameTaken(r, records, exclude, record.moduleId, record.kind, NameOf(record.data)) && IsNamed(record.kind) {
      var id :| id in records && exclude != Some(id) && records[id].kind == record.kind
        && records[id].moduleId == record.moduleId && r.fold(NameOf(records[id].data)) == r.fold(NameOf(record.data));
      assert Clash(r, records[id], record);
    }
  }

  lemma PresentMeansParticipants(records: Records, record: Record)
    ensures EveryonePresent(records, record) <==> EveryoneIsParticipant(records, record)
  {
    forall name ensures IsPresent(records, record.moduleId, name) <==> HasParticipant(records, record.moduleId, name) {
      if id :| id in records && IsParticipant(records[id], record.moduleId, name) {
        assert HasParticipant(records, record.moduleId, name);
      }
      if HasParticipant(records, record.moduleId, name) {
        var id :| id in records && records[id].kind == "participant" && records[id].moduleId == record.moduleId
          && NameOf(records[id].data) == name;
        assert IsParticipant(records[id], record.moduleId, name);
      }
    }
    forall name ensures name in People(record.data) <==> Involves(record.data, name) {
      PeopleAreInvolved(record.data, name);
    }
    if EveryonePresent(records, record) {
      forall name: string | Involves(record.data, name) ensures HasParticipant(records, record.moduleId, name) {
        assert name in People(record.data);
        var i :| 0 <= i < |People(record.data)| && People(record.data)[i] == name;
      }
    } else {
      var i :| 0 <= i < |People(record.data)| && !IsPresent(records, record.moduleId, People(record.data)[i]);
      assert Involves(record.data, People(record.data)[i]);
    }
  }

  /** An expense of the participant's module names it as payer or among its sharers. */
  predicate NamedInAnExpense(records: Records, participant: Record) {
    exists id :: id in records && records[id].kind == "expense" && records[id].moduleId == participant.moduleId
      && var name, d := NameOf(participant.data), records[id].data;
         Get(d, "paid_by") == Text(name)
         || (Get(d, "split_between").List? && Text(name) in Get(d, "split_between").items)
  }

  lemma ReferencedMeans(records: Records, participant: Record)
    ensures Referenced(records, participant) <==> NamedInAnExpense(records, participant)
  {
  }

  /** Creating stores the checked record under its id while there is room; updating merges the new
      fields over the stored ones, checks the result and keeps module and kind; deleting removes
      the record. A participant that an expense names is neither renamed nor deleted. */
  lemma ChangesMean(app: App, r: Rules, records: Records, moduleId: Option<string>, kind: string, d: Data, id: nat)
    ensures Applied(app, r, records, Create(moduleId, kind, d, id)) ==
      var checked := Checked(app, r, records, None, moduleId, kind, d);
      if |records| < 10_000 && id !in records && checked.Some? then Some(records[id := checked.value]) else None
    ensures id !in records ==> Applied(app, r, records, Update(id, d)).None?
    ensures id !in records ==> Applied(app, r, records, Delete(id)).None?
    ensures id in records ==>
      Applied(app, r, records, Update(id, d)) ==
        var before := records[id];
        var checked := Checked(app, r, records, Some(id), Some(before.moduleId), before.kind, before.data + d);
        if app.Workspace? && checked.Some?
           && !(before.kind == "participant" && Get(checked.value.data, "name") != Get(before.data, "name")
                && NamedInAnExpense(records, before))
        then Some(records[id := Record(before.moduleId, before.kind, checked.value.data)]) else None
    ensures id in records ==>
      Applied(app, r, records, Delete(id)) ==
        if records[id].kind == "participant" && NamedInAnExpense(records, records[id]) then None
        else Some(map k | k in records && k != id :: records[k])
  {
    if id in records {
      ReferencedMeans(records, records[id]);
      assert records - {id} == map k | k in records && k != id :: records[k];
    }
  }

  /** A refused change changes nothing. */
  lemma StepsMean(app: App, r: Rules, records: Records, c: Change)
    ensures Applied(app, r, records, c).Some? ==> Step(app, r, records, c) == Applied(app, r, records, c).value
    ensures Applied(app, r, records, c).None? ==> Step(app, r, records, c) == records
  {
  }
}
