/**
 * The session: the ledger's three collections and the two UI flags, updated
 * in place by the page's buttons and forms.
 */
module App {
  import opened Wrappers
  import opened Ledger
  import opened Metrics
  import opened Store

  /** The categories the budget page lists, in its order. */
  const BudgetCategories: seq<string> :=
    ["Food", "Transport", "Housing", "Entertainment", "Utilities", "Healthcare", "Shopping", "Other"]

  /** `m` after `m[keys[i]] = vals[i]` for each `i` in order. */
  function Overwrite<K, V>(m: map<K, V>, keys: seq<K>, vals: seq<V>): map<K, V>
    requires |keys| == |vals|
    decreases |keys|
  {
    if keys == [] then m
    else Overwrite(m, keys[..|keys| - 1], vals[..|vals| - 1])[keys[|keys| - 1] := vals[|vals| - 1]]
  }

  /** Writing one more key of the list extends the overwrite of the prefix by that key. */
  lemma OverwriteStep<K, V>(m: map<K, V>, keys: seq<K>, vals: seq<V>, i: int)
    requires |keys| == |vals|
    requires 0 <= i < |keys|
    ensures Overwrite(m, keys[..i + 1], vals[..i + 1]) == Overwrite(m, keys[..i], vals[..i])[keys[i] := vals[i]]
  {
    assert keys[..i + 1][..i] == keys[..i];
    assert vals[..i + 1][..i] == vals[..i];
  }

  /** The written keys are added to the map's keys, and no other key appears. */
  lemma {:induction false} OverwriteDomain<K, V>(m: map<K, V>, keys: seq<K>, vals: seq<V>)
    requires |keys| == |vals|
    ensures Overwrite(m, keys, vals).Keys == m.Keys + set k | k in keys
    decreases |keys|
  {
    if keys != [] {
      var n := |keys| - 1;
      OverwriteDomain(m, keys[..n], vals[..n]);
      assert (set k | k in keys) == (set k | k in keys[..n]) + {keys[n]} by {
        assert forall k | k in keys :: k in keys[..n] || k == keys[n];
        assert forall k | k in keys[..n] :: k in keys;
      }
    }
  }

  /** A key that is not written keeps its old entry, or stays absent. */
  lemma {:induction false} OverwriteKeepsOthers<K, V>(m: map<K, V>, keys: seq<K>, vals: seq<V>, k: K)
    requires |keys| == |vals|
    requires k !in keys
    ensures k in Overwrite(m, keys, vals) <==> k in m
    ensures k in m ==> Overwrite(m, keys, vals)[k] == m[k]
    decreases |keys|
  {
    if keys != [] {
      OverwriteKeepsOthers(m, keys[..|keys| - 1], vals[..|vals| - 1], k);
    }
  }

  /** With distinct keys, each written key holds the value written for it. */
  lemma {:induction false} OverwriteSetsEach<K, V>(m: map<K, V>, keys: seq<K>, vals: seq<V>, i: int)
    requires |keys| == |vals|
    requires forall a, b :: 0 <= a < b < |keys| ==> keys[a] != keys[b]
    requires 0 <= i < |keys|
    ensures keys[i] in Overwrite(m, keys, vals) && Overwrite(m, keys, vals)[keys[i]] == vals[i]
    decreases |keys|
  {
    var n := |keys| - 1;
    if i < n {
      OverwriteSetsEach(m, keys[..n], vals[..n], i);
    }
  }

  /** The bars the budget page shows, one per listed category, each from its entered budget and spending. */
  function BudgetBars(ts: seq<Transaction>, categories: seq<string>, entered: seq<real>): (r: seq<BudgetBar>)
    requires |categories| == |entered|
    ensures |r| == |categories|
    ensures forall j | 0 <= j < |r| :: r[j] == BudgetStatus(entered[j], Spending(ts, categories[j]))
    decreases |categories|
  {
    if categories == [] then []
    else
      var n := |categories| - 1;
      BudgetBars(ts, categories[..n], entered[..n]) + [BudgetStatus(entered[n], Spending(ts, categories[n]))]
  }

  /** One more category of the list adds its bar at the end. */
  lemma BudgetBarsStep(ts: seq<Transaction>, categories: seq<string>, entered: seq<real>, i: int)
    requires |categories| == |entered|
    requires 0 <= i < |categories|
    ensures BudgetBars(ts, categories[..i + 1], entered[..i + 1])
            == BudgetBars(ts, categories[..i], entered[..i]) + [BudgetStatus(entered[i], Spending(ts, categories[i]))]
  {
    assert categories[..i + 1][..i] == categories[..i];
    assert entered[..i + 1][..i] == entered[..i];
  }

  /** Which row, if any, is being edited or is awaiting delete confirmation. */
  datatype UiMode = Viewing | Editing(id: int) | ConfirmingDelete(id: int)

  class SessionState {
    var transactions: seq<Transaction>
    var budgets: map<string, real>
    var goals: seq<Goal>
    var editingId: Option<int>
    var deleteConfirmId: Option<int>

    /** At most one of the two flags is set: one UI mode at a time. */
    ghost predicate Valid()
      reads this
    {
      editingId.None? || deleteConfirmId.None?
    }

    /** The UI mode the two flags encode: each flag corresponds to exactly one mode. */
    function Mode(): (m: UiMode)
      reads this
      requires Valid()
      ensures m.Editing? <==> editingId.Some?
      ensures m.ConfirmingDelete? <==> deleteConfirmId.Some?
      ensures m == Viewing <==> editingId.None? && deleteConfirmId.None?
      ensures m.Editing? ==> m.id == editingId.value
      ensures m.ConfirmingDelete? ==> m.id == deleteConfirmId.value
    {
      if editingId.Some? then Editing(editingId.value)
      else if deleteConfirmId.Some? then ConfirmingDelete(deleteConfirmId.value)
      else Viewing
    }

    function Snapshot(): LedgerState
      reads this
    {
      LedgerState(transactions, budgets, goals)
    }

    /** Session start: the collections from the data file (with key defaults), both flags unset. */
    constructor Start(file: Option<Document>)
      ensures Valid() && Mode() == Viewing
      ensures Snapshot() == StateOf(LoadData(file))
    {
      var s := StateOf(LoadData(file));
      transactions, budgets, goals := s.transactions, s.budgets, s.goals;
      editingId, deleteConfirmId := None, None;
    }

    /** Submitting the add form: a new record with the next id is appended. */
    method AddTransaction(date: Date, category: string, amount: real, kind: Kind, description: string)
      returns (id: int)
      requires Valid()
      modifies this
      ensures Valid()
      ensures id == NextId(old(transactions)) && id !in Ids(old(transactions))
      ensures transactions == old(transactions) + [Transaction(id, date, category, amount, kind, description)]
      ensures budgets == old(budgets) && goals == old(goals)
      ensures editingId == old(editingId) && deleteConfirmId == old(deleteConfirmId)
      ensures UniqueIds(old(transactions)) ==> UniqueIds(transactions)
      ensures PositiveAmounts(old(transactions)) && amount > 0.0 ==> PositiveAmounts(transactions)
    {
      id := NextId(transactions);
      var t := Transaction(id, date, category, amount, kind, description);
      if UniqueIds(transactions) {
        AppendFreshKeepsUnique(transactions, t);
      }
      transactions := transactions + [t];
    }

    /** "Yes, Delete": every record with the id goes, and the confirmation flag is cleared. */
    method DeleteTransaction(id: int)
      requires Valid()
      modifies this
      ensures Valid() && deleteConfirmId == None && editingId == old(editingId)
      ensures transactions == RemoveIds(old(transactions), {id})
      ensures budgets == old(budgets) && goals == old(goals)
      ensures UniqueIds(old(transactions)) ==> UniqueIds(transactions)
      ensures id !in Ids(old(transactions)) ==> transactions == old(transactions)
    {
      var before := transactions;
      if UniqueIds(before) {
        RemoveKeepsUnique(before, {id});
      }
      if id !in Ids(before) {
        RemoveAbsentIsNoOp(before, {id});
      }
      transactions := RemoveIds(before, {id});
      deleteConfirmId := None;
    }

    /**
     * "Save Changes": the first record with the id has the patch merged in
     * place, the scan stops there, and the editing flag is cleared.
     */
    method UpdateTransaction(id: int, patch: Patch)
      requires Valid()
      modifies this
      ensures Valid() && editingId == None && deleteConfirmId == old(deleteConfirmId)
      ensures transactions == UpdateFirst(old(transactions), id, patch)
      ensures budgets == old(budgets) && goals == old(goals)
      ensures UniqueIds(old(transactions)) ==> UniqueIds(transactions)
    {
      if UniqueIds(transactions) {
        UpdateKeepsUnique(transactions, id, patch);
      }
      PatchFirst(id, patch);
      editingId := None;
    }

    /** `update_transaction`'s loop: merge the patch into the first record with the id, then stop. */
    method PatchFirst(id: int, patch: Patch)
      modifies this`transactions
      ensures transactions == UpdateFirst(old(transactions), id, patch)
    {
      ghost var before := transactions;
      var i := 0;
      while i < |transactions|
        modifies this`transactions
        invariant 0 <= i <= |transactions|
        invariant transactions == before
        invariant forall j :: 0 <= j < i ==> transactions[j].id != id
      {
        if transactions[i].id == id {
          UpdateFirstAt(transactions, id, patch, i);
          transactions := transactions[i := Apply(transactions[i], patch)];
          break;
        }
        i := i + 1;
      }
      if i == |before| {
        NoIdBeforeEnd(before, id);
        UpdateAbsentIsNoOp(before, id, patch);
      }
    }

    /** "Confirm Bulk Delete": every selected id goes; the rest keep their order. */
    method BulkDelete(selected: seq<int>)
      requires Valid()
      modifies this
      ensures Valid() && editingId == old(editingId) && deleteConfirmId == old(deleteConfirmId)
      ensures transactions == RemoveIds(old(transactions), set x | x in selected)
      ensures budgets == old(budgets) && goals == old(goals)
      ensures UniqueIds(old(transactions)) ==> UniqueIds(transactions)
    {
      var ids := set x | x in selected;
      if UniqueIds(transactions) {
        RemoveKeepsUnique(transactions, ids);
      }
      transactions := RemoveIds(transactions, ids);
    }

    /** "DELETE EVERYTHING": the transaction list is emptied; budgets and goals stay. */
    method DeleteAll()
      requires Valid()
      modifies this
      ensures Valid() && editingId == old(editingId) && deleteConfirmId == old(deleteConfirmId)
      ensures transactions == [] && budgets == old(budgets) && goals == old(goals)
    {
      transactions := [];
    }

    /** "Clear All Data": all three collections are emptied. */
    method ClearAllData()
      requires Valid()
      modifies this
      ensures Valid() && editingId == old(editingId) && deleteConfirmId == old(deleteConfirmId)
      ensures Snapshot() == LedgerState([], map[], [])
    {
      transactions, budgets, goals := [], map[], [];
    }

    /** Restoring an uploaded backup: each collection from the document, missing keys empty. */
    method Restore(doc: Document)
      requires Valid()
      modifies this
      ensures Valid() && editingId == old(editingId) && deleteConfirmId == old(deleteConfirmId)
      ensures Snapshot() == StateOf(doc)
    {
      var s := StateOf(doc);
      transactions, budgets, goals := s.transactions, s.budgets, s.goals;
    }

    /**
     * One pass over the budget page: every listed category's budget is
     * overwritten with the value entered for it, and its bar is computed
     * from that budget and the category's expense total.
     */
    method ReviewBudgets(entered: seq<real>) returns (bars: seq<BudgetBar>)
      requires Valid()
      requires |entered| == |BudgetCategories|
      modifies this
      ensures Valid() && editingId == old(editingId) && deleteConfirmId == old(deleteConfirmId)
      ensures budgets == Overwrite(old(budgets), BudgetCategories, entered)
      ensures transactions == old(transactions) && goals == old(goals)
      ensures bars == BudgetBars(transactions, BudgetCategories, entered)
    {
      bars := [];
      var i := 0;
      while i < |BudgetCategories|
        modifies this`budgets
        invariant 0 <= i <= |BudgetCategories|
        invariant budgets == Overwrite(old(budgets), BudgetCategories[..i], entered[..i])
        invariant bars == BudgetBars(transactions, BudgetCategories[..i], entered[..i])
      {
        OverwriteStep(old(budgets), BudgetCategories, entered, i);
        BudgetBarsStep(transactions, BudgetCategories, entered, i);
        var bar := ReviewBudget(BudgetCategories[i], entered[i]);
        bars := bars + [bar];
        i := i + 1;
      }
      assert BudgetCategories[..i] == BudgetCategories && entered[..i] == entered;
    }

    /** One category of the budget page: store the value entered and compute its bar. */
    method ReviewBudget(category: string, value: real) returns (bar: BudgetBar)
      modifies this`budgets
      ensures budgets == old(budgets)[category := value]
      ensures bar == BudgetStatus(value, Spending(transactions, category))
    {
      budgets := budgets[category := value];
      bar := BudgetStatus(value, Spending(transactions, category));
    }

    /** "Add Goal": a new goal with nothing saved yet. */
    method AddGoal(name: string, target: real, deadline: Date, today: Date)
      requires Valid()
      modifies this
      ensures Valid() && editingId == old(editingId) && deleteConfirmId == old(deleteConfirmId)
      ensures goals == old(goals) + [Goal(name, target, 0.0, deadline, today)]
      ensures transactions == old(transactions) && budgets == old(budgets)
    {
      goals := goals + [Goal(name, target, 0.0, deadline, today)];
    }

    /** The goal's add button: only a positive amount is added, and only to that goal's `current`. */
    method AddToGoal(i: nat, amount: real)
      requires Valid()
      requires i < |goals|
      modifies this
      ensures Valid() && editingId == old(editingId) && deleteConfirmId == old(deleteConfirmId)
      ensures |goals| == |old(goals)|
      ensures amount > 0.0 ==> goals == old(goals)[i := old(goals)[i].(current := old(goals)[i].current + amount)]
      ensures amount <= 0.0 ==> goals == old(goals)
      ensures transactions == old(transactions) && budgets == old(budgets)
    {
      if amount > 0.0 {
        goals := goals[i := goals[i].(current := goals[i].current + amount)];
      }
    }

    /** "Edit": this row enters edit mode and any pending delete confirmation is dropped. */
    method StartEdit(id: int)
      requires Valid()
      modifies this
      ensures Valid() && Mode() == Editing(id)
      ensures Snapshot() == old(Snapshot())
    {
      editingId := Some(id);
      deleteConfirmId := None;
    }

    /** "Delete": this row asks for confirmation and any edit in progress is dropped. */
    method StartDelete(id: int)
      requires Valid()
      modifies this
      ensures Valid() && Mode() == ConfirmingDelete(id)
      ensures Snapshot() == old(Snapshot())
    {
      deleteConfirmId := Some(id);
      editingId := None;
    }

    /** "Cancel" on the edit form. */
    method CancelEdit()
      requires Valid()
      modifies this
      ensures Valid() && editingId == None && deleteConfirmId == old(deleteConfirmId)
      ensures old(Mode()).Editing? ==> Mode() == Viewing
      ensures Snapshot() == old(Snapshot())
    {
      editingId := None;
    }

    /** "Cancel" on the delete confirmation. */
    method CancelDelete()
      requires Valid()
      modifies this
      ensures Valid() && deleteConfirmId == None && editingId == old(editingId)
      ensures old(Mode()).ConfirmingDelete? ==> Mode() == Viewing
      ensures Snapshot() == old(Snapshot())
    {
      deleteConfirmId := None;
    }
  }

  /**
   * A client: from an empty start, ids are 1, 2, 3; deleting 3 and adding
   * again hands out 3 once more; ids stay unique throughout, and the first
   * expense of 20.00 gives a balance of -20.00.
   */
  method EmptyStartScenario()
  {
    var s := new SessionState.Start(None);
    assert s.transactions == [];
    var a := s.AddTransaction(20260105, "Food", 20.0, Expense, "lunch");
    assert a == 1;
    assert [] + [s.transactions[0]] == s.transactions;
    AddMovesOneTotal([], s.transactions[0], Expense);
    assert Balance(s.transactions) == -20.0;
    var b := s.AddTransaction(20260106, "Salary", 1000.0, Income, "pay");
    var c := s.AddTransaction(20260107, "Transport", 5.0, Expense, "bus");
    assert b == 2 && c == 3;
    s.StartDelete(c);
    s.DeleteTransaction(c);
    assert s.Mode() == Viewing;
    var d := s.AddTransaction(20260108, "Other", 1.0, Expense, "stamp");
    assert d == 3;
    assert UniqueIds(s.transactions);
  }
}
