/**
 * The removal coordinator and the command handler, stated on values: what one
 * department budget looks like after its selected items are removed, what a whole
 * invocation does to the department budgets, and which message it shows.
 */
module Removal {
  import opened Base
  import opened Text
  import opened BudgetCategory
  import opened OrphanScan

  /** A budget line item; only its presence under a building-type key matters here. */
  datatype LineItem = LineItem(handle: nat)

  /**
   * One department budget: the locally funded items of each purpose, in list order,
   * and the line items keyed by building type.
   */
  datatype Budget = Budget(locallyFunded: map<uint32, seq<Item>>, lineItems: map<uint32, LineItem>)

  /** The locally funded items of `purpose`; none when the department has no list for it. */
  function LocallyFunded(b: Budget, purpose: uint32): seq<Item>
  {
    if purpose in b.locallyFunded then b.locallyFunded[purpose] else []
  }

  /** What the scanner yields for one department and purpose. */
  function ItemsToRemove(b: Budget, purpose: uint32, clearAll: bool): seq<Item>
  {
    Orphans(LocallyFunded(b, purpose), clearAll)
  }

  /** The items of `items` that are not in `gone`, in order. */
  function Excluding(items: seq<Item>, gone: seq<Item>): seq<Item>
  {
    if items == [] then []
    else (if items[0] in gone then [] else [items[0]]) + Excluding(items[1..], gone)
  }

  /** The building types of `xs`. */
  function TypesOf(xs: seq<Item>): set<uint32>
  {
    set x | x in xs :: x.buildingType
  }

  /** The host's `RemoveLocallyFundedObject(x, purpose)`: `x` leaves that purpose's list. */
  function Unlinked(b: Budget, purpose: uint32, x: Item): Budget
  {
    if purpose in b.locallyFunded
    then Budget(b.locallyFunded[purpose := Excluding(b.locallyFunded[purpose], [x])], b.lineItems)
    else b
  }

  /** The host's `RemoveLineItem(buildingType)`: removing a key that is absent is a no-op. */
  function WithoutLineItem(b: Budget, buildingType: uint32): Budget
  {
    Budget(b.locallyFunded, b.lineItems - {buildingType})
  }

  /** The budget after every item of `gone` was unlinked from `purpose` and its line item removed. */
  function Pruned(b: Budget, purpose: uint32, gone: seq<Item>): Budget
  {
    Budget(
      if purpose in b.locallyFunded
      then b.locallyFunded[purpose := Excluding(b.locallyFunded[purpose], gone)]
      else b.locallyFunded,
      b.lineItems - TypesOf(gone))
  }

  /** One (department, purpose) pair processed: its scan's items removed from both structures. */
  function Process(b: Budget, purpose: uint32, clearAll: bool): Budget
  {
    Pruned(b, purpose, ItemsToRemove(b, purpose, clearAll))
  }

  /**
   * The pairs processed in order against the department budgets; a pair whose
   * department has no budget is skipped. The second component collects the building
   * types of everything removed (the source's `orphanedBuildings` in a targeted run).
   */
  function Run(budgets: map<uint32, Budget>, targets: seq<Target>, clearAll: bool): (map<uint32, Budget>, set<uint32>)
    decreases |targets|
  {
    if targets == [] then (budgets, {})
    else
      var prior := Run(budgets, targets[..|targets| - 1], clearAll);
      var t := targets[|targets| - 1];
      if t.department in prior.0 then
        var b := prior.0[t.department];
        (prior.0[t.department := Process(b, t.purpose, clearAll)],
         prior.1 + TypesOf(ItemsToRemove(b, t.purpose, clearAll)))
      else prior
  }

  /** The dialog messages the handler can show. */
  datatype Message =
    | Usage
    | UnknownCategory(category: string)
    | Cleared(category: string)
    | NoneFound
    | Removed(count: nat)

  /** Decimal digits of `n`. */
  function Decimal(n: nat): string
    decreases n
  {
    (if n < 10 then "" else Decimal(n / 10)) + [(48 + n % 10) as char]
  }

  /** The number a string of decimal digits denotes, most significant digit first. */
  function DigitsValue(s: string): int
    decreases |s|
  {
    if s == [] then 0 else DigitsValue(s[..|s| - 1]) * 10 + (s[|s| - 1] as int - 48)
  }

  /** `Decimal(n)` is the canonical `%u` text of `n`: digits only, no leading zero, denoting `n`. */
  lemma {:induction false} DecimalIsCanonical(n: nat)
    ensures |Decimal(n)| >= 1 && (|Decimal(n)| > 1 ==> Decimal(n)[0] != '0')
    ensures forall i :: 0 <= i < |Decimal(n)| ==> '0' <= Decimal(n)[i] <= '9'
    ensures DigitsValue(Decimal(n)) == n
    decreases n
  {
    var d := Decimal(n);
    if n < 10 {
      assert d[..0] == "";
    } else {
      var h := Decimal(n / 10);
      DecimalIsCanonical(n / 10);
      assert d == h + [(48 + n % 10) as char];
      assert d[..|d| - 1] == h;
      assert d[0] == h[0];
      if |h| == 1 {
        assert h[..0] == "";
        assert DigitsValue(h) == h[0] as int - 48;
      }
    }
  }

  /** The text of each message. */
  function MessageText(m: Message): string
  {
    match m
    case Usage =>
      "Usage: RemovePhantomBudgetItems <category> [all]\n"
      + "<category>: One of Fire, Police, Jail, Power, Education or Health.\n"
      + "[all] A non-default option that clears the entire budget category, instead of only plugin(s) that no longer exist."
    case UnknownCategory(category) => "Unknown Budget Category: " + category
    case Cleared(category) => "Cleared the " + category + " budget category."
    case NoneFound => "No orphaned budget items found."
    case Removed(count) => "Removed " + Decimal(count) + " orphaned budget item(s)."
  }

  /** The message after a run: fixed in a clear-all run, otherwise by the number of distinct types removed. */
  function Report(category: string, clearAll: bool, removedTypes: set<uint32>): Message
  {
    if clearAll then Cleared(category)
    else if removedTypes == {} then NoneFound
    else Removed(|removedTypes|)
  }

  /** What one invocation shows (`None`: no dialog) and the department budgets afterwards. */
  datatype Outcome = Outcome(shown: Option<Message>, budgets: map<uint32, Budget>)

  const CheatId: uint32 := 0x7630FE7F
  const CheatName := "RemovePhantomBudgetItems"

  /** The `all` flag: exactly three arguments, the third equal to "all" ignoring case. */
  predicate ClearAllRequested(arguments: seq<string>)
  {
    |arguments| == 3 && EqualsIgnoreCase(arguments[2], "all")
  }

  /** The handler on already split arguments; `hasSimulator` says whether a budget simulator is held. */
  function Dispatch(arguments: seq<string>, hasSimulator: bool, budgets: map<uint32, Budget>): Outcome
  {
    if |arguments| != 2 && |arguments| != 3 then Outcome(Some(Usage), budgets)
    else
      var category := arguments[1];
      var clearAll := ClearAllRequested(arguments);
      var targets := Resolve(category);
      if targets == [] then Outcome(Some(UnknownCategory(category)), budgets)
      else if !hasSimulator then Outcome(None, budgets)
      else
        var after := Run(budgets, targets, clearAll);
        Outcome(Some(Report(category, clearAll, after.1)), after.0)
  }

  /** `ProcessCheatCodes` on values: other cheats are ignored; the cheat text is split on spaces. */
  function Invoke(cheatId: uint32, cheat: string, hasSimulator: bool, budgets: map<uint32, Budget>): Outcome
  {
    if cheatId != CheatId then Outcome(None, budgets)
    else Dispatch(Split(cheat, ' '), hasSimulator, budgets)
  }

  // ---------------------------------------------------------------------------
  // One pair: exactly the selected items and their line items go, nothing else.

  /** The building types of the items the rule selects in `items`. */
  function SelectedTypesIn(items: seq<Item>, clearAll: bool): set<uint32>
  {
    set x | x in items && Selected(x, clearAll) :: x.buildingType
  }

  lemma TypesOfOrphans(items: seq<Item>, clearAll: bool)
    ensures TypesOf(Orphans(items, clearAll)) == SelectedTypesIn(items, clearAll)
  {
    forall x ensures x in Orphans(items, clearAll) <==> x in items && Selected(x, clearAll) {
      OrphansMembership(items, clearAll, x);
    }
  }

  lemma {:induction false} ExcludingSelected(items: seq<Item>, gone: seq<Item>, clearAll: bool)
    requires forall x :: x in items ==> (x in gone <==> Selected(x, clearAll))
    ensures Excluding(items, gone) == Keep(items, clearAll)
  {
    if items != [] {
      ExcludingSelected(items[1..], gone, clearAll);
    }
  }

  lemma {:induction false} ExcludingNothing(items: seq<Item>)
    ensures Excluding(items, []) == items
  {
    if items != [] {
      ExcludingNothing(items[1..]);
      assert items == [items[0]] + items[1..];
    }
  }

  /** Removing nothing leaves the budget as it was. */
  lemma PrunedNothing(b: Budget, purpose: uint32)
    ensures Pruned(b, purpose, []) == b
  {
    assert TypesOf([]) == {};
    if purpose in b.locallyFunded {
      ExcludingNothing(b.locallyFunded[purpose]);
      assert b.locallyFunded[purpose := b.locallyFunded[purpose]] == b.locallyFunded;
    }
  }

  /** Removing one more item extends the removals so far by that item. */
  lemma {:induction false} ExcludingSnoc(items: seq<Item>, gone: seq<Item>, x: Item)
    ensures Excluding(Excluding(items, gone), [x]) == Excluding(items, gone + [x])
  {
    if items != [] {
      ExcludingSnoc(items[1..], gone, x);
      var rest := Excluding(items[1..], gone);
      if items[0] in gone {
        assert Excluding(items, gone) == rest;
      } else {
        assert Excluding(items, gone) == [items[0]] + rest;
        assert ([items[0]] + rest)[1..] == rest;
      }
    }
  }

  /** The host's two removals for item `x` carry `Pruned` one item further. */
  lemma PrunedStep(b: Budget, purpose: uint32, gone: seq<Item>, x: Item)
    ensures WithoutLineItem(Unlinked(Pruned(b, purpose, gone), purpose, x), x.buildingType) == Pruned(b, purpose, gone + [x])
  {
    if purpose in b.locallyFunded {
      ExcludingSnoc(b.locallyFunded[purpose], gone, x);
    }
    assert TypesOf(gone + [x]) == TypesOf(gone) + {x.buildingType};
  }

  /**
   * Processing a pair leaves exactly the unselected items in its list, removes exactly
   * the line items of the selected items' building types, and changes nothing else.
   */
  lemma ProcessRemovesExactlySelected(b: Budget, purpose: uint32, clearAll: bool)
    ensures Process(b, purpose, clearAll) == Budget(
      if purpose in b.locallyFunded
      then b.locallyFunded[purpose := Keep(b.locallyFunded[purpose], clearAll)]
      else b.locallyFunded,
      b.lineItems - SelectedTypesIn(LocallyFunded(b, purpose), clearAll))
  {
    var items := LocallyFunded(b, purpose);
    TypesOfOrphans(items, clearAll);
    if purpose in b.locallyFunded {
      forall x | x in items ensures x in Orphans(items, clearAll) <==> Selected(x, clearAll) {
        OrphansMembership(items, clearAll, x);
      }
      ExcludingSelected(items, Orphans(items, clearAll), clearAll);
    }
  }

  /** A pair already processed yields nothing on a second scan. */
  lemma ProcessIsIdempotent(b: Budget, purpose: uint32, clearAll: bool)
    ensures ItemsToRemove(Process(b, purpose, clearAll), purpose, clearAll) == []
    ensures Process(Process(b, purpose, clearAll), purpose, clearAll) == Process(b, purpose, clearAll)
  {
    ProcessRemovesExactlySelected(b, purpose, clearAll);
    var b1 := Process(b, purpose, clearAll);
    if purpose in b.locallyFunded {
      RescanFindsNothing(b.locallyFunded[purpose], clearAll);
      assert LocallyFunded(b1, purpose) == Keep(b.locallyFunded[purpose], clearAll);
    }
    assert ItemsToRemove(b1, purpose, clearAll) == [];
    assert TypesOf([]) == {};
    if purpose in b1.locallyFunded {
      ExcludingNothing(b1.locallyFunded[purpose]);
      assert b1.locallyFunded[purpose := b1.locallyFunded[purpose]] == b1.locallyFunded;
    }
  }

  // ---------------------------------------------------------------------------
  // A whole invocation.

  predicate DistinctDepartments(targets: seq<Target>)
  {
    forall i, j :: 0 <= i < j < |targets| ==> targets[i].department != targets[j].department
  }

  function DepartmentsOf(targets: seq<Target>): set<uint32>
  {
    set i | 0 <= i < |targets| :: targets[i].department
  }

  /** The building types of every selected item, across all pairs whose department has a budget. */
  function SelectedTypes(budgets: map<uint32, Budget>, targets: seq<Target>, clearAll: bool): set<uint32>
  {
    set i, x | 0 <= i < |targets| && targets[i].department in budgets
                && x in LocallyFunded(budgets[targets[i].department], targets[i].purpose)
                && Selected(x, clearAll)
      :: x.buildingType
  }

  lemma {:induction false} RunKeys(budgets: map<uint32, Budget>, targets: seq<Target>, clearAll: bool)
    ensures Run(budgets, targets, clearAll).0.Keys == budgets.Keys
    decreases |targets|
  {
    if targets != [] {
      RunKeys(budgets, targets[..|targets| - 1], clearAll);
    }
  }

  lemma DepartmentsOfSnoc(targets: seq<Target>)
    requires targets != []
    ensures DepartmentsOf(targets) == DepartmentsOf(targets[..|targets| - 1]) + {targets[|targets| - 1].department}
  {
    var n := |targets| - 1;
    var prefix := targets[..n];
    forall d ensures d in DepartmentsOf(targets) <==> d in DepartmentsOf(prefix) + {targets[n].department} {
      if d in DepartmentsOf(targets) {
        var i :| 0 <= i < |targets| && targets[i].department == d;
        if i < n { assert prefix[i].department == d; }
      }
      if d in DepartmentsOf(prefix) {
        var i :| 0 <= i < n && prefix[i].department == d;
        assert targets[i].department == d;
      }
    }
  }

  lemma LastDepartmentIsNew(targets: seq<Target>)
    requires targets != [] && DistinctDepartments(targets)
    ensures targets[|targets| - 1].department !in DepartmentsOf(targets[..|targets| - 1])
  {
    var n := |targets| - 1;
    assert forall j :: 0 <= j < n ==> targets[..n][j] == targets[j];
  }

  /** The selected types of a list of pairs: those of all but the last pair, plus the last pair's. */
  lemma SelectedTypesSnoc(budgets: map<uint32, Budget>, targets: seq<Target>, clearAll: bool)
    requires targets != []
    ensures var t := targets[|targets| - 1];
      SelectedTypes(budgets, targets, clearAll)
        == SelectedTypes(budgets, targets[..|targets| - 1], clearAll)
           + (if t.department in budgets then SelectedTypesIn(LocallyFunded(budgets[t.department], t.purpose), clearAll) else {})
  {
    var n := |targets| - 1;
    var prefix := targets[..n];
    var t := targets[n];
    var extra := if t.department in budgets then SelectedTypesIn(LocallyFunded(budgets[t.department], t.purpose), clearAll) else {};
    forall y
      ensures y in SelectedTypes(budgets, targets, clearAll) <==> y in SelectedTypes(budgets, prefix, clearAll) + extra
    {
      if y in SelectedTypes(budgets, targets, clearAll) {
        var i, x :| 0 <= i < |targets| && targets[i].department in budgets
            && x in LocallyFunded(budgets[targets[i].department], targets[i].purpose)
            && Selected(x, clearAll) && x.buildingType == y;
        if i < n { assert prefix[i] == targets[i]; }
      }
      if y in SelectedTypes(budgets, prefix, clearAll) {
        var i, x :| 0 <= i < n && prefix[i].department in budgets
            && x in LocallyFunded(budgets[prefix[i].department], prefix[i].purpose)
            && Selected(x, clearAll) && x.buildingType == y;
        assert targets[i] == prefix[i];
      }
      if y in extra {
        var x :| x in LocallyFunded(budgets[t.department], t.purpose) && Selected(x, clearAll) && x.buildingType == y;
        assert targets[n] == t;
      }
    }
  }

  /** A department that no pair names keeps its budget. */
  lemma {:induction false} RunUntouched(budgets: map<uint32, Budget>, targets: seq<Target>, clearAll: bool, d: uint32)
    requires d in budgets && d !in DepartmentsOf(targets)
    ensures d in Run(budgets, targets, clearAll).0 && Run(budgets, targets, clearAll).0[d] == budgets[d]
    decreases |targets|
  {
    if targets != [] {
      DepartmentsOfSnoc(targets);
      RunUntouched(budgets, targets[..|targets| - 1], clearAll, d);
    }
  }

  /** With pairs of distinct departments, a named department is processed once, from its original budget. */
  lemma {:induction false} RunProcessed(budgets: map<uint32, Budget>, targets: seq<Target>, clearAll: bool, i: nat)
    requires DistinctDepartments(targets)
    requires i < |targets| && targets[i].department in budgets
    ensures targets[i].department in Run(budgets, targets, clearAll).0
    ensures Run(budgets, targets, clearAll).0[targets[i].department]
      == Process(budgets[targets[i].department], targets[i].purpose, clearAll)
    decreases |targets|
  {
    var n := |targets| - 1;
    var prefix := targets[..n];
    RunKeys(budgets, prefix, clearAll);
    if i == n {
      LastDepartmentIsNew(targets);
      RunUntouched(budgets, prefix, clearAll, targets[n].department);
    } else {
      assert prefix[i] == targets[i];
      assert targets[i].department != targets[n].department;
      RunProcessed(budgets, prefix, clearAll, i);
    }
  }

  /** With pairs of distinct departments, the collected set is the types of all selected items. */
  lemma {:induction false} RunTypes(budgets: map<uint32, Budget>, targets: seq<Target>, clearAll: bool)
    requires DistinctDepartments(targets)
    ensures Run(budgets, targets, clearAll).1 == SelectedTypes(budgets, targets, clearAll)
    decreases |targets|
  {
    if targets != [] {
      var n := |targets| - 1;
      var prefix := targets[..n];
      var t := targets[n];
      RunTypes(budgets, prefix, clearAll);
      RunKeys(budgets, prefix, clearAll);
      var extra := if t.department in budgets then SelectedTypesIn(LocallyFunded(budgets[t.department], t.purpose), clearAll) else {};
      if t.department in budgets {
        RunProcessed(budgets, targets, clearAll, n);
        LastDepartmentIsNew(targets);
        RunUntouched(budgets, prefix, clearAll, t.department);
        TypesOfOrphans(LocallyFunded(budgets[t.department], t.purpose), clearAll);
      }
      assert Run(budgets, targets, clearAll).1 == Run(budgets, prefix, clearAll).1 + extra;
      SelectedTypesSnoc(budgets, targets, clearAll);
    }
  }

  /**
   * With pairs of distinct departments, each department that has a budget is processed
   * once from its original state, every other budget is left alone, and the collected
   * set holds the distinct building types of all selected items across the pairs.
   */
  lemma RunCharacterization(budgets: map<uint32, Budget>, targets: seq<Target>, clearAll: bool)
    requires DistinctDepartments(targets)
    ensures Run(budgets, targets, clearAll).0.Keys == budgets.Keys
    ensures forall i :: 0 <= i < |targets| && targets[i].department in budgets ==>
      Run(budgets, targets, clearAll).0[targets[i].department]
        == Process(budgets[targets[i].department], targets[i].purpose, clearAll)
    ensures forall d :: d in budgets && d !in DepartmentsOf(targets) ==> Run(budgets, targets, clearAll).0[d] == budgets[d]
    ensures Run(budgets, targets, clearAll).1 == SelectedTypes(budgets, targets, clearAll)
  {
    RunKeys(budgets, targets, clearAll);
    RunTypes(budgets, targets, clearAll);
    forall i | 0 <= i < |targets| && targets[i].department in budgets
      ensures Run(budgets, targets, clearAll).0[targets[i].department]
        == Process(budgets[targets[i].department], targets[i].purpose, clearAll)
    {
      RunProcessed(budgets, targets, clearAll, i);
    }
    forall d | d in budgets && d !in DepartmentsOf(targets)
      ensures Run(budgets, targets, clearAll).0[d] == budgets[d]
    {
      RunUntouched(budgets, targets, clearAll, d);
    }
  }

  // ---------------------------------------------------------------------------
  // The handler's gates and messages.

  /** A wrong argument count shows only the usage message and changes nothing. */
  lemma WrongArgumentCountShowsUsage(arguments: seq<string>, hasSimulator: bool, budgets: map<uint32, Budget>)
    requires |arguments| != 2 && |arguments| != 3
    ensures Dispatch(arguments, hasSimulator, budgets) == Outcome(Some(Usage), budgets)
  {
  }

  /** A third argument other than "all" runs the same targeted removal as no third argument. */
  lemma OtherThirdArgumentIsTargeted(arguments: seq<string>, hasSimulator: bool, budgets: map<uint32, Budget>)
    requires |arguments| == 3 && !EqualsIgnoreCase(arguments[2], "all")
    ensures Dispatch(arguments, hasSimulator, budgets) == Dispatch(arguments[..2], hasSimulator, budgets)
  {
  }

  /** An unknown category is reported with the name as typed, and nothing changes. */
  lemma UnknownCategoryChangesNothing(arguments: seq<string>, hasSimulator: bool, budgets: map<uint32, Budget>)
    requires |arguments| == 2 || |arguments| == 3
    requires !IsKnownCategory(arguments[1])
    ensures Dispatch(arguments, hasSimulator, budgets) == Outcome(Some(UnknownCategory(arguments[1])), budgets)
  {
    ResolveTable(arguments[1]);
  }

  /** Without a budget simulator a known category shows no dialog and changes nothing. */
  lemma NoSimulatorShowsNothing(arguments: seq<string>, budgets: map<uint32, Budget>)
    requires |arguments| == 2 || |arguments| == 3
    requires IsKnownCategory(arguments[1])
    ensures Dispatch(arguments, false, budgets) == Outcome(None, budgets)
  {
    ResolveTable(arguments[1]);
  }

  /**
   * A targeted run reports the number of distinct building types selected across all
   * the category's pairs ("none found" when there are none), and leaves each pair's
   * list with exactly its unselected items.
   */
  lemma TargetedRunReport(arguments: seq<string>, budgets: map<uint32, Budget>)
    requires |arguments| == 2 || |arguments| == 3
    requires IsKnownCategory(arguments[1]) && !ClearAllRequested(arguments)
    ensures var types := SelectedTypes(budgets, Resolve(arguments[1]), false);
      Dispatch(arguments, true, budgets).shown == Some(if types == {} then NoneFound else Removed(|types|))
    ensures var targets := Resolve(arguments[1]);
      forall i :: 0 <= i < |targets| && targets[i].department in budgets ==>
        targets[i].department in Dispatch(arguments, true, budgets).budgets &&
        Dispatch(arguments, true, budgets).budgets[targets[i].department]
          == Process(budgets[targets[i].department], targets[i].purpose, false)
  {
    ResolveTable(arguments[1]);
    ResolveShape(arguments[1]);
    RunCharacterization(budgets, Resolve(arguments[1]), false);
  }

  /**
   * A clear-all run reports the category as typed and leaves no building occupant in
   * any of the category's lists; departments outside the category are untouched.
   */
  lemma ClearAllRunEmptiesCategory(arguments: seq<string>, budgets: map<uint32, Budget>)
    requires ClearAllRequested(arguments) && IsKnownCategory(arguments[1])
    ensures Dispatch(arguments, true, budgets).shown == Some(Cleared(arguments[1]))
    ensures var targets := Resolve(arguments[1]);
      forall i, x :: 0 <= i < |targets| && targets[i].department in budgets
        && targets[i].department in Dispatch(arguments, true, budgets).budgets
        && x in LocallyFunded(Dispatch(arguments, true, budgets).budgets[targets[i].department], targets[i].purpose)
        ==> !x.isBuildingOccupant
    ensures forall d :: d in budgets && d !in DepartmentsOf(Resolve(arguments[1])) ==>
      d in Dispatch(arguments, true, budgets).budgets && Dispatch(arguments, true, budgets).budgets[d] == budgets[d]
  {
    var targets := Resolve(arguments[1]);
    ResolveTable(arguments[1]);
    ResolveShape(arguments[1]);
    RunCharacterization(budgets, targets, true);
    var after := Dispatch(arguments, true, budgets).budgets;
    forall i, x | 0 <= i < |targets| && targets[i].department in budgets
        && x in LocallyFunded(after[targets[i].department], targets[i].purpose)
      ensures !x.isBuildingOccupant
    {
      var b := budgets[targets[i].department];
      ProcessRemovesExactlySelected(b, targets[i].purpose, true);
      KeepMembership(LocallyFunded(b, targets[i].purpose), true, x);
    }
  }

  /** A cheat with another identifier shows nothing and changes nothing. */
  lemma OtherCheatIgnored(cheatId: uint32, cheat: string, hasSimulator: bool, budgets: map<uint32, Budget>)
    requires cheatId != CheatId
    ensures Invoke(cheatId, cheat, hasSimulator, budgets) == Outcome(None, budgets)
  {
  }
}
