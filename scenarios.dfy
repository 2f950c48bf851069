/**
 * Worked invocations of the cheat on small cities: the whole outcome (dialog and
 * department budgets) of one command line, derived from the general definitions.
 */
module Scenarios {
  import opened Base
  import opened Text
  import opened BudgetCategory
  import opened OrphanScan
  import opened Removal

  /** A building whose plugin is gone: no exemplar-type property, still an occupant. */
  const Phantom := Item(false, true, 0x1111)
  /** A building whose plugin is installed. */
  const Installed := Item(true, true, 0x2222)
  /** A locally funded item that is not a building occupant. */
  const Unoccupied := Item(false, false, 0x3333)

  /** Line items for the three building types above. */
  const AllLineItems := map[0x1111 := LineItem(1), 0x2222 := LineItem(2), 0x3333 := LineItem(3)]

  /** A fire department whose fire-station list holds one phantom among other items. */
  const FireBudget := Budget(map[Fire.purpose := [Phantom, Installed, Unoccupied]], AllLineItems)

  /** The cheat text with the given arguments after the cheat's name. */
  function CommandLine(arguments: seq<string>): string
  {
    Join([CheatName] + arguments, ' ')
  }

  /** The handler sees the cheat's name followed by the space-free arguments. */
  lemma CommandLineSplits(arguments: seq<string>)
    requires forall i :: 0 <= i < |arguments| ==> ' ' !in arguments[i]
    ensures Split(CommandLine(arguments), ' ') == [CheatName] + arguments
  {
    var fields := [CheatName] + arguments;
    forall i | 0 <= i < |fields| ensures ' ' !in fields[i] {
      if i > 0 {
        assert fields[i] == arguments[i - 1];
      }
    }
    SplitJoin(fields, ' ');
  }

  /** A run over a single pair processes that pair's department, if it has a budget. */
  lemma RunSingle(budgets: map<uint32, Budget>, t: Target, clearAll: bool)
    ensures Run(budgets, [t], clearAll) ==
      if t.department in budgets
      then (budgets[t.department := Process(budgets[t.department], t.purpose, clearAll)],
            TypesOf(ItemsToRemove(budgets[t.department], t.purpose, clearAll)))
      else (budgets, {})
  {
    assert [t][..0] == [] && [t][|[t]| - 1] == t;
    assert Run(budgets, [t][..0], clearAll) == (budgets, {});
    if t.department in budgets {
      var types := TypesOf(ItemsToRemove(budgets[t.department], t.purpose, clearAll));
      assert {} + types == types;
    }
  }

  /** The fire-station scan selects the phantom and nothing else. */
  lemma FireScan()
    ensures ItemsToRemove(FireBudget, Fire.purpose, false) == [Phantom]
  {
    var items := [Phantom, Installed, Unoccupied];
    assert items[1..] == [Installed, Unoccupied] && items[1..][1..] == [Unoccupied];
    assert LocallyFunded(FireBudget, Fire.purpose) == items;
    assert Orphans([Unoccupied], false) == [];
    assert Orphans(items[1..], false) == [];
  }

  /** Processing the fire-station list removes the phantom and its line item. */
  lemma FireProcess()
    ensures Process(FireBudget, Fire.purpose, false) == FireBudgetAfter
  {
    FireScan();
    var items := [Phantom, Installed, Unoccupied];
    assert items[1..] == [Installed, Unoccupied] && items[1..][1..] == [Unoccupied];
    assert Excluding([Unoccupied], [Phantom]) == [Unoccupied];
    assert Excluding(items, [Phantom]) == [Installed, Unoccupied];
    assert TypesOf([Phantom]) == {0x1111};
  }

  /** The fire department once the phantom and its line item are gone. */
  const FireBudgetAfter := Budget(map[Fire.purpose := [Installed, Unoccupied]], AllLineItems - {0x1111})

  /** A targeted run over the fire pair: one building type removed. */
  lemma FireRun()
    ensures Run(map[Fire.department := FireBudget], [Fire], false) == (map[Fire.department := FireBudgetAfter], {0x1111})
  {
    RunSingle(map[Fire.department := FireBudget], Fire, false);
    FireScan();
    FireProcess();
    assert TypesOf([Phantom]) == {0x1111};
    assert map[Fire.department := FireBudget][Fire.department := FireBudgetAfter] == map[Fire.department := FireBudgetAfter];
  }

  /** The handler on the arguments `RemovePhantomBudgetItems fire`. */
  lemma FireDispatch()
    ensures Dispatch([CheatName, "fire"], true, map[Fire.department := FireBudget])
      == Outcome(Some(Removed(1)), map[Fire.department := FireBudgetAfter])
  {
    assert EqualsIgnoreCase("fire", "Fire");
    ResolveTable("fire");
    FireRun();
  }

  /** `RemovePhantomBudgetItems fire`: the phantom alone goes, with its line item. */
  lemma TargetedFireRun()
    ensures Invoke(CheatId, CommandLine(["fire"]), true, map[Fire.department := FireBudget])
      == Outcome(Some(Removed(1)), map[Fire.department := FireBudgetAfter])
  {
    CommandLineSplits(["fire"]);
    FireDispatch();
  }

  /** A phantom school counted in both education departments' lists. */
  const StaffBudget := Budget(map[EducationStaff.purpose := [Phantom]], AllLineItems)
  const CoverageBudget := Budget(map[EducationCoverage.purpose := [Phantom]], AllLineItems)
  const EducationBudgets := map[EducationStaff.department := StaffBudget, EducationCoverage.department := CoverageBudget]

  /** Processing a list that holds only the phantom empties it and drops its line item. */
  lemma PhantomOnlyProcess(b: Budget, purpose: uint32)
    requires purpose in b.locallyFunded && b.locallyFunded[purpose] == [Phantom]
    ensures ItemsToRemove(b, purpose, false) == [Phantom]
    ensures TypesOf(ItemsToRemove(b, purpose, false)) == {0x1111}
    ensures Process(b, purpose, false) == Budget(b.locallyFunded[purpose := []], b.lineItems - {0x1111})
  {
    assert [Phantom][1..] == [];
    assert LocallyFunded(b, purpose) == [Phantom];
    assert Orphans([Phantom], false) == [Phantom];
    assert Excluding([Phantom], [Phantom]) == [];
    assert TypesOf([Phantom]) == {0x1111};
  }

  /** The education departments once the phantom school is gone from both. */
  const StaffBudgetAfter := Budget(map[EducationStaff.purpose := []], AllLineItems - {0x1111})
  const CoverageBudgetAfter := Budget(map[EducationCoverage.purpose := []], AllLineItems - {0x1111})
  const EducationBudgetsAfter := map[EducationStaff.department := StaffBudgetAfter, EducationCoverage.department := CoverageBudgetAfter]

  /** The education budgets after the staff pair alone. */
  const StaffProcessed := EducationBudgets[EducationStaff.department := StaffBudgetAfter]

  /** The staff pair removes the phantom school from the staff department. */
  lemma StaffRun()
    ensures Run(EducationBudgets, [EducationStaff], false) == (StaffProcessed, {0x1111})
  {
    PhantomOnlyProcess(StaffBudget, EducationStaff.purpose);
    assert EducationBudgets[EducationStaff.department] == StaffBudget;
    assert StaffBudget.locallyFunded[EducationStaff.purpose := []] == StaffBudgetAfter.locallyFunded;
    RunSingle(EducationBudgets, EducationStaff, false);
  }

  /** The coverage pair, after the staff pair, meets the coverage department as it was. */
  lemma CoverageStep()
    ensures EducationCoverage.department in StaffProcessed
    ensures TypesOf(ItemsToRemove(StaffProcessed[EducationCoverage.department], EducationCoverage.purpose, false)) == {0x1111}
    ensures StaffProcessed[EducationCoverage.department := Process(StaffProcessed[EducationCoverage.department], EducationCoverage.purpose, false)]
      == EducationBudgetsAfter
  {
    assert StaffProcessed[EducationCoverage.department] == CoverageBudget;
    PhantomOnlyProcess(CoverageBudget, EducationCoverage.purpose);
    assert CoverageBudget.locallyFunded[EducationCoverage.purpose := []] == CoverageBudgetAfter.locallyFunded;
    assert StaffProcessed[EducationCoverage.department := CoverageBudgetAfter] == EducationBudgetsAfter;
  }

  /** Both education pairs remove the same building type, which the run collects once. */
  lemma EducationRun()
    ensures Run(EducationBudgets, [EducationStaff, EducationCoverage], false) == (EducationBudgetsAfter, {0x1111})
  {
    var targets := [EducationStaff, EducationCoverage];
    assert targets[|targets| - 1] == EducationCoverage && targets[..|targets| - 1] == [EducationStaff];
    StaffRun();
    CoverageStep();
    assert {0x1111} + {0x1111} == {0x1111};
  }

  /** The handler on the arguments `RemovePhantomBudgetItems Education`. */
  lemma EducationDispatch()
    ensures Dispatch([CheatName, "Education"], true, EducationBudgets) == Outcome(Some(Removed(1)), EducationBudgetsAfter)
  {
    ResolveTable("Education");
    EducationRun();
  }

  /** `RemovePhantomBudgetItems Education`: one building type removed, from both departments. */
  lemma SharedEducationRun()
    ensures Invoke(CheatId, CommandLine(["Education"]), true, EducationBudgets)
      == Outcome(Some(Removed(1)), EducationBudgetsAfter)
  {
    CommandLineSplits(["Education"]);
    EducationDispatch();
  }

  /** A power department with a phantom, an installed plant and an item that is not an occupant. */
  const PowerBudget := Budget(map[Power.purpose := [Phantom, Installed, Unoccupied]], AllLineItems)
  const PowerBudgetAfter := Budget(map[Power.purpose := [Unoccupied]], AllLineItems - {0x1111, 0x2222})

  /** A clear-all scan of the power list takes every building occupant. */
  lemma PowerClearAllProcess()
    ensures TypesOf(ItemsToRemove(PowerBudget, Power.purpose, true)) == {0x1111, 0x2222}
    ensures Process(PowerBudget, Power.purpose, true) == PowerBudgetAfter
  {
    var items := [Phantom, Installed, Unoccupied];
    assert items[1..] == [Installed, Unoccupied] && items[1..][1..] == [Unoccupied];
    assert LocallyFunded(PowerBudget, Power.purpose) == items;
    assert Orphans([Unoccupied], true) == [];
    assert Orphans(items, true) == [Phantom, Installed];
    assert Excluding([Unoccupied], [Phantom, Installed]) == [Unoccupied];
    assert Excluding(items, [Phantom, Installed]) == [Unoccupied];
    assert TypesOf([Phantom, Installed]) == {0x1111, 0x2222};
  }

  /** A clear-all run over the power pair. */
  lemma PowerRun()
    ensures Run(map[Power.department := PowerBudget], [Power], true) == (map[Power.department := PowerBudgetAfter], {0x1111, 0x2222})
  {
    RunSingle(map[Power.department := PowerBudget], Power, true);
    PowerClearAllProcess();
    assert map[Power.department := PowerBudget][Power.department := PowerBudgetAfter] == map[Power.department := PowerBudgetAfter];
  }

  /** The handler on the arguments `RemovePhantomBudgetItems Power ALL`. */
  lemma PowerDispatch()
    ensures Dispatch([CheatName, "Power", "ALL"], true, map[Power.department := PowerBudget])
      == Outcome(Some(Cleared("Power")), map[Power.department := PowerBudgetAfter])
  {
    assert EqualsIgnoreCase("ALL", "all");
    ResolveTable("Power");
    PowerRun();
  }

  /** `RemovePhantomBudgetItems Power ALL`: the category is cleared, installed plugins included. */
  lemma ClearAllPowerRun()
    ensures Invoke(CheatId, CommandLine(["Power", "ALL"]), true, map[Power.department := PowerBudget])
      == Outcome(Some(Cleared("Power")), map[Power.department := PowerBudgetAfter])
  {
    CommandLineSplits(["Power", "ALL"]);
    PowerDispatch();
  }

  /** Without a budget simulator a known category shows nothing and changes nothing. */
  lemma NoSimulatorRun(budgets: map<uint32, Budget>)
    ensures Invoke(CheatId, CommandLine(["Jail"]), false, budgets) == Outcome(None, budgets)
  {
    CommandLineSplits(["Jail"]);
    ResolveTable("Jail");
  }

  /** The dialog text for a targeted run that removed twelve building types. */
  lemma RemovedMessageText()
    ensures MessageText(Removed(12)) == "Removed 12 orphaned budget item(s)."
  {
    assert Decimal(12) == "12" by {
      assert Decimal(1) == "1";
    }
    assert "Removed " + "12" + " orphaned budget item(s)." == "Removed 12 orphaned budget item(s).";
  }

  /** `RemovePhantomBudgetItems Atomic`: an unknown category is reported and nothing changes. */
  lemma UnknownCategoryRun(budgets: map<uint32, Budget>)
    ensures Invoke(CheatId, CommandLine(["Atomic"]), true, budgets)
      == Outcome(Some(UnknownCategory("Atomic")), budgets)
  {
    CommandLineSplits(["Atomic"]);
    assert !IsKnownCategory("Atomic") by {
      assert ToLowerAscii("Atomic"[0]) == 'a';
    }
    UnknownCategoryChangesNothing([CheatName, "Atomic"], true, budgets);
  }

  /** `RemovePhantomBudgetItems` alone: the usage text, and nothing changes. */
  lemma MissingCategoryRun(hasSimulator: bool, budgets: map<uint32, Budget>)
    ensures Invoke(CheatId, CommandLine([]), hasSimulator, budgets) == Outcome(Some(Usage), budgets)
  {
    CommandLineSplits([]);
  }
}
