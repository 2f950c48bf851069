/**
 * The plugin's director: the scanner that walks a department's locally funded items,
 * and the cheat-code handler that removes what it selects and reports the outcome.
 */
module Director {
  import opened Base
  import opened Text
  import opened ListContainer
  import opened BudgetCategory
  import opened OrphanScan
  import opened Removal
  import opened Host

  /**
   * The range-based `for` of `GetBudgetItemsToRemove`: walks the list from `begin()` to
   * `end()` and keeps, in order, each item the rule selects that is a building occupant.
   */
  method CollectOrphans(items: SC4List<Item>, ghost funded: seq<Item>, clearAll: bool) returns (occupants: seq<Item>)
    requires items.Valid() && items.Contents == AsValues(funded)
    ensures occupants == Orphans(funded, clearAll)
  {
    occupants := [];
    var it := items.Begin();
    var last := items.End();
    ghost var k := 0;
    while it.NotEquals(last)
      modifies it
      invariant k <= |funded| && it.node == items.At(k) && last.node == items.root
      invariant occupants == Orphans(funded[..k], clearAll)
      decreases |funded| - k
    {
      assert k < |items.nodes| && items.nodes[k].value == Some(funded[k]);
      var holder := it.Deref();
      if clearAll || !holder.hasExemplarType {
        if holder.isBuildingOccupant {
          occupants := occupants + [holder];
        }
      }
      assert funded[..k + 1] == funded[..k] + [funded[k]];
      OrphansSnoc(funded[..k], funded[k], clearAll);
      assert it.node.next == items.At(k + 1);
      it.Increment();
      k := k + 1;
    }
    assert funded[..k] == funded;
  }

  /**
   * `GetBudgetItemsToRemove`: asks the department for the purpose's list, collects the
   * items to remove from it, and tears the list down on the way out. The output starts
   * empty and the result says whether anything was collected.
   */
  method GetBudgetItemsToRemove(department: DepartmentBudget, purpose: uint32, clearAll: bool, allocator: AllocatorService)
    returns (any: bool, occupants: seq<Item>)
    modifies allocator
    ensures occupants == ItemsToRemove(department.Model(), purpose, clearAll)
    ensures any <==> occupants != []
  {
    occupants := [];
    var items := new SC4List<Item>(RefCounted);
    var ok := department.GetLocallyFundedItemsByPurpose(purpose, items);
    if ok {
      occupants := CollectOrphans(items, department.locallyFunded[purpose], clearAll);
    }
    var _ := items.Destroy(allocator);
    any := |occupants| != 0;
  }

  /**
   * The removal loop of `ProcessCheatCodes` for one pair: each collected item is
   * unlinked from the purpose's list and its building type's line item removed; in a
   * targeted run the building types are gathered for the report.
   */
  method RemoveOccupants(department: DepartmentBudget, purpose: uint32, occupants: seq<Item>, clearAll: bool, orphaned: set<uint32>)
    returns (orphanedAfter: set<uint32>)
    modifies department
    ensures department.Model() == Pruned(old(department.Model()), purpose, occupants)
    ensures orphanedAfter == if clearAll then orphaned else orphaned + TypesOf(occupants)
  {
    ghost var original := department.Model();
    orphanedAfter := orphaned;
    PrunedNothing(original, purpose);
    assert occupants[..0] == [];
    assert TypesOf([]) == {};
    var j := 0;
    while j < |occupants|
      invariant 0 <= j <= |occupants|
      invariant department.Model() == Pruned(original, purpose, occupants[..j])
      invariant orphanedAfter == if clearAll then orphaned else orphaned + TypesOf(occupants[..j])
    {
      var occupant := occupants[j];
      assert occupants[..j + 1] == occupants[..j] + [occupant];
      PrunedStep(original, purpose, occupants[..j], occupant);
      department.RemoveLocallyFundedObject(occupant, purpose);
      var buildingType := occupant.buildingType;
      department.RemoveLineItem(buildingType);
      if !clearAll {
        orphanedAfter := orphanedAfter + {buildingType};
      }
      j := j + 1;
    }
    assert occupants[..j] == occupants;
  }

  /**
   * One iteration of the handler's loop over the category's pairs: a department without
   * a budget is skipped; otherwise its selected items are removed as `Process` says.
   */
  method ProcessTarget(sim: BudgetSimulator, target: Target, clearAll: bool, allocator: AllocatorService, orphaned: set<uint32>)
    returns (orphanedAfter: set<uint32>)
    requires sim.Valid()
    modifies allocator, sim.departments.Values
    ensures sim.Snapshot() ==
      if target.department in old(sim.Snapshot())
      then old(sim.Snapshot())[target.department := Process(old(sim.Snapshot())[target.department], target.purpose, clearAll)]
      else old(sim.Snapshot())
    ensures orphanedAfter ==
      if clearAll || target.department !in old(sim.Snapshot()) then orphaned
      else orphaned + TypesOf(ItemsToRemove(old(sim.Snapshot())[target.department], target.purpose, clearAll))
  {
    ghost var before := sim.Snapshot();
    orphanedAfter := orphaned;
    var department := sim.GetDepartmentBudget(target.department);
    if department != null {
      var any, occupants := GetBudgetItemsToRemove(department, target.purpose, clearAll, allocator);
      if any {
        orphanedAfter := RemoveOccupants(department, target.purpose, occupants, clearAll, orphaned);
      } else {
        assert TypesOf([]) == {};
        PrunedNothing(department.Model(), target.purpose);
      }
      forall d | d in sim.departments
        ensures sim.departments[d].Model() == before[target.department := department.Model()][d]
      {
        if d != target.department {
          assert sim.departments[d] != department;
        }
      }
    }
  }

  /** The city message's payload, as far as the director uses it. */
  class City {
    const budgetSimulator: BudgetSimulator?

    constructor(budgetSimulator: BudgetSimulator?)
      ensures this.budgetSimulator == budgetSimulator
    {
      this.budgetSimulator := budgetSimulator;
    }
  }

  /** `RemovePhantomBudgetItemsDllDirector`: holds the active city's budget simulator, if any. */
  class RemovePhantomBudgetItemsDllDirector {
    var budgetSim: BudgetSimulator?

    constructor()
      ensures budgetSim == null
    {
      budgetSim := null;
    }

    /** `PostCityInit`: captures the city's budget simulator; a message without a city changes nothing. */
    method PostCityInit(city: City?)
      modifies this
      ensures budgetSim == if city != null then city.budgetSimulator else old(budgetSim)
    {
      if city != null {
        budgetSim := city.budgetSimulator;
      }
    }

    /** `PostCityShutdown`: drops the budget simulator. */
    method PostCityShutdown()
      modifies this
      ensures budgetSim == null
    {
      budgetSim := null;
    }

    /** The department budgets the handler may change. */
    ghost function Departments(): set<object>
      reads this, budgetSim
    {
      if budgetSim == null then {} else budgetSim.departments.Values
    }

    /** The state of every department budget; none without a simulator. */
    ghost function Budgets(): map<uint32, Budget>
      reads this, budgetSim, Departments()
    {
      if budgetSim == null then map[] else budgetSim.Snapshot()
    }

    /**
     * `ProcessCheatCodes`: splits the cheat text, checks the argument count, resolves
     * the category and, with a budget simulator, removes the selected items of every
     * pair and reports the outcome (the returned message stands for the dialog).
     */
    method ProcessCheatCodes(cheatId: uint32, cheat: string, allocator: AllocatorService) returns (shown: Option<Message>)
      requires budgetSim != null ==> budgetSim.Valid()
      modifies allocator, Departments()
      ensures shown == Invoke(cheatId, cheat, budgetSim != null, old(Budgets())).shown
      ensures Budgets() == Invoke(cheatId, cheat, budgetSim != null, old(Budgets())).budgets
    {
      shown := None;
      if cheatId != CheatId {
        return;
      }
      var arguments := Split(cheat, ' ');
      if |arguments| == 2 || |arguments| == 3 {
        var category := arguments[1];
        var clearAll := |arguments| == 3 && EqualsIgnoreCase(arguments[2], "all");
        var found, targets := ParseBudgetCategoryName(category);
        if found {
          if budgetSim != null {
            var sim := budgetSim;
            ghost var initial := sim.Snapshot();
            var orphanedBuildings: set<uint32> := {};
            var i := 0;
            while i < |targets|
              invariant 0 <= i <= |targets|
              invariant sim.Snapshot() == Run(initial, targets[..i], clearAll).0
              invariant orphanedBuildings == if clearAll then {} else Run(initial, targets[..i], clearAll).1
            {
              assert targets[..i + 1][..i] == targets[..i];
              orphanedBuildings := ProcessTarget(sim, targets[i], clearAll, allocator, orphanedBuildings);
              i := i + 1;
            }
            assert targets[..i] == targets;
            shown := Some(Report(category, clearAll, orphanedBuildings));
          }
        } else {
          shown := Some(UnknownCategory(category));
        }
      } else {
        shown := Some(Usage);
      }
    }
  }
}
