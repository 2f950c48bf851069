/**
 * The game objects the handler works on, reduced to the state it reads and changes:
 * a department budget and the budget simulator that hands department budgets out.
 * Their members stand for host code whose internals are not part of this model; they
 * are given the contracts the handler relies on.
 */
module Host {
  import opened Base
  import opened OrphanScan
  import opened Removal
  import opened ListContainer

  /** The node values of a list the game fills with `items`: one non-null pointer per item. */
  function AsValues(items: seq<Item>): (vs: seq<Option<Item>>)
    ensures |vs| == |items|
    ensures forall i :: 0 <= i < |items| ==> vs[i] == Some(items[i])
  {
    if items == [] then [] else AsValues(items[..|items| - 1]) + [Some(items[|items| - 1])]
  }

  /** `cISC4DepartmentBudget`: per-purpose locally funded item lists and line items by building type. */
  class DepartmentBudget {
    var locallyFunded: map<uint32, seq<Item>>
    var lineItems: map<uint32, LineItem>

    constructor(locallyFunded: map<uint32, seq<Item>>, lineItems: map<uint32, LineItem>)
      ensures Model() == Budget(locallyFunded, lineItems)
    {
      this.locallyFunded := locallyFunded;
      this.lineItems := lineItems;
    }

    ghost function Model(): Budget
      reads this
    {
      Budget(locallyFunded, lineItems)
    }

    /**
     * `GetLocallyFundedItemsByPurpose`: fills the caller's empty list with the items of
     * `purpose`, in order; it fails, leaving the list empty, when there is no such list.
     */
    method GetLocallyFundedItemsByPurpose(purpose: uint32, list: SC4List<Item>) returns (ok: bool)
      requires list.Valid() && list.Contents == []
      modifies list.Repr
      ensures list.Valid() && fresh(list.Repr - old(list.Repr))
      ensures ok <==> purpose in locallyFunded
      ensures list.Contents == if ok then AsValues(locallyFunded[purpose]) else []
    {
      ok := purpose in locallyFunded;
      if ok {
        var items := locallyFunded[purpose];
        var i := 0;
        while i < |items|
          invariant 0 <= i <= |items|
          invariant list.Valid() && fresh(list.Repr - old(list.Repr))
          invariant list.Contents == AsValues(items[..i])
        {
          assert items[..i + 1][..i] == items[..i];
          list.PushBack(Some(items[i]));
          i := i + 1;
        }
        assert items[..i] == items;
      }
    }

    /** `RemoveLocallyFundedObject`: the item leaves the list of `purpose`. */
    method RemoveLocallyFundedObject(x: Item, purpose: uint32)
      modifies this
      ensures Model() == Unlinked(old(Model()), purpose, x)
    {
      if purpose in locallyFunded {
        locallyFunded := locallyFunded[purpose := Excluding(locallyFunded[purpose], [x])];
      }
    }

    /** `RemoveLineItem`: the line item keyed by `buildingType` goes, if there is one. */
    method RemoveLineItem(buildingType: uint32)
      modifies this
      ensures Model() == WithoutLineItem(old(Model()), buildingType)
    {
      lineItems := lineItems - {buildingType};
    }
  }

  /** `cISC4BudgetSimulator`: the department budgets by department identifier. */
  class BudgetSimulator {
    var departments: map<uint32, DepartmentBudget>

    constructor(departments: map<uint32, DepartmentBudget>)
      ensures this.departments == departments
    {
      this.departments := departments;
    }

    /** Each department has a budget object of its own. */
    ghost predicate Valid()
      reads this
    {
      forall a, b :: a in departments && b in departments && a != b ==> departments[a] != departments[b]
    }

    /** The state of every department budget. */
    ghost function Snapshot(): map<uint32, Budget>
      reads this, departments.Values
    {
      map d | d in departments :: departments[d].Model()
    }

    /** `GetDepartmentBudget`: null when the city has no budget for that department. */
    function GetDepartmentBudget(department: uint32): DepartmentBudget?
      reads this
    {
      if department in departments then departments[department] else null
    }
  }
}
