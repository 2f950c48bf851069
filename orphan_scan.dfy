/**
 * The classification rule of the orphan scanner: which locally funded items a scan
 * selects for removal, and what the scan of a list yields.
 */
module OrphanScan {
  import opened Base

  /**
   * A locally funded item as the scanner sees it: whether it carries the exemplar-type
   * property (0x10, present only while the building's plugin is installed), whether it
   * answers to the building-occupant interface, and its building type.
   */
  datatype Item = Item(hasExemplarType: bool, isBuildingOccupant: bool, buildingType: uint32)

  /** The scanner's rule: (clear-all, or the marker property is missing) and a building occupant. */
  predicate Selected(x: Item, clearAll: bool)
  {
    (clearAll || !x.hasExemplarType) && x.isBuildingOccupant
  }

  /** The items a scan of `items` yields, in list order. */
  function Orphans(items: seq<Item>, clearAll: bool): seq<Item>
  {
    if items == [] then []
    else (if Selected(items[0], clearAll) then [items[0]] else []) + Orphans(items[1..], clearAll)
  }

  /** The items a scan of `items` leaves alone, in list order. */
  function Keep(items: seq<Item>, clearAll: bool): seq<Item>
  {
    if items == [] then []
    else (if Selected(items[0], clearAll) then [] else [items[0]]) + Keep(items[1..], clearAll)
  }

  /** An item is in the scan's output exactly when it is in the list and the rule selects it. */
  lemma {:induction false} OrphansMembership(items: seq<Item>, clearAll: bool, x: Item)
    ensures x in Orphans(items, clearAll) <==> x in items && Selected(x, clearAll)
  {
    if items != [] {
      OrphansMembership(items[1..], clearAll, x);
      assert items == [items[0]] + items[1..];
    }
  }

  /** An item remains exactly when it is in the list and the rule does not select it. */
  lemma {:induction false} KeepMembership(items: seq<Item>, clearAll: bool, x: Item)
    ensures x in Keep(items, clearAll) <==> x in items && !Selected(x, clearAll)
  {
    if items != [] {
      KeepMembership(items[1..], clearAll, x);
      assert items == [items[0]] + items[1..];
    }
  }

  /** The scan keeps list order: scanning a concatenation concatenates the scans. */
  lemma {:induction false} OrphansAppend(a: seq<Item>, b: seq<Item>, clearAll: bool)
    ensures Orphans(a + b, clearAll) == Orphans(a, clearAll) + Orphans(b, clearAll)
  {
    if a == [] {
      assert a + b == b;
    } else {
      OrphansAppend(a[1..], b, clearAll);
      var head := if Selected(a[0], clearAll) then [a[0]] else [];
      assert (a + b)[0] == a[0];
      assert (a + b)[1..] == a[1..] + b;
      assert Orphans(a + b, clearAll) == head + Orphans(a[1..] + b, clearAll);
      assert Orphans(a, clearAll) == head + Orphans(a[1..], clearAll);
      var x, y := Orphans(a[1..], clearAll), Orphans(b, clearAll);
      assert head + (x + y) == (head + x) + y;
    }
  }

  /** Scanning one more item adds it at the end exactly when the rule selects it. */
  lemma OrphansSnoc(items: seq<Item>, x: Item, clearAll: bool)
    ensures Orphans(items + [x], clearAll) == Orphans(items, clearAll) + (if Selected(x, clearAll) then [x] else [])
  {
    OrphansAppend(items, [x], clearAll);
    assert [x][1..] == [];
  }

  /** A clear-all scan yields the whole list when every item is a building occupant. */
  lemma {:induction false} ClearAllSelectsEveryOccupant(items: seq<Item>)
    requires forall i :: 0 <= i < |items| ==> items[i].isBuildingOccupant
    ensures Orphans(items, true) == items
  {
    if items != [] {
      ClearAllSelectsEveryOccupant(items[1..]);
    }
  }

  /** Items carrying the marker property never appear in a targeted scan. */
  lemma TargetedScanSkipsInstalled(items: seq<Item>, x: Item)
    requires x.hasExemplarType
    ensures x !in Orphans(items, false)
  {
    OrphansMembership(items, false, x);
  }

  /** What a scan leaves behind yields nothing when scanned again. */
  lemma {:induction false} RescanFindsNothing(items: seq<Item>, clearAll: bool)
    ensures Orphans(Keep(items, clearAll), clearAll) == []
  {
    if items != [] {
      RescanFindsNothing(items[1..], clearAll);
      var rest := Keep(items[1..], clearAll);
      if Selected(items[0], clearAll) {
        assert Keep(items, clearAll) == rest;
      } else {
        assert Keep(items, clearAll) == [items[0]] + rest;
        assert ([items[0]] + rest)[1..] == rest;
      }
    }
  }
}
