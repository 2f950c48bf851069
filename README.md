# Phantom budget items: a verified model

SimCity 4 keeps, per department budget, lists of locally funded items (one per
building that draws on the budget) and line items keyed by building type. When a
building's plugin is removed from the plugins folder, its entries stay behind as
"phantom" items. The `RemovePhantomBudgetItems` DLL adds a cheat code. The cheat
resolves a budget category to (department, purpose) pairs and scans each pair's
locally funded items. It unlinks every selected building occupant from the list and
removes the line item of its building type. It then reports the outcome in a dialog.

This project models two parts of the plugin and proves what they promise:

- the director of `src/RemovePhantomBudgetItemsDllDirector.cpp`: the category table
  (`ParseBudgetCategoryName`), the scanner (`GetBudgetItemsToRemove`), the cheat
  handler (`ProcessCheatCodes`) and the city init/shutdown hooks that capture and drop
  the budget simulator;
- the game's intrusive circular list `SC4List<T>` of
  `vendor/gzcom-dll/include/SC4List.h`: its node and iterator, construction,
  `begin`/`end`, `empty`, `size`, and the destructor that releases or destroys each
  value and hands each node back to the allocator.

Modules and files:

| file | module | contents |
|---|---|---|
| base.dfy | `Base` | `Option`, `uint32` |
| text.dfy | `Text` | ASCII case-insensitive comparison and splitting on a delimiter; `Split`/`Join` round trips |
| sc4_list.dfy | `ListContainer` | `ListNode`, `ListIterator` and `SC4List` classes over a heap of nodes, with a ghost node sequence, ghost contents and a `Valid()` cycle invariant |
| budget_category.dfy | `BudgetCategory` | the six categories' pairs, `Resolve`, `ParseBudgetCategoryName` |
| orphan_scan.dfy | `OrphanScan` | the scanner's selection rule and the scan of a list (`Orphans`) and its complement (`Keep`) |
| removal.dfy | `Removal` | the removal and the handler on values: `Process` for one pair, `Run` for a category, `Dispatch`/`Invoke` for the whole cheat, and the dialog messages |
| host.dfy | `Host` | the department budget and budget simulator objects the handler calls, with the contracts it relies on |
| director.dfy | `Director` | the director's imperative code, each method proved against the value-level definitions |
| scenarios.dfy | `Scenarios` | whole invocations on small cities, from the command text to the dialog and the budgets afterwards |

How the model relates to the code:

- **The list** keeps its heap shape: a sentinel `root` and nodes linked by
  `next`/`previous`. The iterator is an object holding a node; `++` moves it along
  `next`. The ghost sequence `nodes` gives the order. `Valid()` says the links form one
  cycle through `root`, in both directions, over distinct nodes. `Contents` holds the
  nodes' value pointers, with `None` for a null pointer.
- **Teardown policy.** `std::is_base_of<cIGZUnknown, T>` becomes the list's `kind`
  (`RefCounted` or `Owned`). The destructor returns the log of what it did to each
  non-null value (`Released`, `Destroyed`). The allocator is an object whose ghost
  `freed` set records every node handed back.
- **A locally funded item** is reduced to what the scanner reads:
  - `HasProperty(0x10)` becomes `hasExemplarType`;
  - the `cISC4BuildingOccupant` interface query becomes `isBuildingOccupant`;
  - `GetBuildingType()` becomes `buildingType`.
- **The game's objects.** A department budget holds `map`s from purpose to item
  sequence and from building type to line item. The budget simulator maps department
  ids to budget objects. Each class has a `Model()`/`Snapshot()` value. The director's
  methods are specified through those values.
- **The dialog** is the returned `Message`. `MessageText` gives its exact text.

## Model

| member | source | states |
|---|---|---|
| ListContainer.ListNode.constructor | vendor/gzcom-dll/include/SC4List.h:6-12 | a node holds its next and previous links and its value pointer |
| ListContainer.ListIterator.constructor | vendor/gzcom-dll/include/SC4List.h:23-25 | an iterator stands on the node it is built from |
| ListContainer.ListIterator.Increment | vendor/gzcom-dll/include/SC4List.h:41-46 | prefix `++` moves the iterator to the old node's `next` |
| ListContainer.ListIterator.PostIncrement | vendor/gzcom-dll/include/SC4List.h:48-54 | postfix `++` moves the iterator and returns a new iterator on the old node |
| ListContainer.IteratorsEqualAtPositions | vendor/gzcom-dll/include/SC4List.h:56-59 | iterators on positions i and j of a valid list (position size being `end()`) compare equal with `==` exactly when i = j |
| ListContainer.ListIterator.NotEquals | vendor/gzcom-dll/include/SC4List.h:60-63 | `!=` is the negation of `==` |
| ListContainer.SC4List.PositionsDistinct | vendor/gzcom-dll/include/SC4List.h:56-63 | in a valid list, iterator positions 0..size (the end is the sentinel) hold the same node only when they are the same position, so `==` on iterators compares positions |
| ListContainer.SC4List.constructor | vendor/gzcom-dll/include/SC4List.h:76-80 | a new list is valid and empty, with the sentinel linked to itself both ways |
| ListContainer.SC4List.IsEmpty | vendor/gzcom-dll/include/SC4List.h:136-139 | `empty()` (the sentinel is its own successor) holds exactly when the list has no nodes |
| ListContainer.SC4List.Size | vendor/gzcom-dll/include/SC4List.h:141-158 | walking `next` from the sentinel's successor back to the sentinel counts exactly the nodes of the list |
| ListContainer.SC4List.Begin | vendor/gzcom-dll/include/SC4List.h:116-119 | `begin()` is an iterator on the first node, or on the sentinel for an empty list |
| ListContainer.SC4List.End | vendor/gzcom-dll/include/SC4List.h:126-129 | `end()` is an iterator on the sentinel |
| ListContainer.SC4List.Traverse | vendor/gzcom-dll/include/SC4List.h:116-129 | a range-based `for` from `begin()` to `end()` meets every value pointer, in list order, and stops after exactly size steps |
| ListContainer.SC4List.Destroy | vendor/gzcom-dll/include/SC4List.h:82-114 | the destructor releases (reference-counted type) or destroys each non-null value in list order, hands every node and no other block to the allocator, and leaves a valid empty list whose sentinel points to itself |
| ListContainer.DisposalsOfNonNull | vendor/gzcom-dll/include/SC4List.h:93-105 | teardown disposes exactly the non-null values, one each, in order, all in the way the list's ownership kind selects |
| ListContainer.AllocatorService.Deallocate | vendor/gzcom-dll/include/SC4List.h:107 | a deallocated block is added to the allocator's freed set and nothing else changes |
| ListContainer.SC4List.AppendedValid | src/RemovePhantomBudgetItemsDllDirector.cpp:129 | linking a fresh node between the last node and the sentinel keeps the cycle invariant, with the new node as the last position |
| ListContainer.SC4List.PushBack | src/RemovePhantomBudgetItemsDllDirector.cpp:129 | the game's insertion into the caller's list appends one value and keeps the list valid |
| Host.AsValues | src/RemovePhantomBudgetItemsDllDirector.cpp:129-131 | the list the game fills holds one non-null pointer per item, in order |
| Host.DepartmentBudget.GetLocallyFundedItemsByPurpose | src/RemovePhantomBudgetItemsDllDirector.cpp:127-129 | filling the caller's empty list succeeds exactly when the department has a list for the purpose, and the list then holds that purpose's items in order; on failure it stays empty |
| Host.DepartmentBudget.RemoveLocallyFundedObject | src/RemovePhantomBudgetItemsDllDirector.cpp:275-277 | the item leaves the purpose's list and nothing else changes |
| Host.DepartmentBudget.RemoveLineItem | src/RemovePhantomBudgetItemsDllDirector.cpp:281-282 | the building type's line item is removed (a no-op when there is none) and nothing else changes |
| BudgetCategory.ParseBudgetCategoryName | src/RemovePhantomBudgetItemsDllDirector.cpp:83-115 | the output is the category's resolution, and the result is true exactly when the output is non-empty, which is exactly when the name is one of the six categories |
| BudgetCategory.ResolveTable | src/RemovePhantomBudgetItemsDllDirector.cpp:83-115 | each category name, in any ASCII case, gives its pair(s): one pair for Fire, Police, Jail and Power, staff then coverage for Education and Health; any other name gives none |
| BudgetCategory.ResolveIgnoresCase | src/RemovePhantomBudgetItemsDllDirector.cpp:87-111 | names equal ignoring case resolve to the same pairs |
| BudgetCategory.ResolveShape | src/RemovePhantomBudgetItemsDllDirector.cpp:83-115 | a resolution has at most two pairs, with distinct departments |
| OrphanScan.OrphansMembership | src/RemovePhantomBudgetItemsDllDirector.cpp:131-145 | an item is collected exactly when it is in the list, is a building occupant and either the run clears all or the item lacks the exemplar-type property |
| OrphanScan.KeepMembership | src/RemovePhantomBudgetItemsDllDirector.cpp:131-145 | an item is left alone exactly when it is in the list and the rule does not select it |
| OrphanScan.OrphansAppend | src/RemovePhantomBudgetItemsDllDirector.cpp:131-145 | the scan keeps list order: scanning a concatenation concatenates the scans |
| OrphanScan.OrphansSnoc | src/RemovePhantomBudgetItemsDllDirector.cpp:136-143 | one more item extends the scan by that item exactly when the rule selects it |
| OrphanScan.ClearAllSelectsEveryOccupant | src/RemovePhantomBudgetItemsDllDirector.cpp:136 | with `all`, a list of building occupants is collected whole |
| OrphanScan.TargetedScanSkipsInstalled | src/RemovePhantomBudgetItemsDllDirector.cpp:133-136 | without `all`, an item that has the exemplar-type property is never collected |
| OrphanScan.RescanFindsNothing | src/RemovePhantomBudgetItemsDllDirector.cpp:131-145 | what a scan leaves behind yields nothing when scanned again |
| Director.CollectOrphans | src/RemovePhantomBudgetItemsDllDirector.cpp:131-145 | walking the list with its iterators collects exactly the scan of the purpose's items, in order |
| Director.GetBudgetItemsToRemove | src/RemovePhantomBudgetItemsDllDirector.cpp:117-149 | the output is the scan of the purpose's items (empty when the department has no such list), and the result is true exactly when it is non-empty; only the allocator changes |
| Removal.TypesOfOrphans | src/RemovePhantomBudgetItemsDllDirector.cpp:279-289 | the building types gathered from a scan are exactly the types of the selected items |
| Removal.ExcludingSelected | src/RemovePhantomBudgetItemsDllDirector.cpp:272-277 | unlinking exactly the selected items leaves exactly the unselected ones, in order |
| Removal.ExcludingNothing | src/RemovePhantomBudgetItemsDllDirector.cpp:272-277 | unlinking nothing leaves the list as it was |
| Removal.ExcludingSnoc | src/RemovePhantomBudgetItemsDllDirector.cpp:272-277 | unlinking items one after another equals unlinking them together |
| Removal.PrunedNothing | src/RemovePhantomBudgetItemsDllDirector.cpp:266-271 | a pair whose scan found nothing leaves the budget unchanged |
| Removal.PrunedStep | src/RemovePhantomBudgetItemsDllDirector.cpp:272-290 | one loop step (unlink the item, then remove its line item) extends the removal of the items so far by that item |
| Removal.ProcessRemovesExactlySelected | src/RemovePhantomBudgetItemsDllDirector.cpp:264-290 | processing a pair leaves that purpose's list with exactly its unselected items, removes exactly the selected items' line items, and changes nothing else |
| Removal.ProcessIsIdempotent | src/RemovePhantomBudgetItemsDllDirector.cpp:264-290 | a processed pair scans empty, and processing it again changes nothing |
| Removal.RunKeys | src/RemovePhantomBudgetItemsDllDirector.cpp:258-293 | the handler's loop adds and drops no departments |
| Removal.DepartmentsOfSnoc | src/RemovePhantomBudgetItemsDllDirector.cpp:258 | the departments of the pairs are those of all pairs but the last, plus the last pair's |
| Removal.LastDepartmentIsNew | src/RemovePhantomBudgetItemsDllDirector.cpp:105-111 | with distinct departments, the last pair's department is not among the earlier ones |
| Removal.SelectedTypesSnoc | src/RemovePhantomBudgetItemsDllDirector.cpp:284-289 | the selected types of the pairs are those of all pairs but the last, plus the last pair's |
| Removal.RunUntouched | src/RemovePhantomBudgetItemsDllDirector.cpp:258-293 | a department no pair names keeps its budget |
| Removal.RunProcessed | src/RemovePhantomBudgetItemsDllDirector.cpp:258-293 | with distinct departments, each pair's department ends up processed once, from its original budget |
| Removal.RunTypes | src/RemovePhantomBudgetItemsDllDirector.cpp:284-289 | the gathered set is the set of distinct building types selected across all pairs, so a building counted in two departments counts once |
| Removal.RunCharacterization | src/RemovePhantomBudgetItemsDllDirector.cpp:256-293 | the loop over pairs keeps the departments, processes each named department with a budget exactly once, leaves the others alone, and gathers the distinct selected types |
| Removal.WrongArgumentCountShowsUsage | src/RemovePhantomBudgetItemsDllDirector.cpp:244-332 | an argument count other than 2 or 3 shows the usage text and changes nothing |
| Removal.OtherThirdArgumentIsTargeted | src/RemovePhantomBudgetItemsDllDirector.cpp:247 | a third argument other than `all` (in any case) behaves like no third argument |
| Removal.UnknownCategoryChangesNothing | src/RemovePhantomBudgetItemsDllDirector.cpp:316-322 | an unknown category is reported with the name as typed and changes nothing |
| Removal.NoSimulatorShowsNothing | src/RemovePhantomBudgetItemsDllDirector.cpp:252-254 | a known category with no budget simulator shows no dialog and changes nothing |
| Removal.TargetedRunReport | src/RemovePhantomBudgetItemsDllDirector.cpp:256-311 | a targeted run reports "none found" when no building type was selected and otherwise the number of distinct selected building types, and processes every pair's department that has a budget |
| Removal.ClearAllRunEmptiesCategory | src/RemovePhantomBudgetItemsDllDirector.cpp:256-300 | a clear-all run reports the category as typed, leaves no building occupant in any of the category's lists, and leaves every other department unchanged |
| Removal.OtherCheatIgnored | src/RemovePhantomBudgetItemsDllDirector.cpp:235-237 | a cheat with another id shows nothing and changes nothing |
| Director.RemoveOccupants | src/RemovePhantomBudgetItemsDllDirector.cpp:272-290 | the removal loop leaves the department as `Pruned` by the collected items, and in a targeted run adds their building types to the gathered set |
| Director.ProcessTarget | src/RemovePhantomBudgetItemsDllDirector.cpp:260-292 | one pass of the pair loop: a department without a budget is skipped; otherwise its budget becomes `Process` of the old one, and in a targeted run the gathered set grows by the types of the items scanned |
| Director.RemovePhantomBudgetItemsDllDirector.constructor | src/RemovePhantomBudgetItemsDllDirector.cpp:156 | the director starts without a budget simulator |
| Director.RemovePhantomBudgetItemsDllDirector.PostCityInit | src/RemovePhantomBudgetItemsDllDirector.cpp:190-196 | a city message captures the city's budget simulator; a message without a city changes nothing |
| Director.RemovePhantomBudgetItemsDllDirector.PostCityShutdown | src/RemovePhantomBudgetItemsDllDirector.cpp:215-217 | city shutdown drops the budget simulator |
| Director.RemovePhantomBudgetItemsDllDirector.ProcessCheatCodes | src/RemovePhantomBudgetItemsDllDirector.cpp:233-334 | the dialog shown and the department budgets afterwards are those `Invoke` gives for the cheat id, the cheat text, whether there is a simulator, and the budgets before |
| Text.Split | src/RemovePhantomBudgetItemsDllDirector.cpp:242 | splitting always yields at least one field |
| Text.JoinSplit | src/RemovePhantomBudgetItemsDllDirector.cpp:242 | splitting loses nothing: joining the fields with the delimiter gives back the text |
| Text.SplitJoin | src/RemovePhantomBudgetItemsDllDirector.cpp:242 | joining delimiter-free fields and splitting again gives back the fields |
| Text.SplitPrefix | src/RemovePhantomBudgetItemsDllDirector.cpp:242 | a delimiter-free prefix becomes the start of the first field |
| Text.SplitFieldsExcludeDelimiter | src/RemovePhantomBudgetItemsDllDirector.cpp:242 | no field contains the delimiter |
| Text.DifferentInitials | src/RemovePhantomBudgetItemsDllDirector.cpp:87-111 | names whose first letters differ ignoring case are never equal ignoring case |
| Text.EqualsIgnoreCaseTransitive | src/RemovePhantomBudgetItemsDllDirector.cpp:87-111 | equality ignoring case is transitive |
| Scenarios.CommandLineSplits | src/RemovePhantomBudgetItemsDllDirector.cpp:241-246 | the cheat's name followed by space-free arguments splits into exactly those words |
| Scenarios.TargetedFireRun | src/RemovePhantomBudgetItemsDllDirector.cpp:233-311 | `RemovePhantomBudgetItems fire` removes the one phantom fire station (not the installed one, not the non-occupant) and its line item, and reports 1 |
| Scenarios.SharedEducationRun | src/RemovePhantomBudgetItemsDllDirector.cpp:284-289 | a phantom school in both education departments is removed from both and reported once |
| Scenarios.ClearAllPowerRun | src/RemovePhantomBudgetItemsDllDirector.cpp:297-300 | `RemovePhantomBudgetItems Power ALL` removes every building occupant (installed or not), keeps the non-occupant, and reports the category cleared |
| Scenarios.UnknownCategoryRun | src/RemovePhantomBudgetItemsDllDirector.cpp:316-322 | `RemovePhantomBudgetItems Atomic` reports the unknown category and changes nothing |
| Scenarios.MissingCategoryRun | src/RemovePhantomBudgetItemsDllDirector.cpp:324-332 | the cheat without a category shows the usage text and changes nothing |
| Scenarios.NoSimulatorRun | src/RemovePhantomBudgetItemsDllDirector.cpp:254 | a known category without a budget simulator shows nothing and changes nothing |
| Removal.DecimalIsCanonical | src/RemovePhantomBudgetItemsDllDirector.cpp:309 | the count printed with `%u` is its canonical decimal text: at least one digit, only digits, no leading zero, denoting the count |
| Scenarios.RemovedMessageText | src/RemovePhantomBudgetItemsDllDirector.cpp:309 | twelve removed building types read "Removed 12 orphaned budget item(s)." |

## Left out

- DLL plumbing is not modelled: `OnStart`, `PostAppInit`, `DoMessage`, `GetDirectorID`, `RZGetCOMDllDirector` and the log file set up in the constructor. These are host event dispatch and I/O, with no logic of the plugin's own.
- Cheat registration is not modelled: `RegisterCheatCode`, `AddNotification2` and their removal in `PostCityInit` and `PostCityShutdown` are host calls with no effect on budgets.
- `GetDllFolderPath` is not modelled; it is module-path I/O.
- `ShowNotificationDialog` is not modelled. Its argument is the returned `Message`, and `MessageText` gives the text.
- `StringViewUtil` is not part of this model. `EqualsIgnoreCase` is modelled as ASCII case folding. `Split` is modelled as splitting on every delimiter and keeping empty fields. Both are the behaviour the handler relies on.
- `cbegin`/`cend` are not modelled separately. They build the same iterators as `begin`/`end`, with a `const` element type, which Dafny does not distinguish.
- `operator->` (`ListIterator.Pointer`) and `operator*` (`ListIterator.Deref`) only return the node's value pointer or value. They carry no contract of their own.
- The reference counting of `cRZAutoRefCount` around the collected occupants is not modelled, and neither is `QueryInterface`'s `AddRef`. An item's answer to the `cISC4BuildingOccupant` query is the `isBuildingOccupant` flag. `AsOccupant()->AsPropertyHolder()` gives back the same item.
- The counted references in `buldingOccupants` live until the end of the department's block (lines 264-292). Reference counting is not modelled.
- Host.DepartmentBudget.RemoveLocallyFundedObject: an item is a value, not an object identity, so the host's removal takes out every equal copy. Its boolean result, which the handler ignores, is not modelled.
- Host.BudgetSimulator.Valid: the value-level contract relies on one budget object per department id. It does not describe a simulator that hands out one object under two ids; processing a pair would then also change the other id's budget, which `Run` leaves as it was.
- Host.BudgetSimulator.GetDepartmentBudget: a host lookup from department id to that department's budget object, or null when the city has none; it has no contract of its own.
- ListContainer.ListNode: `value` is a `const`, because SC4List.h never writes `SC4ListNode::value` after a node is built, though the C++ field is mutable.
- ListContainer.SC4List.PushBack: `SC4List.h` has no insertion. This method stands for the game filling the caller's list inside `GetLocallyFundedItemsByPurpose`. Its contract is the list invariant and the appended value.
- ListContainer.SC4List.Destroy: the calls to `Release()` and `~T()` are returned as a log of `Disposal`s in list order rather than performed. Memory reuse after `Deallocate` is not modelled.
- Removal.MessageText: `Sprintf("%u", …)` of a `size_t` count is modelled by `Decimal` on an unbounded `nat`. The count is at most the number of building types, far below 2^32.
- Concurrency is not modelled; the handler runs to completion inside one host message callback.
