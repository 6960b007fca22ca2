# Rail scheduling: constraint system and spreadsheet readers

This project models the core of a multi-period rail-logistics optimisation model.
Locomotives, wagons and containers are routed through a network of nodes over discrete
time periods. Each rule of the model is a linear relation over one candidate assignment
of the decision variables, and the objective is a weighted sum of wagon moves and
services. Around that core sit two helper modules that read the sets and the parameter
tables from a spreadsheet.

- `sums.dfy` (module `Sums`): finite sums over a sequence of keys (`Sum`) and over the
  periods `0..n` (`SumTo`). It also holds the lemmas they need: congruence, bounds,
  selecting one key, and telescoping a stock that changes by `delta(u)` each period.
- `constraints.dfy` (module `Constraints`) holds the data and rules of
  `Constraints.py`:
  - `Instance`: the sets, and each parameter as a total function over its keys.
  - `Solution`: the decision variables with their domains.
  - One predicate per rule, `LocomotiveBalance` to `WagonMix2`.
  - `Feasible`: every rule over the index sets it is registered on.
  - `Cost`: the objective.
  - Time runs over `0..horizon`, so the first period `t1` is 0 and the last period `tf` is `horizon`.
- `constraint_properties.dfy` (module `ConstraintProperties`) holds what the rules
  promise:
  - the balances unroll to "initial stock plus the net changes so far";
  - an arrival only ever refers to an earlier departure;
  - a leg that is not a feasible route contributes nothing;
  - closing the loop makes the net movement over the horizon zero;
  - the capacity and fleet bounds;
  - the loading bound of one service;
  - a plan that moves nothing satisfies every flow rule and costs nothing.
- `workbook.dfy` (module `Workbook`) holds what both reader files share:
  - a workbook is a sequence of named sheets, each an abstract grid of cells, where `None` is an empty cell;
  - the cell-address conversion;
  - the for-each-sheet loop (`SelectSheet`), proved equal to "the last sheet with that name";
  - nested list comprehensions over index ranges (`Concat`);
  - `dict(zip(keys, values))` (`Zip`, `DictOf`), with its key set, last-wins, consistency and size lemmas.
- `aux_nset.dfy` (module `AuxiliaryFunctions`) models `Auxiliary_Functions.py`: the
  readers whose key is `n_set` consecutive cells of a row.
- `aux_pardim.dfy` (module `AuxiliaryFunctionsParDim`) models `auxiliary_functions.py`:
  the readers whose table shape is `par_dim` `(0, 1)`, `(1, 1)` or `(2, 1)`.

The rule predicates and `Cost` are definitions: they say what the source computes. The
lemmas below state what those definitions guarantee.

Where the code and the design disagree, the model follows the code:
- The two operational limits compare the fleet in the network at period `t` with the
  fleet in the network at the first period. They do not compare it with the owned fleet
  `OL`/`OW` (Constraints.py:79-95). `OL` and `OW` are carried in `Instance` but no rule
  reads them.
- Demand tracking is an inequality: total supply is at most the stock at the
  destination in the last period (Constraints.py:131). It is not an equality.

## Model

| member | source | states |
|---|---|---|
| Constraints.LocomotiveBalance | Constraints.py:17-29 | Definition of `locomotive_balance`; what it guarantees is stated by `LocoStockUnrolled`, `ArrivalsOnlyFromEarlierPeriods` and `FleetStaysPutWithoutRoutes` |
| Constraints.WagonBalance | Constraints.py:31-43 | Definition of `wagon_balance`; stated by `WagonStockUnrolled` and `FleetStaysPutWithoutRoutes` |
| Constraints.ContainerBalance | Constraints.py:45-61 | Definition of `container_balance`; stated by `ContainerStockUnrolled` and `ContainersAccumulateWithoutRoutes` |
| Constraints.CloseTheLoop1 | Constraints.py:63-69 | Definition of `close_the_loop_1`; stated by `NetMovementOverHorizonIsZero` |
| Constraints.CloseTheLoop2 | Constraints.py:71-77 | Definition of `close_the_loop_2`; stated by `NetMovementOverHorizonIsZero` |
| Constraints.OperationalLimit1 | Constraints.py:79-86 | Definition of `operational_limit_1`; stated by `FleetWithinInitialFleet` and `StationedWithinStartingFleet` |
| Constraints.OperationalLimit2 | Constraints.py:88-95 | Definition of `operational_limit_2`; stated by `FleetWithinInitialFleet` and `StationedWithinStartingFleet` |
| Constraints.ServiceLimit | Constraints.py:97-102 | Definition of `service_limit`; stated by `AtMostOneServiceLeaves` and `ServicesAtLeastLocoTypes` |
| Constraints.StorageLimit1 | Constraints.py:104-109 | Definition of `storage_limit_1`; stated by `EachStockWithinNodeCapacity` and `StoredOfTypeBounds` |
| Constraints.StorageLimit2 | Constraints.py:111-116 | Definition of `storage_limit_2`; stated by `EachStockWithinNodeCapacity` |
| Constraints.StorageLimit3 | Constraints.py:118-123 | Definition of `storage_limit_3`; stated by `EachStockWithinNodeCapacity` |
| Constraints.DemandTracking | Constraints.py:125-131 | Definition of `demand_tracking`; stated by `DemandTrackingAtDestination` |
| Constraints.TransportationConstraint | Constraints.py:133-141 | Definition of `transportation_constraint`; stated by `LegLoadWithinServices` and `LegRulesSkippedOnInfeasibleLeg` |
| Constraints.WagonMix1 | Constraints.py:143-153 | Definition of `wagon_mix_1`; stated by `LegLoadWithinServices` and `LegRulesSkippedOnInfeasibleLeg` |
| Constraints.WagonMix2 | Constraints.py:155-166 | Definition of `wagon_mix_2`; stated by `LegLoadWithinServices` and `LegRulesSkippedOnInfeasibleLeg` |
| Constraints.Feasible | Constraints.py:177-255 | Every rule over the index sets it is registered on; stated by `NetMovementOverHorizonIsZero` and `IdlePlanSatisfiesFlowRules` |
| Constraints.Cost | Constraints.py:9-15 | Definition of `objective_rule`; stated by `CostNonNegative` and `CostIgnoresInfeasibleLegs` |
| ConstraintProperties.LocoStockUnrolled | Constraints.py:17-29 | The locomotive balance holds at every period up to `t` exactly when each stock `M[l,i,u]` equals `M_init[l,i]` plus the net change (feasible arrivals less feasible departures) summed over the periods `0..u`, where period 0 is anchored to `M_init` and has departures but no arrivals |
| ConstraintProperties.WagonStockUnrolled | Constraints.py:31-43 | The same for wagons: the wagon balance holds up to `t` exactly when `WS[w,i,u]` equals `WS_init[w,i]` plus the summed net wagon changes |
| ConstraintProperties.ContainerStockUnrolled | Constraints.py:45-61 | The container balance holds up to `t` exactly when each container stock `CS[c,g,d,i,u]` is the sum over periods `0..u` of supply plus feasible arrivals less feasible departures; there is no previous-stock term at period 0 |
| ConstraintProperties.ArrivalsOnlyFromEarlierPeriods | Constraints.py:29 | With positive travel times on feasible legs, the arrivals at `(i, t)` depend only on departures at periods before `t`; the term from `j` is present only when `t >= H[j,i]`, so no negative period is ever read |
| ConstraintProperties.BalancesLookOnlyBackward | Constraints.py:17-61 | With positive travel times, whether any balance holds at `t` depends only on the stocks and on the moves at periods up to `t` |
| ConstraintProperties.DeparturesIgnoreInfeasibleLegs | Constraints.py:23 | Departures from `i` do not depend on the amount sent along a leg that is not a feasible route |
| ConstraintProperties.ArrivalsIgnoreInfeasibleLegs | Constraints.py:29 | Arrivals at `i` do not depend on the amount sent along a leg into `i` that is not a feasible route |
| ConstraintProperties.BalancesIgnoreInfeasibleLegs | Constraints.py:17-61 | Two solutions with the same stocks that agree on every feasible leg satisfy exactly the same locomotive, wagon and container balances |
| ConstraintProperties.NoFlowWithoutFeasibleLegs | Constraints.py:23-29 | With no feasible route anywhere, every departure and arrival sum is 0 |
| ConstraintProperties.FleetStaysPutWithoutRoutes | Constraints.py:17-43 | With no feasible route, the balances force `M[l,i,t] = M_init[l,i]` and `WS[w,i,t] = WS_init[w,i]` at every period |
| ConstraintProperties.ContainersAccumulateWithoutRoutes | Constraints.py:45-61 | With no feasible route, the container stock at `(i, t)` is the supply at `i` summed over periods `0..t` |
| ConstraintProperties.NetMovementOverHorizonIsZero | Constraints.py:63-77 | In a feasible solution, the net locomotive and wagon change at each node, summed over the whole horizon, is zero: closing the loop returns every stock to its initial value |
| ConstraintProperties.DemandTrackingAtDestination | Constraints.py:125-131 | With distinct node names, demand tracking holds exactly when total supply from the origins over all periods is at most the stock at the destination node `d` in the last period, or 0 when `d` is not a node |
| ConstraintProperties.StationedWithinStartingFleet | Constraints.py:79-95 | Under the operational limits at `t`, the stationed wagons and locomotives at `t` are at most the fleet in the network at the first period; at the first period both limits hold with equality |
| ConstraintProperties.LocosInNetworkAtStart | Constraints.py:17-29 | With the first-period locomotive balance at every node, the locomotives of a type departing or stationed at period 0 are exactly the sum of `M_init` over the nodes |
| ConstraintProperties.WagonsInNetworkAtStart | Constraints.py:31-43 | With the first-period wagon balance at every node, the wagons of a type departing or stationed at period 0 are exactly the sum of `WS_init` over the nodes |
| ConstraintProperties.FleetWithinInitialFleet | Constraints.py:79-95 | In a feasible plan, in every period, the locomotives (wagons) of a type departing or stationed, and those stationed alone, are at most the instance's initial fleet, the sum of `M_init` (`WS_init`) over the nodes |
| ConstraintProperties.DeparturesAtLeastLegs | Constraints.py:23 | With non-negative flows, total departures are non-negative and at least the feasible flow on any one or any two distinct legs |
| ConstraintProperties.ServicesAtLeastLocoTypes | Constraints.py:97-102 | The services leaving `i` at `t` count at least the feasible departures of any one or any two distinct locomotive types |
| ConstraintProperties.AtMostOneServiceLeaves | Constraints.py:97-102 | Under the service limit, once one service departs `i` on a feasible leg at `t`, no other (type, destination) pair departs on a feasible leg at the same period |
| ConstraintProperties.StoredOfTypeBounds | Constraints.py:104-109 | One customer-destination container stock is between 0 and the total stock of its container type at the node |
| ConstraintProperties.EachStockWithinNodeCapacity | Constraints.py:104-123 | Under the three storage limits, each single locomotive, wagon and container stock at a node is within that node's capacity `NL`, `NW`, `NC` |
| ConstraintProperties.LegRulesSkippedOnInfeasibleLeg | Constraints.py:133-166 | On a leg with `FR != 1` the transportation rule and both wagon-mix rules are skipped (always hold) |
| ConstraintProperties.ContainersOnLegNonNegative | Constraints.py:151 | The containers of one type on a leg, summed over customers and destinations, are never negative |
| ConstraintProperties.LegLoadWithinServices | Constraints.py:133-166 | On a feasible leg satisfying the transportation and wagon-mix rules, the 20ft plus 40ft containers are at most three per 40/60ft wagon, those wagons are at most `WMAX` times the services, and with no service on the leg no 20ft or 40ft container moves on it and no wagon of any type leaves on it |
| ConstraintProperties.CostIgnoresInfeasibleLegs | Constraints.py:9-15 | The objective does not depend on wagon moves or services on legs that are not feasible routes |
| ConstraintProperties.CostNonNegative | Constraints.py:9-15 | With non-negative wagon and service costs, the objective is non-negative |
| ConstraintProperties.IdlePlanSatisfiesFlowRules | Constraints.py:17-166 | The plan that moves nothing and keeps the initial stocks satisfies every balance, closure, operational, service, transportation and wagon-mix rule at zero cost; it is feasible exactly when the storage limits and demand tracking hold for it |
| Workbook.CellLocConversion | Auxiliary_Functions.py:57 | A 1-based row `n` becomes `n - 1`; a letter becomes its place in the alphabet, 0 to 25, whichever its case |
| Workbook.CellLocRoundTrip | auxiliary_functions.py:59 | Converting the address of 0-based cell `(row, k)` gives back `(row, k)` |
| Workbook.CellLocConversionInjective | Auxiliary_Functions.py:57 | Two letter addresses give the same cell exactly when their rows and their letters up to case agree |
| Workbook.CellLocCaseInsensitive | auxiliary_functions.py:59 | A lower-case column letter gives the same cell as its upper-case form |
| Workbook.LastMatch | Auxiliary_Functions.py:81-86 | No sheet is chosen exactly when no sheet has the name; otherwise the chosen sheet has the name and no later sheet does |
| Workbook.SelectSheet | auxiliary_functions.py:150-155 | The loop over the sheets, where each matching sheet overwrites the result, ends with the last sheet of that name |
| Workbook.DictOfKeys | auxiliary_functions.py:140 | The keys of `dict(pairs)` are exactly the keys of the pairs |
| Workbook.DictOfLastWins | Auxiliary_Functions.py:179 | A pair whose key no later pair repeats gives that key's value: a repeated key keeps its last value |
| Workbook.DictOfConsistent | auxiliary_functions.py:140 | A key all of whose pairs carry the same value maps to that value |
| Workbook.DictOfDistinctKeys | Auxiliary_Functions.py:179 | Pairs with pairwise distinct keys give one entry per pair |
| AuxiliaryFunctions.ReadSetFromExcel | Auxiliary_Functions.py:72-88 | With no sheet of that name the result is unbound; otherwise it is the start-column cell of each row below the header, `end_row - start_row` items |
| AuxiliaryFunctions.RowKeysEqual | Auxiliary_Functions.py:99-171 | Two rows have the same key exactly when their `n_set` key cells, from the start column rightwards, agree one by one; with `n_set == 1` the key is the bare cell |
| AuxiliaryFunctions.ReadParFromExcel | Auxiliary_Functions.py:90-180 | As written, the reader succeeds exactly when `n_set` is 1 to 5, the sheet exists and there are no data rows, and then returns the empty dictionary. It fails with an unbound key list for a bad `n_set` or a missing sheet, and with a NameError on `col` otherwise |
| AuxiliaryFunctions.ParDict | Auxiliary_Functions.py:179 | The dictionary of the data rows has at most `end_row - start_row` entries |
| AuxiliaryFunctions.ReadParFromExcelIntended | Auxiliary_Functions.py:90-180 | The corrected reader fails exactly for a bad `n_set` or a missing sheet, and otherwise returns the dictionary of the last sheet of that name |
| AuxiliaryFunctions.ParDictKeys | Auxiliary_Functions.py:179 | The keys of the dictionary are exactly the keys of the data rows |
| AuxiliaryFunctions.ParDictLastRowWins | Auxiliary_Functions.py:179 | A row whose key no later row repeats maps to its end-column cell, or 0 when that cell is empty |
| AuxiliaryFunctions.ParDictDistinctRows | Auxiliary_Functions.py:179 | Rows with pairwise distinct keys give one entry per data row |
| AuxiliaryFunctions.NodeParameterReadRaises | Auxiliary_Functions.py:107-111 | The call that reads `P` from sheet "1DPar_i", rows 2 to 6 and columns A to B, raises a NameError whenever that sheet exists |
| AuxiliaryFunctions.NodeParameterReadIntended | Auxiliary_Functions.py:99-111 | With the intended value test, that call maps each of the four labels in column A to the cell beside it in column B (0 when empty), given distinct labels |
| AuxiliaryFunctionsParDim.ReadSetFromExcel | auxiliary_functions.py:143-157 | With no sheet of that name the result is unbound; otherwise it is the start-row cells from the start column to the end column inclusive, `end_col - start_col + 1` items |
| AuxiliaryFunctionsParDim.ReadParFromExcel | auxiliary_functions.py:74-141 | The reader fails with an unbound key list exactly for an unknown `par_dim` or a missing sheet; otherwise it returns the header dictionary for `(0, 1)` and the labelled dictionary for `(1, 1)` and `(2, 1)` |
| AuxiliaryFunctionsParDim.HeaderDict | auxiliary_functions.py:83-98 | The `(0, 1)` dictionary, `dict(zip(header cells, values row by row))`; stated by `HeaderDictWithoutDataRows`, `HeaderDictKeys` and `HeaderDictFirstRow` |
| AuxiliaryFunctionsParDim.LabelledDict | auxiliary_functions.py:100-138 | The `(1, 1)` and `(2, 1)` dictionary, `dict(zip(filtered keys column by column, values column by column))`; stated by `LabelledDictKeysFromFilledCells`, `LabelledDictSize` and `LabelledDictLookup` |
| AuxiliaryFunctionsParDim.KeyAtParts | auxiliary_functions.py:122-125 | Two matrix keys are equal exactly when their row labels and their column headers are equal |
| AuxiliaryFunctionsParDim.HeaderDictWithoutDataRows | auxiliary_functions.py:83-98 | With no row below the header, the `(0, 1)` dictionary is empty |
| AuxiliaryFunctionsParDim.HeaderPairsFirstRow | auxiliary_functions.py:88-98 | With a data row, `zip` pairs the `q`-th header with the cell just below it, and later rows are never paired |
| AuxiliaryFunctionsParDim.HeaderDictKeys | auxiliary_functions.py:140 | With a data row, the keys of the `(0, 1)` dictionary are exactly the header cells |
| AuxiliaryFunctionsParDim.HeaderDictFirstRow | auxiliary_functions.py:83-98 | With a data row, a header that no later header repeats maps to the cell directly beneath it in the first data row, or 0 when that cell is empty |
| AuxiliaryFunctionsParDim.LabelledDictKeysFromFilledCells | auxiliary_functions.py:100-131 | Every key of a `(1, 1)`/`(2, 1)` dictionary comes from a cell of the block whose row labels and column header are all non-empty, keyed by those labels and that header |
| AuxiliaryFunctionsParDim.LabelledDictSize | auxiliary_functions.py:112-140 | A labelled dictionary has at most one entry per value cell |
| AuxiliaryFunctionsParDim.LabelColumnsYieldNoKeys | auxiliary_functions.py:103-110 | With the header cells above the label columns empty, the label columns yield no keys |
| AuxiliaryFunctionsParDim.KeyColumnAligned | auxiliary_functions.py:103-110 | With the top-left corner empty and every data row labelled, a column with a header yields one key per data row, in row order |
| AuxiliaryFunctionsParDim.LabelledDictLookup | auxiliary_functions.py:100-140 | With the corner header cells empty, every data row labelled, every value column headed, and labels and headers distinct, the labels of each data row together with each column header map to the value where they cross, 0 when that cell is empty |

## Left out

- Registering the rules with the modelling library (Constraints.py:177-255), the solver call and the writing of results: the model checks a given assignment and computes its cost; it does not search for an optimal one.
- The commented-out `min_prep_time` rule (Constraints.py:168-175): it is not part of the active model.
- Parameters `P`, `tau`, `r`, `u`: no active rule reads them. `OL` and `OW` are carried but unread, as described above.
- Travel times: `Main.py` drops zero travel times from `H`, so lemmas that need a lag of at least one period require `H[j,i] > 0` on every feasible leg (`PositiveTravelTimes`). `H` is otherwise a total function.
- The wagon and container type names "40ft", "60ft" and "20ft" are written into the wagon-mix rules. The lemmas about them require "40ft" and "60ft" to be wagon types.
- ConstraintProperties.LegLoadWithinServices: the wagon-mix rules constrain only the 20ft and 40ft container types (Constraints.py:143-166), so containers of any other type may move on a leg with no service and no wagon; the lemma promises nothing about them.
- Excel numbers are floats in the source and integers here. Costs, capacities and supplies carry no floating-point rounding.
- `result_data_load` in both reader files: it reads solved variable objects of the modelling library.
- Opening the workbook file: a workbook is given as a sequence of sheets, each an abstract grid.
- Reading a cell outside the sheet (the library raises an index error): the grid is total, so such a read is an empty cell. A negative row or column does not raise: the library's cell lists wrap it to the last row or column. A start address in row 0, such as 'A0', converts to row -1, which the readers then use, the `(0, 1)` header read among them (auxiliary_functions.py:74-141). A non-letter column such as '@' converts to column -33. The model reads a separate cell there instead.
- A cell whose type is "blank" rather than "empty" is a cell holding `Text("")`.
- `Workbook.CellLocConversion`: lower-cases ASCII letters only. The source's `lower()` also folds non-ASCII letters, and a column address longer than one character fails there; neither is modelled.
- `AuxiliaryFunctions.ReadParFromExcel`: as written it raises at the first matching sheet that has a data row. The model reports the same error without saying which matching sheet raised it.
- The variable and parameter declarations index containers differently: `CM`/`CS` over the origins `o` (Variables.py:37-50) and supply `S` as `(c, g, i, d, t)` (Parameters.py:72-75). The model follows the indexing the rules use, `S[c, g, d, i, t]` and `CS[c, g, d, i, t]`, over the node set (Constraints.py:45-61).
- AuxiliaryFunctionsParDim.LabelledDictLookup: requires the header cells above the label columns to be empty. When they are filled, the `(1, 1)` and `(2, 1)` readers take keys from the header row itself in every column, and from the label columns too. The values, however, start at the first data row of the first value column (auxiliary_functions.py:103-117, 122-138). `zip` then pairs later keys with values from earlier positions, so a (labels, header) key is not mapped to the cell where they cross. The model reproduces that pairing; no lemma promises a lookup for that layout.
- Dictionary insertion order: the dictionaries are maps, so iteration order is not modelled.
- Constraint.py, constraint.py, Main.py, Parameters.py, Sets.py and Variables.py are not part of this model. The two constraint drafts do not parse. The set and variable declarations are folded into `Instance` and `Solution`.

## Findings

| source | as written | input that shows it | evidently intended | confidence | as-written member | corrected member |
|---|---|---|---|---|---|---|
| Auxiliary_Functions.py:109 (same at 124, 140, 157, 175) | The value list tests `sheet.cell_type(row, col)`, but no `col` is defined in the function or the module. Any call that finds its sheet and has at least one data row raises a NameError | `read_par_from_excel(file, '1DPar_i', (2, 'A'), (6, 'B'), 1)` as called at Main.py:33, on a workbook containing that sheet | Test the cell that is read, `(row, end column)`, and use 0 when it is empty | not executed | AuxiliaryFunctions.NodeParameterReadRaises | AuxiliaryFunctions.NodeParameterReadIntended |
