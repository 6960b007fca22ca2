/** Properties of the rail-scheduling constraint system: how the balance equations
    unroll over the horizon, that arrivals only look back in time, that infeasible legs
    contribute nothing, and what the capacity, service and wagon-mix rules guarantee. */
module ConstraintProperties {
  import opened Sums
  import opened Constraints

  /** Every feasible leg takes at least one period. Zero travel times are dropped when
      the instance data is loaded, so a feasible leg never has `H == 0`. */
  predicate PositiveTravelTimes(inst: Instance)
  {
    forall i, j | i in inst.nodes && j in inst.nodes :: inst.FR(i, j) == 1 ==> inst.H(i, j) >= 1
  }

  /** No leg between two nodes of the instance is feasible. */
  predicate NoFeasibleLegs(inst: Instance)
  {
    forall i, j | i in inst.nodes && j in inst.nodes :: inst.FR(i, j) == 0
  }

  /** Two solutions move the same locomotives, wagons and containers on every feasible leg. */
  ghost predicate AgreeOnFeasibleLegs(inst: Instance, s1: Solution, s2: Solution)
  {
    && (forall l, i, j, t | i in inst.nodes && j in inst.nodes && inst.FR(i, j) == 1 ::
          s1.x(l, i, j, t) == s2.x(l, i, j, t))
    && (forall w, i, j, t | i in inst.nodes && j in inst.nodes && inst.FR(i, j) == 1 ::
          s1.WM(w, i, j, t) == s2.WM(w, i, j, t))
    && (forall c, g, d, i, j, t | i in inst.nodes && j in inst.nodes && inst.FR(i, j) == 1 ::
          s1.CM(c, g, d, i, j, t) == s2.CM(c, g, d, i, j, t))
  }

  // ---------------------------------------------------------------------------------
  // Arrivals look back in time; infeasible legs carry nothing

  /** With positive travel times, arrivals at `t` depend only on departures strictly
      before `t`: the lag guard never reaches a negative or a current period. */
  lemma ArrivalsOnlyFromEarlierPeriods(inst: Instance, i: string, t: nat,
                                       dep1: (string, nat) -> int, dep2: (string, nat) -> int)
    requires PositiveTravelTimes(inst) && i in inst.nodes
    requires forall j, u: nat | j in inst.nodes && u < t :: dep1(j, u) == dep2(j, u)
    ensures Arrivals(inst, i, t, dep1) == Arrivals(inst, i, t, dep2)
  {
    var f1 := j => if t >= inst.H(j, i) then dep1(j, t - inst.H(j, i)) * inst.FR(j, i) else 0;
    var f2 := j => if t >= inst.H(j, i) then dep2(j, t - inst.H(j, i)) * inst.FR(j, i) else 0;
    forall k | 0 <= k < |inst.nodes| ensures f1(inst.nodes[k]) == f2(inst.nodes[k]) {
      var j := inst.nodes[k];
      if t >= inst.H(j, i) && inst.FR(j, i) == 1 {
        assert dep1(j, t - inst.H(j, i)) == dep2(j, t - inst.H(j, i));
      }
    }
    SumCongruent(inst.nodes, f1, f2);
  }

  /** Departures from `i` do not depend on what is sent on infeasible legs. */
  lemma DeparturesIgnoreInfeasibleLegs(inst: Instance, i: string, out1: string -> int, out2: string -> int)
    requires forall j | j in inst.nodes && inst.FR(i, j) == 1 :: out1(j) == out2(j)
    ensures Departures(inst, i, out1) == Departures(inst, i, out2)
  {
    var f1 := j => out1(j) * inst.FR(i, j);
    var f2 := j => out2(j) * inst.FR(i, j);
    forall k | 0 <= k < |inst.nodes| ensures f1(inst.nodes[k]) == f2(inst.nodes[k]) {
    }
    SumCongruent(inst.nodes, f1, f2);
  }

  /** Arrivals at `i` do not depend on what is sent on infeasible legs. */
  lemma ArrivalsIgnoreInfeasibleLegs(inst: Instance, i: string, t: nat,
                                     dep1: (string, nat) -> int, dep2: (string, nat) -> int)
    requires forall j, u: nat | j in inst.nodes && inst.FR(j, i) == 1 :: dep1(j, u) == dep2(j, u)
    ensures Arrivals(inst, i, t, dep1) == Arrivals(inst, i, t, dep2)
  {
    var f1 := j => if t >= inst.H(j, i) then dep1(j, t - inst.H(j, i)) * inst.FR(j, i) else 0;
    var f2 := j => if t >= inst.H(j, i) then dep2(j, t - inst.H(j, i)) * inst.FR(j, i) else 0;
    forall k | 0 <= k < |inst.nodes| ensures f1(inst.nodes[k]) == f2(inst.nodes[k]) {
      var j := inst.nodes[k];
      if t >= inst.H(j, i) && inst.FR(j, i) == 1 {
        assert dep1(j, t - inst.H(j, i)) == dep2(j, t - inst.H(j, i));
      }
    }
    SumCongruent(inst.nodes, f1, f2);
  }

  /** With no feasible leg, nothing leaves or reaches a node. */
  lemma NoFlowWithoutFeasibleLegs(inst: Instance, i: string, t: nat, out: string -> int, dep: (string, nat) -> int)
    requires NoFeasibleLegs(inst) && i in inst.nodes
    ensures Departures(inst, i, out) == 0 && Arrivals(inst, i, t, dep) == 0
  {
    SumOfZeros(inst.nodes, j => out(j) * inst.FR(i, j));
    SumOfZeros(inst.nodes, j => if t >= inst.H(j, i) then dep(j, t - inst.H(j, i)) * inst.FR(j, i) else 0);
  }

  /** Changing movements only on infeasible legs changes no balance equation: every flow
      term of the three balances is gated by the route flag. */
  lemma BalancesIgnoreInfeasibleLegs(inst: Instance, s1: Solution, s2: Solution)
    requires AgreeOnFeasibleLegs(inst, s1, s2)
    requires s1.M == s2.M && s1.WS == s2.WS && s1.CS == s2.CS
    ensures forall l, i, t: nat | i in inst.nodes ::
      LocomotiveBalance(inst, s1, l, i, t) <==> LocomotiveBalance(inst, s2, l, i, t)
    ensures forall w, i, t: nat | i in inst.nodes ::
      WagonBalance(inst, s1, w, i, t) <==> WagonBalance(inst, s2, w, i, t)
    ensures forall c, g, d, i, t: nat | i in inst.nodes ::
      ContainerBalance(inst, s1, c, g, d, i, t) <==> ContainerBalance(inst, s2, c, g, d, i, t)
  {
    forall l, i, t: nat | i in inst.nodes
      ensures LocomotiveBalance(inst, s1, l, i, t) <==> LocomotiveBalance(inst, s2, l, i, t)
    {
      DeparturesIgnoreInfeasibleLegs(inst, i, j => s1.x(l, i, j, t), j => s2.x(l, i, j, t));
      ArrivalsIgnoreInfeasibleLegs(inst, i, t, (j: string, u: nat) => s1.x(l, j, i, u), (j: string, u: nat) => s2.x(l, j, i, u));
    }
    forall w, i, t: nat | i in inst.nodes
      ensures WagonBalance(inst, s1, w, i, t) <==> WagonBalance(inst, s2, w, i, t)
    {
      DeparturesIgnoreInfeasibleLegs(inst, i, j => s1.WM(w, i, j, t), j => s2.WM(w, i, j, t));
      ArrivalsIgnoreInfeasibleLegs(inst, i, t, (j: string, u: nat) => s1.WM(w, j, i, u), (j: string, u: nat) => s2.WM(w, j, i, u));
    }
    forall c, g, d, i, t: nat | i in inst.nodes
      ensures ContainerBalance(inst, s1, c, g, d, i, t) <==> ContainerBalance(inst, s2, c, g, d, i, t)
    {
      DeparturesIgnoreInfeasibleLegs(inst, i, j => s1.CM(c, g, d, i, j, t), j => s2.CM(c, g, d, i, j, t));
      ArrivalsIgnoreInfeasibleLegs(inst, i, t, (j: string, u: nat) => s1.CM(c, g, d, j, i, u),
                                   (j: string, u: nat) => s2.CM(c, g, d, j, i, u));
    }
  }

  /** Balances at `t` depend only on departures before `t` (besides the stocks). */
  lemma BalancesLookOnlyBackward(inst: Instance, s1: Solution, s2: Solution, t: nat)
    requires PositiveTravelTimes(inst)
    requires s1.M == s2.M && s1.WS == s2.WS && s1.CS == s2.CS
    requires forall l, i, j, u: nat | u < t :: s1.x(l, i, j, u) == s2.x(l, i, j, u)
    requires forall w, i, j, u: nat | u < t :: s1.WM(w, i, j, u) == s2.WM(w, i, j, u)
    requires forall c, g, d, i, j, u: nat | u < t :: s1.CM(c, g, d, i, j, u) == s2.CM(c, g, d, i, j, u)
    requires forall l, i, j :: s1.x(l, i, j, t) == s2.x(l, i, j, t)
    requires forall w, i, j :: s1.WM(w, i, j, t) == s2.WM(w, i, j, t)
    requires forall c, g, d, i, j :: s1.CM(c, g, d, i, j, t) == s2.CM(c, g, d, i, j, t)
    ensures forall l, i | i in inst.nodes ::
      LocomotiveBalance(inst, s1, l, i, t) <==> LocomotiveBalance(inst, s2, l, i, t)
    ensures forall w, i | i in inst.nodes ::
      WagonBalance(inst, s1, w, i, t) <==> WagonBalance(inst, s2, w, i, t)
    ensures forall c, g, d, i | i in inst.nodes ::
      ContainerBalance(inst, s1, c, g, d, i, t) <==> ContainerBalance(inst, s2, c, g, d, i, t)
  {
    forall l, i | i in inst.nodes
      ensures LocomotiveBalance(inst, s1, l, i, t) <==> LocomotiveBalance(inst, s2, l, i, t)
    {
      DeparturesIgnoreInfeasibleLegs(inst, i, j => s1.x(l, i, j, t), j => s2.x(l, i, j, t));
      ArrivalsOnlyFromEarlierPeriods(inst, i, t, (j: string, u: nat) => s1.x(l, j, i, u), (j: string, u: nat) => s2.x(l, j, i, u));
    }
    forall w, i | i in inst.nodes
      ensures WagonBalance(inst, s1, w, i, t) <==> WagonBalance(inst, s2, w, i, t)
    {
      DeparturesIgnoreInfeasibleLegs(inst, i, j => s1.WM(w, i, j, t), j => s2.WM(w, i, j, t));
      ArrivalsOnlyFromEarlierPeriods(inst, i, t, (j: string, u: nat) => s1.WM(w, j, i, u), (j: string, u: nat) => s2.WM(w, j, i, u));
    }
    forall c, g, d, i | i in inst.nodes
      ensures ContainerBalance(inst, s1, c, g, d, i, t) <==> ContainerBalance(inst, s2, c, g, d, i, t)
    {
      DeparturesIgnoreInfeasibleLegs(inst, i, j => s1.CM(c, g, d, i, j, t), j => s2.CM(c, g, d, i, j, t));
      ArrivalsOnlyFromEarlierPeriods(inst, i, t, (j: string, u: nat) => s1.CM(c, g, d, j, i, u),
                                     (j: string, u: nat) => s2.CM(c, g, d, j, i, u));
    }
  }

  // ---------------------------------------------------------------------------------
  // The balances unrolled over the horizon

  /** Change in the locomotive stock at `i` in period `t`; period 0 has no arrivals. */
  function LocoNetChange(inst: Instance, sol: Solution, l: string, i: string, t: nat): int
  {
    if t == 0 then -LocoOutflow(inst, sol, l, i, t)
    else LocoInflow(inst, sol, l, i, t) - LocoOutflow(inst, sol, l, i, t)
  }

  /** Change in the wagon stock at `i` in period `t`; period 0 has no arrivals. */
  function WagonNetChange(inst: Instance, sol: Solution, w: string, i: string, t: nat): int
  {
    if t == 0 then -WagonOutflow(inst, sol, w, i, t)
    else WagonInflow(inst, sol, w, i, t) - WagonOutflow(inst, sol, w, i, t)
  }

  /** Change in the container stock at `i` in period `t`: supply, minus departures, plus
      arrivals from period 1 on. */
  function ContainerNetChange(inst: Instance, sol: Solution, c: string, g: string, d: string, i: string, t: nat): int
  {
    if t == 0 then inst.S(c, g, d, i, t) - ContainerOutflow(inst, sol, c, g, d, i, t)
    else inst.S(c, g, d, i, t) - ContainerOutflow(inst, sol, c, g, d, i, t) + ContainerInflow(inst, sol, c, g, d, i, t)
  }

  /** The locomotive balances hold up to `t` exactly when each stock equals `M_init`
      plus the net movements accumulated since period 0. */
  lemma LocoStockUnrolled(inst: Instance, sol: Solution, l: string, i: string, t: nat)
    ensures (forall u: nat | u <= t :: LocomotiveBalance(inst, sol, l, i, u))
        <==> (forall u: nat | u <= t ::
                sol.M(l, i, u) == inst.MInit(l, i) + SumTo(u, (v: nat) => LocoNetChange(inst, sol, l, i, v)))
  {
    var stock := (u: nat) => sol.M(l, i, u);
    var delta := (v: nat) => LocoNetChange(inst, sol, l, i, v);
    TelescopeIff(stock, inst.MInit(l, i), delta, t);
    if forall u: nat | u <= t :: LocomotiveBalance(inst, sol, l, i, u) {
      forall u: nat | u <= t ensures stock(u) == Previous(stock, inst.MInit(l, i), u) + delta(u) {
        assert LocomotiveBalance(inst, sol, l, i, u);
      }
      forall u: nat | u <= t ensures sol.M(l, i, u) == inst.MInit(l, i) + SumTo(u, delta) {
        assert stock(u) == inst.MInit(l, i) + SumTo(u, delta);
      }
    }
    if forall u: nat | u <= t :: sol.M(l, i, u) == inst.MInit(l, i) + SumTo(u, delta) {
      forall u: nat | u <= t ensures stock(u) == inst.MInit(l, i) + SumTo(u, delta) {
        assert sol.M(l, i, u) == inst.MInit(l, i) + SumTo(u, delta);
      }
      forall u: nat | u <= t ensures LocomotiveBalance(inst, sol, l, i, u) {
        assert stock(u) == Previous(stock, inst.MInit(l, i), u) + delta(u);
      }
    }
  }

  /** The wagon balances hold up to `t` exactly when each stock equals `WS_init` plus
      the net movements accumulated since period 0. */
  lemma WagonStockUnrolled(inst: Instance, sol: Solution, w: string, i: string, t: nat)
    ensures (forall u: nat | u <= t :: WagonBalance(inst, sol, w, i, u))
        <==> (forall u: nat | u <= t ::
                sol.WS(w, i, u) == inst.WSInit(w, i) + SumTo(u, (v: nat) => WagonNetChange(inst, sol, w, i, v)))
  {
    var stock := (u: nat) => sol.WS(w, i, u);
    var delta := (v: nat) => WagonNetChange(inst, sol, w, i, v);
    TelescopeIff(stock, inst.WSInit(w, i), delta, t);
    if forall u: nat | u <= t :: WagonBalance(inst, sol, w, i, u) {
      forall u: nat | u <= t ensures stock(u) == Previous(stock, inst.WSInit(w, i), u) + delta(u) {
        assert WagonBalance(inst, sol, w, i, u);
      }
      forall u: nat | u <= t ensures sol.WS(w, i, u) == inst.WSInit(w, i) + SumTo(u, delta) {
        assert stock(u) == inst.WSInit(w, i) + SumTo(u, delta);
      }
    }
    if forall u: nat | u <= t :: sol.WS(w, i, u) == inst.WSInit(w, i) + SumTo(u, delta) {
      forall u: nat | u <= t ensures stock(u) == inst.WSInit(w, i) + SumTo(u, delta) {
        assert sol.WS(w, i, u) == inst.WSInit(w, i) + SumTo(u, delta);
      }
      forall u: nat | u <= t ensures WagonBalance(inst, sol, w, i, u) {
        assert stock(u) == Previous(stock, inst.WSInit(w, i), u) + delta(u);
      }
    }
  }

  /** The container balances hold up to `t` exactly when each stock equals the supply
      and net movements accumulated since period 0: there is no initial container stock. */
  lemma ContainerStockUnrolled(inst: Instance, sol: Solution, c: string, g: string, d: string, i: string, t: nat)
    ensures (forall u: nat | u <= t :: ContainerBalance(inst, sol, c, g, d, i, u))
        <==> (forall u: nat | u <= t ::
                sol.CS(c, g, d, i, u) == SumTo(u, (v: nat) => ContainerNetChange(inst, sol, c, g, d, i, v)))
  {
    var stock := (u: nat) => sol.CS(c, g, d, i, u);
    var delta := (v: nat) => ContainerNetChange(inst, sol, c, g, d, i, v);
    TelescopeIff(stock, 0, delta, t);
    if forall u: nat | u <= t :: ContainerBalance(inst, sol, c, g, d, i, u) {
      forall u: nat | u <= t ensures stock(u) == Previous(stock, 0, u) + delta(u) {
        assert ContainerBalance(inst, sol, c, g, d, i, u);
      }
      forall u: nat | u <= t ensures sol.CS(c, g, d, i, u) == 0 + SumTo(u, delta) {
        assert stock(u) == 0 + SumTo(u, delta);
      }
    }
    if forall u: nat | u <= t :: sol.CS(c, g, d, i, u) == 0 + SumTo(u, delta) {
      forall u: nat | u <= t ensures stock(u) == 0 + SumTo(u, delta) {
        assert sol.CS(c, g, d, i, u) == 0 + SumTo(u, delta);
      }
      forall u: nat | u <= t ensures ContainerBalance(inst, sol, c, g, d, i, u) {
        assert stock(u) == Previous(stock, 0, u) + delta(u);
      }
    }
  }

  /** Closing the loop makes the net locomotive and wagon movements at every node over
      the whole horizon cancel out. */
  lemma NetMovementOverHorizonIsZero(inst: Instance, sol: Solution, l: string, w: string, i: string)
    requires Feasible(inst, sol)
    requires l in inst.locoTypes && w in inst.wagonTypes && i in inst.nodes
    ensures SumTo(inst.horizon, (v: nat) => LocoNetChange(inst, sol, l, i, v)) == 0
    ensures SumTo(inst.horizon, (v: nat) => WagonNetChange(inst, sol, w, i, v)) == 0
  {
    LocoStockUnrolled(inst, sol, l, i, inst.horizon);
    WagonStockUnrolled(inst, sol, w, i, inst.horizon);
    assert CloseTheLoop1(inst, sol, l, i) && CloseTheLoop2(inst, sol, w, i);
  }

  /** Without feasible legs the balances pin every locomotive and wagon stock to its
      initial value in every period. */
  lemma {:induction false} FleetStaysPutWithoutRoutes(inst: Instance, sol: Solution, l: string, w: string, i: string, t: nat)
    requires NoFeasibleLegs(inst) && i in inst.nodes
    requires forall u: nat | u <= t :: LocomotiveBalance(inst, sol, l, i, u)
    requires forall u: nat | u <= t :: WagonBalance(inst, sol, w, i, u)
    ensures sol.M(l, i, t) == inst.MInit(l, i)
    ensures sol.WS(w, i, t) == inst.WSInit(w, i)
    decreases t
  {
    NoFlowWithoutFeasibleLegs(inst, i, t, j => sol.x(l, i, j, t), (j: string, u: nat) => sol.x(l, j, i, u));
    NoFlowWithoutFeasibleLegs(inst, i, t, j => sol.WM(w, i, j, t), (j: string, u: nat) => sol.WM(w, j, i, u));
    assert LocomotiveBalance(inst, sol, l, i, t) && WagonBalance(inst, sol, w, i, t);
    if t > 0 {
      FleetStaysPutWithoutRoutes(inst, sol, l, w, i, t - 1);
    }
  }

  /** Without feasible legs the container stock at a node is the supply accumulated there. */
  lemma {:induction false} ContainersAccumulateWithoutRoutes(inst: Instance, sol: Solution,
                                                             c: string, g: string, d: string, i: string, t: nat)
    requires NoFeasibleLegs(inst) && i in inst.nodes
    requires forall u: nat | u <= t :: ContainerBalance(inst, sol, c, g, d, i, u)
    ensures sol.CS(c, g, d, i, t) == SumTo(t, (u: nat) => inst.S(c, g, d, i, u))
    decreases t
  {
    NoFlowWithoutFeasibleLegs(inst, i, t, j => sol.CM(c, g, d, i, j, t), (j: string, u: nat) => sol.CM(c, g, d, j, i, u));
    assert ContainerBalance(inst, sol, c, g, d, i, t);
    if t > 0 {
      ContainersAccumulateWithoutRoutes(inst, sol, c, g, d, i, t - 1);
    }
  }

  // ---------------------------------------------------------------------------------
  // End of horizon: demand, fleet limit

  /** Demand tracking compares the supply of (c, g, d) with the stock at the node named
      `d` in the last period; when no node is named `d` the stock side is empty, so the
      rule then forbids any supply. */
  lemma DemandTrackingAtDestination(inst: Instance, sol: Solution, c: string, g: string, d: string)
    requires Distinct(inst.nodes)
    ensures DemandTracking(inst, sol, c, g, d)
        <==> TotalSupply(inst, c, g, d) <= (if d in inst.nodes then sol.CS(c, g, d, d, inst.horizon) else 0)
  {
    SumSelect(inst.nodes, d, i => if i == d then sol.CS(c, g, d, i, inst.horizon) else 0);
  }

  /** Departures of non-negative counts are non-negative, and at least what is sent on
      any one leg, or on any two distinct legs together. */
  lemma DeparturesAtLeastLegs(inst: Instance, i: string, out: string -> int, j1: string, j2: string)
    requires forall j :: out(j) >= 0
    ensures Departures(inst, i, out) >= 0
    ensures j1 in inst.nodes ==> Departures(inst, i, out) >= out(j1) * inst.FR(i, j1)
    ensures j1 in inst.nodes && j2 in inst.nodes && j1 != j2 ==>
      Departures(inst, i, out) >= out(j1) * inst.FR(i, j1) + out(j2) * inst.FR(i, j2)
  {
    var leg := j => out(j) * inst.FR(i, j);
    forall k | 0 <= k < |inst.nodes| ensures leg(inst.nodes[k]) >= 0 {
      if inst.FR(i, inst.nodes[k]) == 1 {
        assert leg(inst.nodes[k]) == out(inst.nodes[k]);
      }
    }
    SumNonNegative(inst.nodes, leg);
    if j1 in inst.nodes {
      var q1 :| 0 <= q1 < |inst.nodes| && inst.nodes[q1] == j1;
      SumAtLeastTerm(inst.nodes, leg, q1);
      if j2 in inst.nodes && j1 != j2 {
        var q2 :| 0 <= q2 < |inst.nodes| && inst.nodes[q2] == j2;
        if q1 < q2 {
          SumAtLeastTwoTerms(inst.nodes, leg, q1, q2);
        } else {
          SumAtLeastTwoTerms(inst.nodes, leg, q2, q1);
        }
      }
    }
  }

  /** The operational limits bound the stationed fleet in every period by the fleet
      counted in period 0, and they hold with equality in period 0 itself. */
  lemma StationedWithinStartingFleet(inst: Instance, sol: Solution, w: string, l: string, t: nat)
    requires OperationalLimit1(inst, sol, w, t) && OperationalLimit2(inst, sol, l, t)
    ensures Sum(inst.nodes, i => sol.WS(w, i, t)) <= WagonsInNetwork(inst, sol, w, 0)
    ensures Sum(inst.nodes, i => sol.M(l, i, t)) <= LocosInNetwork(inst, sol, l, 0)
    ensures OperationalLimit1(inst, sol, w, 0) && OperationalLimit2(inst, sol, l, 0)
  {
    forall k | 0 <= k < |inst.nodes|
      ensures Departures(inst, inst.nodes[k], j => sol.WM(w, inst.nodes[k], j, t)) >= 0
      ensures Departures(inst, inst.nodes[k], j => sol.x(l, inst.nodes[k], j, t)) >= 0
    {
      DeparturesAtLeastLegs(inst, inst.nodes[k], j => sol.WM(w, inst.nodes[k], j, t), "", "");
      DeparturesAtLeastLegs(inst, inst.nodes[k], j => sol.x(l, inst.nodes[k], j, t), "", "");
    }
    SumNonNegative(inst.nodes, i => Departures(inst, i, j => sol.WM(w, i, j, t)));
    SumNonNegative(inst.nodes, i => Departures(inst, i, j => sol.x(l, i, j, t)));
  }

  /** With the period-0 balance at every node, the locomotives of type `l` counted in
      the network at period 0 are exactly the initial fleet `M_init[l, i]` over the nodes. */
  lemma LocosInNetworkAtStart(inst: Instance, sol: Solution, l: string)
    requires forall i | i in inst.nodes :: LocomotiveBalance(inst, sol, l, i, 0)
    ensures LocosInNetwork(inst, sol, l, 0) == Sum(inst.nodes, i => inst.MInit(l, i))
  {
    forall k | 0 <= k < |inst.nodes|
      ensures Departures(inst, inst.nodes[k], j => sol.x(l, inst.nodes[k], j, 0)) + sol.M(l, inst.nodes[k], 0)
        == inst.MInit(l, inst.nodes[k])
    {
      assert LocomotiveBalance(inst, sol, l, inst.nodes[k], 0);
    }
    SumSplit(inst.nodes, i => Departures(inst, i, j => sol.x(l, i, j, 0)), i => sol.M(l, i, 0),
             i => inst.MInit(l, i));
  }

  /** The wagon counterpart: at period 0 the wagons of type `w` in the network are
      exactly the initial fleet `WS_init[w, i]` over the nodes. */
  lemma WagonsInNetworkAtStart(inst: Instance, sol: Solution, w: string)
    requires forall i | i in inst.nodes :: WagonBalance(inst, sol, w, i, 0)
    ensures WagonsInNetwork(inst, sol, w, 0) == Sum(inst.nodes, i => inst.WSInit(w, i))
  {
    forall k | 0 <= k < |inst.nodes|
      ensures Departures(inst, inst.nodes[k], j => sol.WM(w, inst.nodes[k], j, 0)) + sol.WS(w, inst.nodes[k], 0)
        == inst.WSInit(w, inst.nodes[k])
    {
      assert WagonBalance(inst, sol, w, inst.nodes[k], 0);
    }
    SumSplit(inst.nodes, i => Departures(inst, i, j => sol.WM(w, i, j, 0)), i => sol.WS(w, i, 0),
             i => inst.WSInit(w, i));
  }

  /** In a feasible plan the operational limits cap the fleet in every period by the
      initial fleet of the instance: the locomotives (wagons) of one type that are
      departing or stationed, and those stationed alone, never exceed the sum of
      `M_init` (`WS_init`) over the nodes. */
  lemma FleetWithinInitialFleet(inst: Instance, sol: Solution, l: string, w: string, t: nat)
    requires Feasible(inst, sol)
    requires l in inst.locoTypes && w in inst.wagonTypes && t <= inst.horizon
    ensures LocosInNetwork(inst, sol, l, t) <= Sum(inst.nodes, i => inst.MInit(l, i))
    ensures WagonsInNetwork(inst, sol, w, t) <= Sum(inst.nodes, i => inst.WSInit(w, i))
    ensures Sum(inst.nodes, i => sol.M(l, i, t)) <= Sum(inst.nodes, i => inst.MInit(l, i))
    ensures Sum(inst.nodes, i => sol.WS(w, i, t)) <= Sum(inst.nodes, i => inst.WSInit(w, i))
  {
    LocosInNetworkAtStart(inst, sol, l);
    WagonsInNetworkAtStart(inst, sol, w);
    assert OperationalLimit1(inst, sol, w, t) && OperationalLimit2(inst, sol, l, t);
    StationedWithinStartingFleet(inst, sol, w, l, t);
  }

  // ---------------------------------------------------------------------------------
  // Per node and period: one service, storage capacities

  /** Services leaving `i` over all loco types are at least the departures of any one
      loco type, or of two distinct loco types together. */
  lemma ServicesAtLeastLocoTypes(inst: Instance, sol: Solution, i: string, t: nat, l1: string, l2: string)
    requires l1 in inst.locoTypes
    ensures ServicesLeaving(inst, sol, i, t) >= Departures(inst, i, j => sol.x(l1, i, j, t))
    ensures l2 in inst.locoTypes && l1 != l2 ==>
      ServicesLeaving(inst, sol, i, t)
        >= Departures(inst, i, j => sol.x(l1, i, j, t)) + Departures(inst, i, j => sol.x(l2, i, j, t))
  {
    var dep := l => Departures(inst, i, j => sol.x(l, i, j, t));
    forall k | 0 <= k < |inst.locoTypes| ensures dep(inst.locoTypes[k]) >= 0 {
      DeparturesAtLeastLegs(inst, i, j => sol.x(inst.locoTypes[k], i, j, t), "", "");
    }
    var p1 :| 0 <= p1 < |inst.locoTypes| && inst.locoTypes[p1] == l1;
    SumAtLeastTerm(inst.locoTypes, dep, p1);
    if l2 in inst.locoTypes && l1 != l2 {
      var p2 :| 0 <= p2 < |inst.locoTypes| && inst.locoTypes[p2] == l2;
      if p1 < p2 {
        SumAtLeastTwoTerms(inst.locoTypes, dep, p1, p2);
      } else {
        SumAtLeastTwoTerms(inst.locoTypes, dep, p2, p1);
      }
    }
  }

  /** Under the service limit, once one service of some loco type leaves `i` on a
      feasible leg at `t`, no other (loco type, destination) pair departs there then. */
  lemma AtMostOneServiceLeaves(inst: Instance, sol: Solution, i: string, t: nat,
                               l1: string, j1: string, l2: string, j2: string)
    requires ServiceLimit(inst, sol, i, t)
    requires l1 in inst.locoTypes && l2 in inst.locoTypes && j1 in inst.nodes && j2 in inst.nodes
    requires l1 != l2 || j1 != j2
    requires inst.FR(i, j1) == 1 && sol.x(l1, i, j1, t) == 1
    ensures inst.FR(i, j2) == 0 || sol.x(l2, i, j2, t) == 0
  {
    ServicesAtLeastLocoTypes(inst, sol, i, t, l1, l2);
    DeparturesAtLeastLegs(inst, i, j => sol.x(l1, i, j, t), j1, j2);
    DeparturesAtLeastLegs(inst, i, j => sol.x(l2, i, j, t), j2, j1);
    if inst.FR(i, j2) == 1 {
      assert sol.x(l2, i, j2, t) * inst.FR(i, j2) == sol.x(l2, i, j2, t);
    }
  }

  /** Every (customer, destination) container stock at a node is within the count of
      its container type stationed there. */
  lemma StoredOfTypeBounds(inst: Instance, sol: Solution, c: string, g: string, d: string, i: string, t: nat)
    requires g in inst.customers && d in inst.destinations
    ensures 0 <= sol.CS(c, g, d, i, t) <= StoredOfType(inst, sol, c, i, t)
  {
    forall g' ensures StoredForCustomer(inst, sol, c, g', i, t) >= 0 {
      SumNonNegative(inst.destinations, d' => sol.CS(c, g', d', i, t));
    }
    var pd :| 0 <= pd < |inst.destinations| && inst.destinations[pd] == d;
    SumAtLeastTerm(inst.destinations, d' => sol.CS(c, g, d', i, t), pd);
    var pg :| 0 <= pg < |inst.customers| && inst.customers[pg] == g;
    SumAtLeastTerm(inst.customers, g' => StoredForCustomer(inst, sol, c, g', i, t), pg);
  }

  /** The node storage limits bound every single stock they sum: each locomotive type,
      each wagon type, and each (container type, customer, destination) stock at `i`. */
  lemma EachStockWithinNodeCapacity(inst: Instance, sol: Solution, i: string, t: nat,
                                    l: string, w: string, c: string, g: string, d: string)
    requires StorageLimit1(inst, sol, i, t) && StorageLimit2(inst, sol, i, t) && StorageLimit3(inst, sol, i, t)
    requires l in inst.locoTypes && w in inst.wagonTypes
    requires c in inst.containerTypes && g in inst.customers && d in inst.destinations
    ensures sol.M(l, i, t) <= inst.NL(i)
    ensures sol.WS(w, i, t) <= inst.NW(i)
    ensures sol.CS(c, g, d, i, t) <= inst.NC(i)
  {
    var pl :| 0 <= pl < |inst.locoTypes| && inst.locoTypes[pl] == l;
    SumAtLeastTerm(inst.locoTypes, l' => sol.M(l', i, t), pl);
    var pw :| 0 <= pw < |inst.wagonTypes| && inst.wagonTypes[pw] == w;
    SumAtLeastTerm(inst.wagonTypes, w' => sol.WS(w', i, t), pw);
    forall c' ensures StoredOfType(inst, sol, c', i, t) >= 0 {
      forall g' ensures StoredForCustomer(inst, sol, c', g', i, t) >= 0 {
        SumNonNegative(inst.destinations, d' => sol.CS(c', g', d', i, t));
      }
      SumNonNegative(inst.customers, g' => StoredForCustomer(inst, sol, c', g', i, t));
    }
    StoredOfTypeBounds(inst, sol, c, g, d, i, t);
    var pc :| 0 <= pc < |inst.containerTypes| && inst.containerTypes[pc] == c;
    SumAtLeastTerm(inst.containerTypes, c' => StoredOfType(inst, sol, c', i, t), pc);
  }

  // ---------------------------------------------------------------------------------
  // Services and wagon mix on a leg

  /** Rules registered per leg are skipped on a leg that is not a feasible route. */
  lemma LegRulesSkippedOnInfeasibleLeg(inst: Instance, sol: Solution, i: string, j: string, t: nat)
    requires inst.FR(i, j) != 1
    ensures TransportationConstraint(inst, sol, i, j, t)
    ensures WagonMix1(inst, sol, i, j, t) && WagonMix2(inst, sol, i, j, t)
  {
  }

  /** Container counts on a leg are non-negative. */
  lemma ContainersOnLegNonNegative(inst: Instance, sol: Solution, c: string, i: string, j: string, t: nat)
    ensures ContainersOnLeg(inst, sol, c, i, j, t) >= 0
  {
    forall g ensures MovingForCustomer(inst, sol, c, g, i, j, t) >= 0 {
      SumNonNegative(inst.destinations, d => sol.CM(c, g, d, i, j, t));
    }
    SumNonNegative(inst.customers, g => MovingForCustomer(inst, sol, c, g, i, j, t));
  }

  /** On a feasible leg the wagon-mix rules fit all 20ft and 40ft containers into three
      slots per 40ft or 60ft wagon, and the transportation rule fits those wagons into
      `WMAX` per departing service. With no service on the leg, no wagon of any type
      leaves on it and no 20ft or 40ft container moves on it. */
  lemma LegLoadWithinServices(inst: Instance, sol: Solution, i: string, j: string, t: nat)
    requires "40ft" in inst.wagonTypes && "60ft" in inst.wagonTypes
    requires inst.FR(i, j) == 1
    requires TransportationConstraint(inst, sol, i, j, t)
    requires WagonMix1(inst, sol, i, j, t) && WagonMix2(inst, sol, i, j, t)
    ensures ContainersOnLeg(inst, sol, "20ft", i, j, t) + ContainersOnLeg(inst, sol, "40ft", i, j, t)
        <= 3 * (sol.WM("60ft", i, j, t) + sol.WM("40ft", i, j, t))
    ensures sol.WM("60ft", i, j, t) + sol.WM("40ft", i, j, t)
        <= Sum(inst.locoTypes, l => sol.x(l, i, j, t)) * inst.WMAX
    ensures Sum(inst.locoTypes, l => sol.x(l, i, j, t)) == 0 ==>
      && ContainersOnLeg(inst, sol, "20ft", i, j, t) == 0
      && ContainersOnLeg(inst, sol, "40ft", i, j, t) == 0
      && sol.WM("60ft", i, j, t) == 0 && sol.WM("40ft", i, j, t) == 0
      && (forall w | w in inst.wagonTypes :: sol.WM(w, i, j, t) == 0)
  {
    forall w | w in inst.wagonTypes ensures sol.WM(w, i, j, t) <= Sum(inst.wagonTypes, w' => sol.WM(w', i, j, t)) {
      var p :| 0 <= p < |inst.wagonTypes| && inst.wagonTypes[p] == w;
      SumAtLeastTerm(inst.wagonTypes, w' => sol.WM(w', i, j, t), p);
    }
    ContainersOnLegNonNegative(inst, sol, "20ft", i, j, t);
    ContainersOnLegNonNegative(inst, sol, "40ft", i, j, t);
    var p40 :| 0 <= p40 < |inst.wagonTypes| && inst.wagonTypes[p40] == "40ft";
    var p60 :| 0 <= p60 < |inst.wagonTypes| && inst.wagonTypes[p60] == "60ft";
    assert p40 != p60;
    if p40 < p60 {
      SumAtLeastTwoTerms(inst.wagonTypes, w => sol.WM(w, i, j, t), p40, p60);
    } else {
      SumAtLeastTwoTerms(inst.wagonTypes, w => sol.WM(w, i, j, t), p60, p40);
    }
  }

  // ---------------------------------------------------------------------------------
  // The objective

  /** Two solutions that agree on every feasible leg cost the same: the objective only
      sums over feasible routes. */
  lemma CostIgnoresInfeasibleLegs(inst: Instance, s1: Solution, s2: Solution)
    requires AgreeOnFeasibleLegs(inst, s1, s2)
    ensures Cost(inst, s1) == Cost(inst, s2)
  {
    forall t: nat ensures WagonCost(inst, s1, t) == WagonCost(inst, s2, t) {
      forall w ensures WagonCostOfType(inst, s1, w, t) == WagonCostOfType(inst, s2, w, t) {
        forall k | 0 <= k < |inst.nodes|
          ensures WagonCostFrom(inst, s1, w, inst.nodes[k], t) == WagonCostFrom(inst, s2, w, inst.nodes[k], t)
        {
          var i := inst.nodes[k];
          SumCongruent(inst.nodes, j => if inst.FR(i, j) == 1 then inst.VC(w, i, j) * s1.WM(w, i, j, t) else 0,
                                   j => if inst.FR(i, j) == 1 then inst.VC(w, i, j) * s2.WM(w, i, j, t) else 0);
        }
        SumCongruent(inst.nodes, i => WagonCostFrom(inst, s1, w, i, t), i => WagonCostFrom(inst, s2, w, i, t));
      }
      SumCongruent(inst.wagonTypes, w => WagonCostOfType(inst, s1, w, t), w => WagonCostOfType(inst, s2, w, t));
    }
    forall t: nat ensures ServiceCost(inst, s1, t) == ServiceCost(inst, s2, t) {
      forall l ensures ServiceCostOfType(inst, s1, l, t) == ServiceCostOfType(inst, s2, l, t) {
        forall k | 0 <= k < |inst.nodes|
          ensures ServiceCostFrom(inst, s1, l, inst.nodes[k], t) == ServiceCostFrom(inst, s2, l, inst.nodes[k], t)
        {
          var i := inst.nodes[k];
          SumCongruent(inst.nodes, j => if inst.FR(i, j) == 1 then inst.FC(l, i, j) * s1.x(l, i, j, t) else 0,
                                   j => if inst.FR(i, j) == 1 then inst.FC(l, i, j) * s2.x(l, i, j, t) else 0);
        }
        SumCongruent(inst.nodes, i => ServiceCostFrom(inst, s1, l, i, t), i => ServiceCostFrom(inst, s2, l, i, t));
      }
      SumCongruent(inst.locoTypes, l => ServiceCostOfType(inst, s1, l, t), l => ServiceCostOfType(inst, s2, l, t));
    }
    SumToCongruent(inst.horizon, (t: nat) => WagonCost(inst, s1, t), (t: nat) => WagonCost(inst, s2, t));
    SumToCongruent(inst.horizon, (t: nat) => ServiceCost(inst, s1, t), (t: nat) => ServiceCost(inst, s2, t));
  }

  /** With non-negative unit costs the objective is non-negative. */
  lemma CostNonNegative(inst: Instance, sol: Solution)
    requires forall w, i, j :: inst.VC(w, i, j) >= 0
    requires forall l, i, j :: inst.FC(l, i, j) >= 0
    ensures Cost(inst, sol) >= 0
  {
    forall t: nat ensures WagonCost(inst, sol, t) >= 0 && ServiceCost(inst, sol, t) >= 0 {
      forall w, i ensures WagonCostFrom(inst, sol, w, i, t) >= 0 {
        SumNonNegative(inst.nodes, j => if inst.FR(i, j) == 1 then inst.VC(w, i, j) * sol.WM(w, i, j, t) else 0);
      }
      forall w ensures WagonCostOfType(inst, sol, w, t) >= 0 {
        SumNonNegative(inst.nodes, i => WagonCostFrom(inst, sol, w, i, t));
      }
      SumNonNegative(inst.wagonTypes, w => WagonCostOfType(inst, sol, w, t));
      forall l, i ensures ServiceCostFrom(inst, sol, l, i, t) >= 0 {
        SumNonNegative(inst.nodes, j => if inst.FR(i, j) == 1 then inst.FC(l, i, j) * sol.x(l, i, j, t) else 0);
      }
      forall l ensures ServiceCostOfType(inst, sol, l, t) >= 0 {
        SumNonNegative(inst.nodes, i => ServiceCostFrom(inst, sol, l, i, t));
      }
      SumNonNegative(inst.locoTypes, l => ServiceCostOfType(inst, sol, l, t));
    }
    SumToNonNegative(inst.horizon, (t: nat) => WagonCost(inst, sol, t));
    SumToNonNegative(inst.horizon, (t: nat) => ServiceCost(inst, sol, t));
  }

  // ---------------------------------------------------------------------------------
  // The plan that runs no service

  /** The supply of (c, g, d) injected at `i` over the periods `0..t`, as a count. */
  function SuppliedSoFar(inst: Instance, c: string, g: string, d: string, i: string, t: nat): nat
  {
    var supply: nat -> int := (u: nat) => inst.S(c, g, d, i, u) as int;
    assert forall u: nat :: supply(u) == inst.S(c, g, d, i, u) >= 0;
    SumToNonNegative(t, supply);
    SumTo(t, supply)
  }

  /** Nothing sent on any leg: nothing departs. */
  lemma DeparturesOfNothing(inst: Instance, i: string, out: string -> int)
    requires forall j :: out(j) == 0
    ensures Departures(inst, i, out) == 0
  {
    SumOfZeros(inst.nodes, j => out(j) * inst.FR(i, j));
  }

  /** Nothing sent in any period: nothing arrives. */
  lemma ArrivalsOfNothing(inst: Instance, i: string, t: nat, dep: (string, nat) -> int)
    requires forall j, u: nat :: dep(j, u) == 0
    ensures Arrivals(inst, i, t, dep) == 0
  {
    SumOfZeros(inst.nodes, j => if t >= inst.H(j, i) then dep(j, t - inst.H(j, i)) * inst.FR(j, i) else 0);
  }

  /** No service runs; locomotives and wagons stay where they start and containers pile
      up where they are supplied. */
  function IdlePlan(inst: Instance): Solution
  {
    Solution(
      (l: string, i: string, j: string, t: nat) => 0,
      (l: string, i: string, t: nat) => inst.MInit(l, i),
      (w: string, i: string, j: string, t: nat) => 0,
      (w: string, i: string, t: nat) => inst.WSInit(w, i),
      (c: string, g: string, d: string, i: string, j: string, t: nat) => 0,
      (c: string, g: string, d: string, i: string, t: nat) => SuppliedSoFar(inst, c, g, d, i, t))
  }

  /** Running no service satisfies every balance, closure, fleet, service, transport and
      wagon-mix rule at no cost, so the plan is feasible exactly when the initial fleet and
      the accumulated supply fit the storage limits and the supply is already at the
      destinations: the rule set is never contradictory by itself. */
  lemma IdlePlanSatisfiesFlowRules(inst: Instance)
    ensures var sol := IdlePlan(inst);
      && (forall l, i, t: nat :: LocomotiveBalance(inst, sol, l, i, t))
      && (forall w, i, t: nat :: WagonBalance(inst, sol, w, i, t))
      && (forall c, g, d, i, t: nat :: ContainerBalance(inst, sol, c, g, d, i, t))
      && (forall l, i :: CloseTheLoop1(inst, sol, l, i))
      && (forall w, i :: CloseTheLoop2(inst, sol, w, i))
      && (forall w, t: nat :: OperationalLimit1(inst, sol, w, t))
      && (forall l, t: nat :: OperationalLimit2(inst, sol, l, t))
      && (forall i, t: nat :: ServiceLimit(inst, sol, i, t))
      && (forall i, j, t: nat :: TransportationConstraint(inst, sol, i, j, t))
      && (forall i, j, t: nat :: WagonMix1(inst, sol, i, j, t) && WagonMix2(inst, sol, i, j, t))
      && Cost(inst, sol) == 0
    ensures var sol := IdlePlan(inst);
      Feasible(inst, sol) <==>
        && (forall i, t: nat | i in inst.nodes && t <= inst.horizon ::
              StorageLimit1(inst, sol, i, t) && StorageLimit2(inst, sol, i, t) && StorageLimit3(inst, sol, i, t))
        && (forall c, g, d | c in inst.containerTypes && g in inst.customers && d in inst.destinations ::
              DemandTracking(inst, sol, c, g, d))
  {
    var sol := IdlePlan(inst);
    forall l, i, t: nat ensures LocomotiveBalance(inst, sol, l, i, t) {
      DeparturesOfNothing(inst, i, j => sol.x(l, i, j, t));
      ArrivalsOfNothing(inst, i, t, (j: string, u: nat) => sol.x(l, j, i, u));
    }
    forall w, i, t: nat ensures WagonBalance(inst, sol, w, i, t) {
      DeparturesOfNothing(inst, i, j => sol.WM(w, i, j, t));
      ArrivalsOfNothing(inst, i, t, (j: string, u: nat) => sol.WM(w, j, i, u));
    }
    forall c, g, d, i, t: nat ensures ContainerBalance(inst, sol, c, g, d, i, t) {
      DeparturesOfNothing(inst, i, j => sol.CM(c, g, d, i, j, t));
      ArrivalsOfNothing(inst, i, t, (j: string, u: nat) => sol.CM(c, g, d, j, i, u));
    }
    forall w, t: nat ensures WagonsInNetwork(inst, sol, w, t) == WagonsInNetwork(inst, sol, w, 0) {
      forall k | 0 <= k < |inst.nodes|
        ensures Departures(inst, inst.nodes[k], j => sol.WM(w, inst.nodes[k], j, t)) == 0
        ensures Departures(inst, inst.nodes[k], j => sol.WM(w, inst.nodes[k], j, 0)) == 0
      {
        DeparturesOfNothing(inst, inst.nodes[k], j => sol.WM(w, inst.nodes[k], j, t));
        DeparturesOfNothing(inst, inst.nodes[k], j => sol.WM(w, inst.nodes[k], j, 0));
      }
      SumOfZeros(inst.nodes, i => Departures(inst, i, j => sol.WM(w, i, j, t)));
      SumOfZeros(inst.nodes, i => Departures(inst, i, j => sol.WM(w, i, j, 0)));
      SumCongruent(inst.nodes, i => sol.WS(w, i, t), i => sol.WS(w, i, 0));
    }
    forall l, t: nat ensures LocosInNetwork(inst, sol, l, t) == LocosInNetwork(inst, sol, l, 0) {
      forall k | 0 <= k < |inst.nodes|
        ensures Departures(inst, inst.nodes[k], j => sol.x(l, inst.nodes[k], j, t)) == 0
        ensures Departures(inst, inst.nodes[k], j => sol.x(l, inst.nodes[k], j, 0)) == 0
      {
        DeparturesOfNothing(inst, inst.nodes[k], j => sol.x(l, inst.nodes[k], j, t));
        DeparturesOfNothing(inst, inst.nodes[k], j => sol.x(l, inst.nodes[k], j, 0));
      }
      SumOfZeros(inst.nodes, i => Departures(inst, i, j => sol.x(l, i, j, t)));
      SumOfZeros(inst.nodes, i => Departures(inst, i, j => sol.x(l, i, j, 0)));
      SumCongruent(inst.nodes, i => sol.M(l, i, t), i => sol.M(l, i, 0));
    }
    forall i, t: nat ensures ServiceLimit(inst, sol, i, t) {
      forall k | 0 <= k < |inst.locoTypes|
        ensures Departures(inst, i, j => sol.x(inst.locoTypes[k], i, j, t)) == 0
      {
        DeparturesOfNothing(inst, i, j => sol.x(inst.locoTypes[k], i, j, t));
      }
      SumOfZeros(inst.locoTypes, l => Departures(inst, i, j => sol.x(l, i, j, t)));
    }
    forall i, j, t: nat
      ensures TransportationConstraint(inst, sol, i, j, t)
      ensures WagonMix1(inst, sol, i, j, t) && WagonMix2(inst, sol, i, j, t)
    {
      SumOfZeros(inst.locoTypes, l => sol.x(l, i, j, t));
      SumOfZeros(inst.wagonTypes, w => sol.WM(w, i, j, t));
      forall c, g ensures MovingForCustomer(inst, sol, c, g, i, j, t) == 0 {
        SumOfZeros(inst.destinations, d => sol.CM(c, g, d, i, j, t));
      }
      SumOfZeros(inst.customers, g => MovingForCustomer(inst, sol, "20ft", g, i, j, t));
      SumOfZeros(inst.customers, g => MovingForCustomer(inst, sol, "40ft", g, i, j, t));
    }
    forall t: nat ensures WagonCost(inst, sol, t) == 0 && ServiceCost(inst, sol, t) == 0 {
      forall w, i ensures WagonCostFrom(inst, sol, w, i, t) == 0 {
        SumOfZeros(inst.nodes, j => if inst.FR(i, j) == 1 then inst.VC(w, i, j) * sol.WM(w, i, j, t) else 0);
      }
      forall w ensures WagonCostOfType(inst, sol, w, t) == 0 {
        SumOfZeros(inst.nodes, i => WagonCostFrom(inst, sol, w, i, t));
      }
      SumOfZeros(inst.wagonTypes, w => WagonCostOfType(inst, sol, w, t));
      forall l, i ensures ServiceCostFrom(inst, sol, l, i, t) == 0 {
        SumOfZeros(inst.nodes, j => if inst.FR(i, j) == 1 then inst.FC(l, i, j) * sol.x(l, i, j, t) else 0);
      }
      forall l ensures ServiceCostOfType(inst, sol, l, t) == 0 {
        SumOfZeros(inst.nodes, i => ServiceCostFrom(inst, sol, l, i, t));
      }
      SumOfZeros(inst.locoTypes, l => ServiceCostOfType(inst, sol, l, t));
    }
    SumToOfZeros(inst.horizon, (t: nat) => WagonCost(inst, sol, t));
    SumToOfZeros(inst.horizon, (t: nat) => ServiceCost(inst, sol, t));
  }
}
