/** The rail-scheduling constraint system: a time-expanded multi-commodity network flow
    over locomotives, wagons and containers. Each rule of the optimisation model becomes a
    predicate that evaluates a candidate solution of an instance; `Feasible` is their
    conjunction over the index sets the rules are registered on, and `Cost` is the
    objective that the solver minimises. */
module Constraints {
  import opened Sums

  /** A binary value: a route flag or a service decision. */
  type Bit = b: nat | b <= 1

  /** The sets and parameters of one problem instance. Nodes serve as both the `i` and
      the `j` set. Time periods are `0..horizon`, so the first period `t1` is 0 and the
      last period `tf` is `horizon`. Parameters are total functions over their keys. */
  datatype Instance = Instance(
    customers: seq<string>,          // g
    nodes: seq<string>,              // i, j
    origins: seq<string>,            // o
    destinations: seq<string>,       // d
    locoTypes: seq<string>,          // l
    containerTypes: seq<string>,     // c
    wagonTypes: seq<string>,         // w
    horizon: nat,                    // t in 0..horizon
    FR: (string, string) -> Bit,     // FR[i, j]: leg i -> j is a feasible route
    H: (string, string) -> nat,      // H[i, j]: periods a service takes from i to j
    FC: (string, string, string) -> int,  // FC[l, i, j]: fixed cost of a service
    VC: (string, string, string) -> int,  // VC[w, i, j]: cost of moving one wagon
    OL: string -> int,               // OL[l]: locomotives owned
    OW: string -> int,               // OW[w]: wagons owned
    NC: string -> int,               // NC[i]: container storage at a node
    NL: string -> int,               // NL[i]: locomotive storage at a node
    NW: string -> int,               // NW[i]: wagon storage at a node
    WMAX: int,                       // maximum wagons on one service
    S: (string, string, string, string, nat) -> nat,  // S[c, g, d, i, t]: supply
    MInit: (string, string) -> nat,  // M_init[l, i]: locomotives at i before period 0
    WSInit: (string, string) -> nat  // WS_init[w, i]: wagons at i before period 0
  )

  /** One assignment of every decision variable, with the variables' domains. */
  datatype Solution = Solution(
    x: (string, string, string, nat) -> Bit,    // x[l, i, j, t]: service of loco type l leaves i for j at t
    M: (string, string, nat) -> nat,            // M[l, i, t]: locomotives stationed at i
    WM: (string, string, string, nat) -> nat,   // WM[w, i, j, t]: wagons leaving i for j at t
    WS: (string, string, nat) -> nat,           // WS[w, i, t]: wagons stationed at i
    CM: (string, string, string, string, string, nat) -> nat,  // CM[c, g, d, i, j, t]: containers moving
    CS: (string, string, string, string, nat) -> nat           // CS[c, g, d, i, t]: containers stationed
  )

  /** Units that leave node `i` in one period: `out(j)` units towards each `j`, counted
      only on a feasible leg (weighted by `FR[i, j]`). */
  function Departures(inst: Instance, i: string, out: string -> int): int
  {
    Sum(inst.nodes, j => out(j) * inst.FR(i, j))
  }

  /** Units that reach node `i` in period `t`: those that left each `j` at `t - H[j, i]`,
      counted only on a feasible leg and only when that departure period is not before
      period 0. `dep(j, u)` is the number that left `j` for `i` at period `u`. */
  function Arrivals(inst: Instance, i: string, t: nat, dep: (string, nat) -> int): int
  {
    Sum(inst.nodes, j => if t >= inst.H(j, i) then dep(j, t - inst.H(j, i)) * inst.FR(j, i) else 0)
  }

  function LocoOutflow(inst: Instance, sol: Solution, l: string, i: string, t: nat): int
  {
    Departures(inst, i, j => sol.x(l, i, j, t))
  }

  function LocoInflow(inst: Instance, sol: Solution, l: string, i: string, t: nat): int
  {
    Arrivals(inst, i, t, (j: string, u: nat) => sol.x(l, j, i, u))
  }

  function WagonOutflow(inst: Instance, sol: Solution, w: string, i: string, t: nat): int
  {
    Departures(inst, i, j => sol.WM(w, i, j, t))
  }

  function WagonInflow(inst: Instance, sol: Solution, w: string, i: string, t: nat): int
  {
    Arrivals(inst, i, t, (j: string, u: nat) => sol.WM(w, j, i, u))
  }

  function ContainerOutflow(inst: Instance, sol: Solution, c: string, g: string, d: string, i: string, t: nat): int
  {
    Departures(inst, i, j => sol.CM(c, g, d, i, j, t))
  }

  function ContainerInflow(inst: Instance, sol: Solution, c: string, g: string, d: string, i: string, t: nat): int
  {
    Arrivals(inst, i, t, (j: string, u: nat) => sol.CM(c, g, d, j, i, u))
  }

  /** Locomotive balance at node `i`: period 0 starts from `M_init` and has no arrivals;
      every later period carries over the previous stock and adds arrivals. */
  predicate LocomotiveBalance(inst: Instance, sol: Solution, l: string, i: string, t: nat)
  {
    if t == 0 then
      sol.M(l, i, t) == inst.MInit(l, i) - LocoOutflow(inst, sol, l, i, t)
    else
      sol.M(l, i, t) == sol.M(l, i, t - 1) - LocoOutflow(inst, sol, l, i, t) + LocoInflow(inst, sol, l, i, t)
  }

  /** Wagon balance at node `i`, the same shape as the locomotive balance. */
  predicate WagonBalance(inst: Instance, sol: Solution, w: string, i: string, t: nat)
  {
    if t == 0 then
      sol.WS(w, i, t) == inst.WSInit(w, i) - WagonOutflow(inst, sol, w, i, t)
    else
      sol.WS(w, i, t) == sol.WS(w, i, t - 1) - WagonOutflow(inst, sol, w, i, t) + WagonInflow(inst, sol, w, i, t)
  }

  /** Container balance per type, customer, destination and node: supply enters the
      stock directly every period; period 0 has no previous stock and no arrivals. */
  predicate ContainerBalance(inst: Instance, sol: Solution, c: string, g: string, d: string, i: string, t: nat)
  {
    if t == 0 then
      sol.CS(c, g, d, i, t) == inst.S(c, g, d, i, t) - ContainerOutflow(inst, sol, c, g, d, i, t)
    else
      sol.CS(c, g, d, i, t) == sol.CS(c, g, d, i, t - 1) + inst.S(c, g, d, i, t)
        - ContainerOutflow(inst, sol, c, g, d, i, t) + ContainerInflow(inst, sol, c, g, d, i, t)
  }

  /** Locomotives are back at their starting nodes in the last period. */
  predicate CloseTheLoop1(inst: Instance, sol: Solution, l: string, i: string)
  {
    inst.MInit(l, i) == sol.M(l, i, inst.horizon)
  }

  /** Wagons are back at their starting nodes in the last period. */
  predicate CloseTheLoop2(inst: Instance, sol: Solution, w: string, i: string)
  {
    inst.WSInit(w, i) == sol.WS(w, i, inst.horizon)
  }

  /** Wagons of type `w` departing on feasible legs in period `t` plus those stationed. */
  function WagonsInNetwork(inst: Instance, sol: Solution, w: string, t: nat): int
  {
    Sum(inst.nodes, i => Departures(inst, i, j => sol.WM(w, i, j, t)))
      + Sum(inst.nodes, i => sol.WS(w, i, t))
  }

  /** Locomotives of type `l` departing on feasible legs in period `t` plus those stationed. */
  function LocosInNetwork(inst: Instance, sol: Solution, l: string, t: nat): int
  {
    Sum(inst.nodes, i => Departures(inst, i, j => sol.x(l, i, j, t)))
      + Sum(inst.nodes, i => sol.M(l, i, t))
  }

  /** The wagons in the network at `t` never exceed those in the network at period 0. */
  predicate OperationalLimit1(inst: Instance, sol: Solution, w: string, t: nat)
  {
    WagonsInNetwork(inst, sol, w, t) <= WagonsInNetwork(inst, sol, w, 0)
  }

  /** The locomotives in the network at `t` never exceed those at period 0. */
  predicate OperationalLimit2(inst: Instance, sol: Solution, l: string, t: nat)
  {
    LocosInNetwork(inst, sol, l, t) <= LocosInNetwork(inst, sol, l, 0)
  }

  /** Services leaving node `i` at `t` on feasible legs, over all loco types. */
  function ServicesLeaving(inst: Instance, sol: Solution, i: string, t: nat): int
  {
    Sum(inst.locoTypes, l => Departures(inst, i, j => sol.x(l, i, j, t)))
  }

  /** At most one service leaves a node in a period. */
  predicate ServiceLimit(inst: Instance, sol: Solution, i: string, t: nat)
  {
    ServicesLeaving(inst, sol, i, t) <= 1
  }

  /** Containers of type `c` for customer `g`, over all destinations, stationed at `i`. */
  function StoredForCustomer(inst: Instance, sol: Solution, c: string, g: string, i: string, t: nat): int
  {
    Sum(inst.destinations, d => sol.CS(c, g, d, i, t))
  }

  /** Containers of type `c`, over all customers and destinations, stationed at `i`. */
  function StoredOfType(inst: Instance, sol: Solution, c: string, i: string, t: nat): int
  {
    Sum(inst.customers, g => StoredForCustomer(inst, sol, c, g, i, t))
  }

  /** Containers of every type, customer and destination stationed at `i` at `t`. */
  function ContainersStored(inst: Instance, sol: Solution, i: string, t: nat): int
  {
    Sum(inst.containerTypes, c => StoredOfType(inst, sol, c, i, t))
  }

  predicate StorageLimit1(inst: Instance, sol: Solution, i: string, t: nat)
  {
    ContainersStored(inst, sol, i, t) <= inst.NC(i)
  }

  predicate StorageLimit2(inst: Instance, sol: Solution, i: string, t: nat)
  {
    Sum(inst.locoTypes, l => sol.M(l, i, t)) <= inst.NL(i)
  }

  predicate StorageLimit3(inst: Instance, sol: Solution, i: string, t: nat)
  {
    Sum(inst.wagonTypes, w => sol.WS(w, i, t)) <= inst.NW(i)
  }

  /** Supply of (c, g, d) injected at the origin nodes over the whole horizon. */
  function TotalSupply(inst: Instance, c: string, g: string, d: string): int
  {
    Sum(inst.origins, i => SumTo(inst.horizon, (t: nat) => inst.S(c, g, d, i, t)))
  }

  /** All supply of (c, g, d) is in stock at the destination node `d` in the last period:
      the right-hand side sums the stock over the nodes that equal `d`. */
  predicate DemandTracking(inst: Instance, sol: Solution, c: string, g: string, d: string)
  {
    TotalSupply(inst, c, g, d)
      <= Sum(inst.nodes, i => if i == d then sol.CS(c, g, d, i, inst.horizon) else 0)
  }

  /** Containers of type `c` for customer `g`, over all destinations, moving on leg i -> j. */
  function MovingForCustomer(inst: Instance, sol: Solution, c: string, g: string, i: string, j: string, t: nat): int
  {
    Sum(inst.destinations, d => sol.CM(c, g, d, i, j, t))
  }

  /** Containers of type `c` moving on leg i -> j at `t`, over customers and destinations. */
  function ContainersOnLeg(inst: Instance, sol: Solution, c: string, i: string, j: string, t: nat): int
  {
    Sum(inst.customers, g => MovingForCustomer(inst, sol, c, g, i, j, t))
  }

  /** On a feasible leg, at most `WMAX` wagons per departing service; skipped otherwise. */
  predicate TransportationConstraint(inst: Instance, sol: Solution, i: string, j: string, t: nat)
  {
    inst.FR(i, j) == 1 ==>
      Sum(inst.locoTypes, l => sol.x(l, i, j, t)) * inst.WMAX >= Sum(inst.wagonTypes, w => sol.WM(w, i, j, t))
  }

  /** On a feasible leg, every 40ft container needs a 40ft or a 60ft wagon. */
  predicate WagonMix1(inst: Instance, sol: Solution, i: string, j: string, t: nat)
  {
    inst.FR(i, j) == 1 ==>
      sol.WM("60ft", i, j, t) + sol.WM("40ft", i, j, t) >= ContainersOnLeg(inst, sol, "40ft", i, j, t)
  }

  /** On a feasible leg, the 20ft containers fit in the wagon space the 40ft containers
      leave: a 60ft wagon has three 20ft slots, a 40ft wagon two, a 40ft container uses two. */
  predicate WagonMix2(inst: Instance, sol: Solution, i: string, j: string, t: nat)
  {
    inst.FR(i, j) == 1 ==>
      3 * sol.WM("60ft", i, j, t) + 2 * sol.WM("40ft", i, j, t) - 2 * ContainersOnLeg(inst, sol, "40ft", i, j, t)
        >= ContainersOnLeg(inst, sol, "20ft", i, j, t)
  }

  /** Every rule, over the index sets it is registered on. */
  predicate Feasible(inst: Instance, sol: Solution)
  {
    && (forall l, i, t | l in inst.locoTypes && i in inst.nodes && 0 <= t <= inst.horizon ::
          LocomotiveBalance(inst, sol, l, i, t))
    && (forall w, i, t | w in inst.wagonTypes && i in inst.nodes && 0 <= t <= inst.horizon ::
          WagonBalance(inst, sol, w, i, t))
    && (forall c, g, d, i, t | c in inst.containerTypes && g in inst.customers && d in inst.destinations
          && i in inst.nodes && 0 <= t <= inst.horizon :: ContainerBalance(inst, sol, c, g, d, i, t))
    && (forall l, i | l in inst.locoTypes && i in inst.nodes :: CloseTheLoop1(inst, sol, l, i))
    && (forall w, i | w in inst.wagonTypes && i in inst.nodes :: CloseTheLoop2(inst, sol, w, i))
    && (forall w, t | w in inst.wagonTypes && 0 <= t <= inst.horizon :: OperationalLimit1(inst, sol, w, t))
    && (forall l, t | l in inst.locoTypes && 0 <= t <= inst.horizon :: OperationalLimit2(inst, sol, l, t))
    && (forall i, t | i in inst.nodes && 0 <= t <= inst.horizon :: ServiceLimit(inst, sol, i, t))
    && (forall i, t | i in inst.nodes && 0 <= t <= inst.horizon :: StorageLimit1(inst, sol, i, t))
    && (forall i, t | i in inst.nodes && 0 <= t <= inst.horizon :: StorageLimit2(inst, sol, i, t))
    && (forall i, t | i in inst.nodes && 0 <= t <= inst.horizon :: StorageLimit3(inst, sol, i, t))
    && (forall c, g, d | c in inst.containerTypes && g in inst.customers && d in inst.destinations ::
          DemandTracking(inst, sol, c, g, d))
    && (forall i, j, t | i in inst.nodes && j in inst.nodes && 0 <= t <= inst.horizon ::
          TransportationConstraint(inst, sol, i, j, t))
    && (forall i, j, t | i in inst.nodes && j in inst.nodes && 0 <= t <= inst.horizon ::
          WagonMix1(inst, sol, i, j, t))
    && (forall i, j, t | i in inst.nodes && j in inst.nodes && 0 <= t <= inst.horizon ::
          WagonMix2(inst, sol, i, j, t))
  }

  /** Cost of the wagons of type `w` leaving `i` at `t`, over feasible legs only. */
  function WagonCostFrom(inst: Instance, sol: Solution, w: string, i: string, t: nat): int
  {
    Sum(inst.nodes, j => if inst.FR(i, j) == 1 then inst.VC(w, i, j) * sol.WM(w, i, j, t) else 0)
  }

  function WagonCostOfType(inst: Instance, sol: Solution, w: string, t: nat): int
  {
    Sum(inst.nodes, i => WagonCostFrom(inst, sol, w, i, t))
  }

  /** Wagon movement cost in period `t`. */
  function WagonCost(inst: Instance, sol: Solution, t: nat): int
  {
    Sum(inst.wagonTypes, w => WagonCostOfType(inst, sol, w, t))
  }

  /** Cost of the services of loco type `l` leaving `i` at `t`, over feasible legs only. */
  function ServiceCostFrom(inst: Instance, sol: Solution, l: string, i: string, t: nat): int
  {
    Sum(inst.nodes, j => if inst.FR(i, j) == 1 then inst.FC(l, i, j) * sol.x(l, i, j, t) else 0)
  }

  function ServiceCostOfType(inst: Instance, sol: Solution, l: string, t: nat): int
  {
    Sum(inst.nodes, i => ServiceCostFrom(inst, sol, l, i, t))
  }

  /** Fixed service cost in period `t`. */
  function ServiceCost(inst: Instance, sol: Solution, t: nat): int
  {
    Sum(inst.locoTypes, l => ServiceCostOfType(inst, sol, l, t))
  }

  /** The objective: wagon costs plus service costs over every period. */
  function Cost(inst: Instance, sol: Solution): int
  {
    SumTo(inst.horizon, (t: nat) => WagonCost(inst, sol, t)) + SumTo(inst.horizon, (t: nat) => ServiceCost(inst, sol, t))
  }
}
