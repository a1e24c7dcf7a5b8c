/** The agent-based evacuation simulator (src/qra_system/evacuation_simulation.py).  Each agent
    waits out its pre-movement time, walks a fixed step toward its nearest exit every half
    second, and is evacuated once it is within one metre of that exit; agents still inside at
    600 s are censored at 600 s.  The random draws of the source are inputs here. */
module Evacuation {
  import opened Numerics
  import opened Samples

  /** One evacuee. */
  datatype Agent = Agent(
    id: int,
    x: real,
    y: real,
    speed: real,
    preMovementTime: real,
    exitReached: bool,
    evacuationTime: real)

  /** An exit; the capacity (persons per second) is carried but not used by the movement. */
  datatype Exit = Exit(id: int, x: real, y: real, capacity: real)

  /** The rectangular floor plan and its exits. */
  datatype Building = Building(width: real, height: real, exits: seq<Exit>)

  /** The values the source samples for one agent: a position, a speed before the lower cut at
      0.3 m/s, and a pre-movement time. */
  datatype Draw = Draw(x: real, y: real, speedSample: real, preMovementTime: real)

  /** What one run reports. */
  datatype SimulationResult = SimulationResult(
    evacuationTimes: seq<real>,
    meanEvacuationTime: real,
    maxEvacuationTime: real,
    minEvacuationTime: real,
    numEvacuated: nat,
    numTotal: nat)

  const TimeStep: real := 0.5
  const MaxTime: real := 600.0
  /** Speeds below this are raised to it when agents are created. */
  const MinSpeed: real := 0.3
  /** An agent closer than this to its exit has reached it. */
  const ArrivalDistance: real := 1.0
  /** Number of time steps that fit before MaxTime. */
  const StepCount: nat := 1200

  // ---------------------------------------------------------------- initialisation

  /** The agent created from a draw: not evacuated, time 0, speed max(0.3, sample). */
  function NewAgent(id: int, d: Draw): (a: Agent)
    ensures a.id == id && a.x == d.x && a.y == d.y && a.preMovementTime == d.preMovementTime
    ensures MinSpeed <= a.speed && (a.speed == MinSpeed || a.speed == d.speedSample)
    ensures d.speedSample <= a.speed
    ensures !a.exitReached && a.evacuationTime == 0.0
  {
    var speed := if d.speedSample > MinSpeed then d.speedSample else MinSpeed;
    Agent(id, d.x, d.y, speed, d.preMovementTime, false, 0.0)
  }

  function InitialAgents(draws: seq<Draw>): (r: seq<Agent>)
    ensures |r| == |draws|
    ensures forall i :: 0 <= i < |draws| ==> r[i] == NewAgent(i, draws[i])
  {
    seq(|draws|, i requires 0 <= i < |draws| => NewAgent(i, draws[i]))
  }

  /** Created agents have ids 0..n-1 in order, speed at least 0.3, and none is evacuated. */
  lemma InitialAgentsWellFormed(draws: seq<Draw>)
    ensures var r := InitialAgents(draws);
            && AllAgentsInv(r)
            && (forall i :: 0 <= i < |r| ==> r[i].id == i && !r[i].exitReached)
            && CountEvacuated(r) == 0
  {
    var r := InitialAgents(draws);
    NoneEvacuatedCount(r);
  }

  // ---------------------------------------------------------------- nearest exit

  function ExitDistance(sqrt: real -> real, x: real, y: real, e: Exit): real {
    sqrt(Sq(x - e.x) + Sq(y - e.y))
  }

  /** Index k is the first exit among the first n whose distance from (x, y) is smallest. */
  ghost predicate IsNearestAmong(exits: seq<Exit>, n: nat, sqrt: real -> real, x: real, y: real, k: nat) {
    && k < n <= |exits|
    && (forall j :: 0 <= j < n ==> ExitDistance(sqrt, x, y, exits[k]) <= ExitDistance(sqrt, x, y, exits[j]))
    && (forall j :: 0 <= j < k ==> ExitDistance(sqrt, x, y, exits[k]) < ExitDistance(sqrt, x, y, exits[j]))
  }

  /** The nearest exit among the first n, ties going to the earliest. */
  function NearestAmong(exits: seq<Exit>, n: nat, sqrt: real -> real, x: real, y: real): (k: nat)
    requires 0 < n <= |exits|
    ensures IsNearestAmong(exits, n, sqrt, x, y, k)
  {
    if n == 1 then 0
    else
      var k := NearestAmong(exits, n - 1, sqrt, x, y);
      if ExitDistance(sqrt, x, y, exits[n - 1]) < ExitDistance(sqrt, x, y, exits[k]) then n - 1 else k
  }

  function NearestExitIndex(exits: seq<Exit>, sqrt: real -> real, x: real, y: real): (k: nat)
    requires 0 < |exits|
    ensures IsNearestAmong(exits, |exits|, sqrt, x, y, k)
  {
    NearestAmong(exits, |exits|, sqrt, x, y)
  }

  /** There is only one first nearest exit. */
  lemma NearestUnique(exits: seq<Exit>, n: nat, sqrt: real -> real, x: real, y: real, k1: nat, k2: nat)
    requires IsNearestAmong(exits, n, sqrt, x, y, k1) && IsNearestAmong(exits, n, sqrt, x, y, k2)
    ensures k1 == k2
  {
    var d1, d2 := ExitDistance(sqrt, x, y, exits[k1]), ExitDistance(sqrt, x, y, exits[k2]);
    assert d1 <= d2 && d2 <= d1;
  }

  /** Extending the range by exit n: the new exit takes over only when strictly nearer. */
  lemma NearestAmongStep(exits: seq<Exit>, n: nat, sqrt: real -> real, x: real, y: real, k: nat)
    requires n < |exits| && IsNearestAmong(exits, n, sqrt, x, y, k)
    ensures ExitDistance(sqrt, x, y, exits[n]) < ExitDistance(sqrt, x, y, exits[k]) ==>
              IsNearestAmong(exits, n + 1, sqrt, x, y, n)
    ensures ExitDistance(sqrt, x, y, exits[k]) <= ExitDistance(sqrt, x, y, exits[n]) ==>
              IsNearestAmong(exits, n + 1, sqrt, x, y, k)
  {
  }

  // ---------------------------------------------------------------- one agent step

  /** _move_agent on a value: an evacuated or still waiting agent is left alone; one within a
      metre of its nearest exit is evacuated at `t`; otherwise it walks min(speed * step, d)
      straight toward that exit. */
  function MoveAgentSpec(exits: seq<Exit>, sqrt: real -> real, a: Agent, t: real): Agent
    requires 0 < |exits|
  {
    if a.exitReached || t < a.preMovementTime then a
    else
      var e := exits[NearestExitIndex(exits, sqrt, a.x, a.y)];
      var dx := e.x - a.x;
      var dy := e.y - a.y;
      var distance := sqrt(Sq(dx) + Sq(dy));
      if distance < ArrivalDistance then a.(exitReached := true, evacuationTime := t)
      else
        var moveDistance := if a.speed * TimeStep > distance then distance else a.speed * TimeStep;
        MoveToward(a, e, distance, moveDistance)
  }

  /** The agent displaced by `moveDistance` along the unit vector toward `e`, which lies
      `distance` away. */
  function MoveToward(a: Agent, e: Exit, distance: real, moveDistance: real): Agent
    requires distance != 0.0
  {
    var dx := e.x - a.x;
    var dy := e.y - a.y;
    a.(x := a.x + (dx / distance) * moveDistance, y := a.y + (dy / distance) * moveDistance)
  }

  /** An evacuated agent, and one whose pre-movement time has not yet passed, do not change. */
  lemma MoveAgentNoChange(exits: seq<Exit>, sqrt: real -> real, a: Agent, t: real)
    requires 0 < |exits|
    requires a.exitReached || t < a.preMovementTime
    ensures MoveAgentSpec(exits, sqrt, a, t) == a
  {
  }

  /** A step only ever evacuates an agent at the current time, and only after its pre-movement
      time; it never changes identity, speed or pre-movement time, and never un-evacuates. */
  lemma MoveAgentArrival(exits: seq<Exit>, sqrt: real -> real, a: Agent, t: real)
    requires 0 < |exits|
    ensures var b := MoveAgentSpec(exits, sqrt, a, t);
            && SameIdentity(a, b)
            && (a.exitReached ==> b == a)
            && (!a.exitReached && b.exitReached ==>
                  a.preMovementTime <= t && b.evacuationTime == t && b.x == a.x && b.y == a.y)
            && (!a.exitReached && a.preMovementTime <= t &&
                ExitDistance(sqrt, a.x, a.y, exits[NearestExitIndex(exits, sqrt, a.x, a.y)]) < ArrivalDistance
                ==> b.exitReached && b.evacuationTime == t)
  {
    var e := exits[NearestExitIndex(exits, sqrt, a.x, a.y)];
    DistanceSymmetric(sqrt, a.x, a.y, e);
  }

  /** The distance the step measures, from the agent to the exit, is ExitDistance. */
  lemma DistanceSymmetric(sqrt: real -> real, x: real, y: real, e: Exit)
    ensures sqrt(Sq(e.x - x) + Sq(e.y - y)) == ExitDistance(sqrt, x, y, e)
  {
    SquareSymmetric(x, e.x);
    SquareSymmetric(y, e.y);
  }

  lemma SquareSymmetric(u: real, v: real)
    ensures Sq(u - v) == Sq(v - u)
  {
  }

  /** A moving agent covers exactly min(speed * step, d) of its distance d to the target exit,
      so its new distance is d minus that and never negative: it does not overshoot. */
  lemma MoveAgentAdvance(exits: seq<Exit>, sqrt: real -> real, a: Agent, t: real)
    requires 0 < |exits| && IsSqrtFn(sqrt)
    requires 0.0 <= a.speed
    requires !a.exitReached && a.preMovementTime <= t
    requires ExitDistance(sqrt, a.x, a.y, exits[NearestExitIndex(exits, sqrt, a.x, a.y)]) >= ArrivalDistance
    ensures var e := exits[NearestExitIndex(exits, sqrt, a.x, a.y)];
            var d := ExitDistance(sqrt, a.x, a.y, e);
            var step := if a.speed * TimeStep > d then d else a.speed * TimeStep;
            var b := MoveAgentSpec(exits, sqrt, a, t);
            && !b.exitReached
            && 0.0 <= step <= d
            && ExitDistance(sqrt, b.x, b.y, e) == d - step
            && 0.0 <= ExitDistance(sqrt, b.x, b.y, e)
  {
    var e := exits[NearestExitIndex(exits, sqrt, a.x, a.y)];
    DistanceSymmetric(sqrt, a.x, a.y, e);
    var d := sqrt(Sq(e.x - a.x) + Sq(e.y - a.y));
    var step := if a.speed * TimeStep > d then d else a.speed * TimeStep;
    var b := MoveAgentSpec(exits, sqrt, a, t);
    assert b == MoveToward(a, e, d, step);
    StraightStep(sqrt, a.x, a.y, e, d, step, b.x, b.y);
  }

  /** Moving from (x, y) a distance m along the unit vector toward exit e, at distance d >= 1,
      to (nx, ny), leaves distance d - m. */
  lemma StraightStep(sqrt: real -> real, x: real, y: real, e: Exit, d: real, m: real, nx: real, ny: real)
    requires IsSqrtFn(sqrt)
    requires d == ExitDistance(sqrt, x, y, e) && 1.0 <= d
    requires 0.0 <= m <= d
    requires nx == x + ((e.x - x) / d) * m && ny == y + ((e.y - y) / d) * m
    ensures ExitDistance(sqrt, nx, ny, e) == d - m
  {
    var dx, dy, c := e.x - x, e.y - y, (d - m) / d;
    var px, py := nx - e.x, ny - e.y;
    DistanceSquared(sqrt, x, y, e, d, dx, dy);
    ShrinkToward(dx, d, m, dx / d, c, px);
    ShrinkToward(dy, d, m, dy / d, c, py);
    ScaledSquares(c, dx, dy, px, py, d);
    RemainingDistance(sqrt, px, py, c, d, m);
  }

  /** The square of the distance d to e is the sum of the squared offsets dx and dy. */
  lemma DistanceSquared(sqrt: real -> real, x: real, y: real, e: Exit, d: real, dx: real, dy: real)
    requires IsSqrtFn(sqrt)
    requires d == ExitDistance(sqrt, x, y, e) && dx == e.x - x && dy == e.y - y
    ensures Sq(d) == Sq(dx) + Sq(dy)
  {
    SquareSymmetric(x, e.x);
    SquareSymmetric(y, e.y);
    SqNonNegative(x - e.x);
    SqNonNegative(y - e.y);
    SquareOfSqrt(sqrt, Sq(x - e.x) + Sq(y - e.y));
  }

  /** Going m along the offset u / d from u's start leaves the offset -c * u, c = (d - m) / d. */
  lemma ShrinkToward(u: real, d: real, m: real, q: real, c: real, p: real)
    requires 0.0 < d && q == u / d && c == (d - m) / d
    requires p == q * m - u
    ensures p == -(c * u)
  {
    assert u == q * d;
    assert d - m == c * d;
    var cq := c * q;
    assert c * u == cq * d;
    assert q * m == q * d - q * (d - m);
  }

  /** With the offsets a c-th of the original, the new distance is c * d = d - m. */
  lemma RemainingDistance(sqrt: real -> real, px: real, py: real, c: real, d: real, m: real)
    requires IsSqrtFn(sqrt)
    requires 0.0 < d && 0.0 <= m <= d && c == (d - m) / d
    requires Sq(px) + Sq(py) == Sq(c * d)
    ensures sqrt(Sq(px) + Sq(py)) == d - m
  {
    assert c * d == d - m;
    SqrtOfSquare(sqrt, d - m);
  }

  lemma ScaledSquares(c: real, dx: real, dy: real, px: real, py: real, d: real)
    requires Sq(d) == Sq(dx) + Sq(dy)
    requires px == -(c * dx) && py == -(c * dy)
    ensures Sq(px) + Sq(py) == Sq(c * d)
  {
    var cc := c * c;
    assert Sq(px) == cc * Sq(dx);
    assert Sq(py) == cc * Sq(dy);
    assert Sq(c * d) == cc * Sq(d);
  }

  // ---------------------------------------------------------------- agent invariants

  /** Identity, speed and pre-movement time never change after creation. */
  ghost predicate SameIdentity(a: Agent, b: Agent) {
    a.id == b.id && a.speed == b.speed && a.preMovementTime == b.preMovementTime
  }

  /** What holds of every agent during a run: speed at least 0.3, and an evacuated agent's time
      lies in [0, MaxTime) and not before its pre-movement time. */
  ghost predicate AgentInv(a: Agent) {
    && MinSpeed <= a.speed
    && (a.exitReached ==> 0.0 <= a.evacuationTime < MaxTime && a.preMovementTime <= a.evacuationTime)
  }

  ghost predicate AllAgentsInv(agents: seq<Agent>) {
    forall i :: 0 <= i < |agents| ==> AgentInv(agents[i])
  }

  /** A step taken at a time in [0, MaxTime) keeps the agent invariant. */
  lemma MoveAgentKeepsInv(exits: seq<Exit>, sqrt: real -> real, a: Agent, t: real)
    requires 0 < |exits| && 0.0 <= t < MaxTime && AgentInv(a)
    ensures AgentInv(MoveAgentSpec(exits, sqrt, a, t)) && SameIdentity(a, MoveAgentSpec(exits, sqrt, a, t))
  {
    MoveAgentArrival(exits, sqrt, a, t);
  }

  // ---------------------------------------------------------------- the time loop

  predicate AllEvacuated(agents: seq<Agent>) {
    forall i :: 0 <= i < |agents| ==> agents[i].exitReached
  }

  /** Every agent moved once at time t, in list order; an agent's move does not depend on the
      others. */
  function StepAll(exits: seq<Exit>, sqrt: real -> real, agents: seq<Agent>, t: real): (r: seq<Agent>)
    requires 0 < |exits|
    ensures |r| == |agents|
  {
    seq(|agents|, i requires 0 <= i < |agents| => MoveAgentSpec(exits, sqrt, agents[i], t))
  }

  /** The agents after the loop of run_simulation has run from step k (time k * 0.5): while the
      time is below MaxTime every agent moves, and the loop stops early once all are out. */
  function RunLoop(exits: seq<Exit>, sqrt: real -> real, agents: seq<Agent>, k: nat): seq<Agent>
    requires 0 < |exits|
    decreases StepCount - k
  {
    var t := k as real * TimeStep;
    if t >= MaxTime then agents
    else
      var next := StepAll(exits, sqrt, agents, t);
      if AllEvacuated(next) then next else RunLoop(exits, sqrt, next, k + 1)
  }

  /** One round of the loop at a time t = k * 0.5 below the limit. */
  lemma RunLoopStep(exits: seq<Exit>, sqrt: real -> real, agents: seq<Agent>, k: nat, t: real,
                    next: seq<Agent>)
    requires 0 < |exits| && t == k as real * TimeStep && t < MaxTime
    requires next == StepAll(exits, sqrt, agents, t)
    ensures RunLoop(exits, sqrt, agents, k) == if AllEvacuated(next) then next else RunLoop(exits, sqrt, next, k + 1)
  {
  }

  /** The loop keeps the number of agents, their identities and the agent invariant. */
  lemma {:induction false} RunLoopPreserves(exits: seq<Exit>, sqrt: real -> real, agents: seq<Agent>, k: nat)
    requires 0 < |exits| && AllAgentsInv(agents)
    ensures var r := RunLoop(exits, sqrt, agents, k);
            && |r| == |agents|
            && AllAgentsInv(r)
            && forall i :: 0 <= i < |agents| ==> SameIdentity(agents[i], r[i])
    decreases StepCount - k
  {
    var t := k as real * TimeStep;
    if t < MaxTime {
      var next := StepAll(exits, sqrt, agents, t);
      forall i | 0 <= i < |agents|
        ensures AgentInv(next[i]) && SameIdentity(agents[i], next[i])
      {
        MoveAgentKeepsInv(exits, sqrt, agents[i], t);
      }
      if !AllEvacuated(next) {
        RunLoopPreserves(exits, sqrt, next, k + 1);
      }
    }
  }

  /** Once evacuated, an agent stays evacuated with the same time until the loop ends. */
  lemma {:induction false} RunLoopKeepsEvacuated(exits: seq<Exit>, sqrt: real -> real, agents: seq<Agent>,
                                                 k: nat, i: nat)
    requires 0 < |exits| && i < |agents| && agents[i].exitReached
    ensures var r := RunLoop(exits, sqrt, agents, k);
            |r| == |agents| && r[i] == agents[i]
    decreases StepCount - k
  {
    var t := k as real * TimeStep;
    if t < MaxTime {
      var next := StepAll(exits, sqrt, agents, t);
      if !AllEvacuated(next) {
        RunLoopKeepsEvacuated(exits, sqrt, next, k + 1, i);
        RunLoopLength(exits, sqrt, next, k + 1);
      }
    }
  }

  lemma {:induction false} RunLoopLength(exits: seq<Exit>, sqrt: real -> real, agents: seq<Agent>, k: nat)
    requires 0 < |exits|
    ensures |RunLoop(exits, sqrt, agents, k)| == |agents|
    decreases StepCount - k
  {
    var t := k as real * TimeStep;
    if t < MaxTime {
      var next := StepAll(exits, sqrt, agents, t);
      if !AllEvacuated(next) {
        RunLoopLength(exits, sqrt, next, k + 1);
      }
    }
  }

  // ---------------------------------------------------------------- collecting the results

  function CountEvacuated(agents: seq<Agent>): (c: nat)
    ensures c <= |agents|
  {
    if |agents| == 0 then 0
    else CountEvacuated(agents[..|agents| - 1]) + (if agents[|agents| - 1].exitReached then 1 else 0)
  }

  /** The times of the evacuated agents, in list order. */
  function EvacuatedTimes(agents: seq<Agent>): (r: seq<real>)
    ensures |r| == CountEvacuated(agents)
  {
    if |agents| == 0 then []
    else
      var a := agents[|agents| - 1];
      EvacuatedTimes(agents[..|agents| - 1]) + (if a.exitReached then [a.evacuationTime] else [])
  }

  /** MaxTime once per agent that did not get out. */
  function CensoredTimes(agents: seq<Agent>): (r: seq<real>)
    ensures CountEvacuated(agents) + |r| == |agents|
    ensures forall i :: 0 <= i < |r| ==> r[i] == MaxTime
  {
    if |agents| == 0 then []
    else
      var a := agents[|agents| - 1];
      CensoredTimes(agents[..|agents| - 1]) + (if a.exitReached then [] else [MaxTime])
  }

  /** One time per agent: the evacuated agents' times in order, then the censored entries. */
  function EvacuationTimes(agents: seq<Agent>): seq<real> {
    EvacuatedTimes(agents) + CensoredTimes(agents)
  }

  /** Extending the prefix by one agent appends MaxTime exactly when that agent is still inside. */
  lemma CensoredTimesStep(agents: seq<Agent>, j: nat)
    requires j < |agents|
    ensures CensoredTimes(agents[..j + 1])
            == CensoredTimes(agents[..j]) + (if agents[j].exitReached then [] else [MaxTime])
  {
    assert agents[..j + 1][..j] == agents[..j];
  }

  /** An agent that did not get out is recorded as leaving at MaxTime. */
  function Censor(a: Agent): Agent {
    if a.exitReached then a else a.(evacuationTime := MaxTime)
  }

  function CensorAll(agents: seq<Agent>): (r: seq<Agent>)
    ensures |r| == |agents|
    ensures forall i :: 0 <= i < |agents| ==> r[i] == Censor(agents[i])
  {
    seq(|agents|, i requires 0 <= i < |agents| => Censor(agents[i]))
  }

  lemma CensorAllKeepsInv(agents: seq<Agent>)
    requires AllAgentsInv(agents)
    ensures AllAgentsInv(CensorAll(agents))
  {
  }

  /** The summary of the final agents: the times and their mean, maximum and minimum. */
  function Summarize(agents: seq<Agent>, numTotal: nat): SimulationResult
    requires 0 < |agents|
  {
    EvacuationTimesLength(agents);
    SummarizeTimes(EvacuationTimes(agents), CountEvacuated(agents), numTotal)
  }

  /** The result record for a list of times: numpy's mean, max and min of it and the counts. */
  function SummarizeTimes(times: seq<real>, numEvacuated: nat, numTotal: nat): SimulationResult
    requires 0 < |times|
  {
    SimulationResult(times, Mean(times), Max(times), Min(times), numEvacuated, numTotal)
  }

  /** The result of a whole run started from `agents`. */
  function SimulateRun(exits: seq<Exit>, sqrt: real -> real, agents: seq<Agent>, numTotal: nat): SimulationResult
    requires 0 < |exits| && 0 < |agents|
  {
    RunLoopLength(exits, sqrt, agents, 0);
    Summarize(RunLoop(exits, sqrt, agents, 0), numTotal)
  }

  lemma EvacuationTimesLength(agents: seq<Agent>)
    ensures |EvacuationTimes(agents)| == |agents|
  {
  }

  lemma {:induction false} NoneEvacuatedCount(agents: seq<Agent>)
    requires forall i :: 0 <= i < |agents| ==> !agents[i].exitReached
    ensures CountEvacuated(agents) == 0
  {
    if |agents| > 0 {
      NoneEvacuatedCount(agents[..|agents| - 1]);
    }
  }

  /** Censoring changes no agent's evacuated flag, so the count of evacuated agents stays. */
  lemma {:induction false} CensorAllCount(agents: seq<Agent>)
    ensures CountEvacuated(CensorAll(agents)) == CountEvacuated(agents)
  {
    if |agents| > 0 {
      var p := agents[..|agents| - 1];
      CensorAllCount(p);
      assert CensorAll(agents)[..|agents| - 1] == CensorAll(p);
    }
  }

  /** The recorded times of agents satisfying the invariant lie in [0, MaxTime) for evacuated
      agents. */
  lemma {:induction false} EvacuatedTimesBounds(agents: seq<Agent>)
    requires AllAgentsInv(agents)
    ensures forall i :: 0 <= i < |EvacuatedTimes(agents)| ==>
              0.0 <= EvacuatedTimes(agents)[i] < MaxTime
  {
    if |agents| > 0 {
      var p := agents[..|agents| - 1];
      assert forall i :: 0 <= i < |p| ==> p[i] == agents[i];
      EvacuatedTimesBounds(p);
    }
  }

  /** One time per agent; the evacuated agents' times come first and lie in [0, MaxTime); the
      rest are exactly MaxTime; the censored count is |agents| less the evacuated count; and
      min <= mean <= max, all within [0, MaxTime]. */
  lemma SummaryProperties(agents: seq<Agent>)
    requires 0 < |agents| && AllAgentsInv(agents)
    ensures var r := Summarize(agents, |agents|);
            && |r.evacuationTimes| == |agents| == r.numTotal
            && r.numEvacuated == CountEvacuated(agents)
            && |CensoredTimes(agents)| == r.numTotal - r.numEvacuated
            && (forall i :: 0 <= i < r.numEvacuated ==> 0.0 <= r.evacuationTimes[i] < MaxTime)
            && (forall i :: r.numEvacuated <= i < |agents| ==> r.evacuationTimes[i] == MaxTime)
            && 0.0 <= r.minEvacuationTime <= r.meanEvacuationTime <= r.maxEvacuationTime <= MaxTime
  {
    var times := EvacuationTimes(agents);
    var ev := EvacuatedTimes(agents);
    EvacuatedTimesBounds(agents);
    assert forall i :: 0 <= i < |times| ==> 0.0 <= times[i] <= MaxTime by {
      forall i | 0 <= i < |times| ensures 0.0 <= times[i] <= MaxTime {
        if i < |ev| {
          assert times[i] == ev[i];
        } else {
          assert times[i] == CensoredTimes(agents)[i - |ev|];
        }
      }
    }
    MeanBetweenMinMax(times);
    var j :| 0 <= j < |times| && times[j] == Min(times);
    var k :| 0 <= k < |times| && times[k] == Max(times);
  }

  // ---------------------------------------------------------------- the building

  /** create_simple_building: one exit midway along the bottom wall; two exits midway along the
      left and right walls; three (both side exits and the bottom one) for three or more; none
      for a count below one.  Every exit has capacity 2.0. */
  function CreateSimpleBuilding(width: real, height: real, numExits: int): (b: Building)
    ensures b.width == width && b.height == height
    ensures |b.exits| == (if numExits <= 0 then 0 else if numExits >= 3 then 3 else numExits)
    ensures forall i :: 0 <= i < |b.exits| ==> b.exits[i].id == i && b.exits[i].capacity == 2.0
    ensures forall i :: 0 <= i < |b.exits| ==> OnBoundary(b, b.exits[i])
  {
    var bottom := Exit(0, width / 2.0, 0.0, 2.0);
    var left := Exit(0, 0.0, height / 2.0, 2.0);
    var right := Exit(1, width, height / 2.0, 2.0);
    var exits :=
      if numExits == 1 then [bottom]
      else if numExits == 2 then [left, right]
      else if numExits >= 3 then [left, right, bottom.(id := 2)]
      else [];
    Building(width, height, exits)
  }

  /** The exit lies on the wall of the width x height rectangle and, for non-negative sides,
      within it. */
  ghost predicate OnBoundary(b: Building, e: Exit) {
    && (e.x == 0.0 || e.x == b.width || e.y == 0.0 || e.y == b.height)
    && (0.0 <= b.width && 0.0 <= b.height ==> 0.0 <= e.x <= b.width && 0.0 <= e.y <= b.height)
  }

  // ---------------------------------------------------------------- the simulator

  class EvacuationSimulation {
    const building: Building
    const numAgents: nat
    const meanSpeed: real
    const stdSpeed: real
    const meanPreMovement: real
    const stdPreMovement: real
    const sqrt: real -> real
    var agents: seq<Agent>

    /** One agent per requested occupant, each satisfying the agent invariant. */
    ghost predicate Valid()
      reads this
    {
      && |agents| == numAgents
      && AllAgentsInv(agents)
    }

    /** The source seeds numpy and samples every agent here; the samples are `draws`.  `sqrt`
        stands for the maths library's square root; the geometric lemmas about a step
        (MoveAgentAdvance) require IsSqrtFn of it, the loop itself does not. */
    constructor (building: Building, numAgents: nat, meanSpeed: real, stdSpeed: real,
                 meanPreMovement: real, stdPreMovement: real, sqrt: real -> real, draws: seq<Draw>)
      requires |draws| == numAgents
      ensures Valid()
      ensures this.building == building && this.numAgents == numAgents && this.sqrt == sqrt
      ensures this.meanSpeed == meanSpeed && this.stdSpeed == stdSpeed
      ensures this.meanPreMovement == meanPreMovement && this.stdPreMovement == stdPreMovement
      ensures agents == InitialAgents(draws)
    {
      this.building := building;
      this.numAgents := numAgents;
      this.meanSpeed := meanSpeed;
      this.stdSpeed := stdSpeed;
      this.meanPreMovement := meanPreMovement;
      this.stdPreMovement := stdPreMovement;
      this.sqrt := sqrt;
      new;
      agents := InitializeAgents(draws);
      InitialAgentsWellFormed(draws);
    }

    /** _initialize_agents: agent i built from draw i, appended in order. */
    method InitializeAgents(draws: seq<Draw>) returns (result: seq<Agent>)
      requires |draws| == numAgents
      ensures result == InitialAgents(draws)
      ensures |result| == numAgents
    {
      result := [];
      var i := 0;
      while i < numAgents
        invariant 0 <= i <= numAgents
        invariant result == InitialAgents(draws[..i])
      {
        var d := draws[i];
        var speed := if d.speedSample > MinSpeed then d.speedSample else MinSpeed;
        result := result + [Agent(i, d.x, d.y, speed, d.preMovementTime, false, 0.0)];
        i := i + 1;
        assert draws[..i] == draws[..i - 1] + [d];
      }
      assert draws[..numAgents] == draws;
    }

    /** _find_nearest_exit: the first exit at the smallest distance.  The source starts from
        exits[0], so the list must not be empty. */
    method FindNearestExit(agent: Agent) returns (nearest: Exit)
      requires 0 < |building.exits|
      ensures nearest == building.exits[NearestExitIndex(building.exits, sqrt, agent.x, agent.y)]
      ensures forall j :: 0 <= j < |building.exits| ==>
                ExitDistance(sqrt, agent.x, agent.y, nearest) <= ExitDistance(sqrt, agent.x, agent.y, building.exits[j])
    {
      var exits := building.exits;
      var minDistance := PosInf;
      nearest := exits[0];
      ghost var k: nat := 0;
      var i := 0;
      while i < |exits|
        invariant 0 <= i <= |exits| && k < |exits|
        invariant nearest == exits[k]
        invariant i == 0 ==> minDistance == PosInf && k == 0
        invariant 0 < i ==> IsNearestAmong(exits, i, sqrt, agent.x, agent.y, k)
        invariant 0 < i ==> minDistance == Fin(ExitDistance(sqrt, agent.x, agent.y, exits[k]))
      {
        var e := exits[i];
        var distance := sqrt(Sq(agent.x - e.x) + Sq(agent.y - e.y));
        if 0 < i {
          NearestAmongStep(exits, i, sqrt, agent.x, agent.y, k);
        }
        if minDistance.Gt(distance) {
          minDistance := Fin(distance);
          nearest := e;
          k := i;
        }
        i := i + 1;
      }
      NearestUnique(exits, |exits|, sqrt, agent.x, agent.y, k,
                    NearestExitIndex(exits, sqrt, agent.x, agent.y));
    }

    /** _move_agent on agent i at `currentTime`. */
    method MoveAgent(i: nat, currentTime: real)
      requires i < |agents| && 0 < |building.exits|
      modifies this
      ensures agents == old(agents)[i := MoveAgentSpec(building.exits, sqrt, old(agents)[i], currentTime)]
    {
      var agent := agents[i];
      if agent.exitReached {
        return;
      }
      if currentTime < agent.preMovementTime {
        return;
      }
      var nearestExit := FindNearestExit(agent);
      var dx := nearestExit.x - agent.x;
      var dy := nearestExit.y - agent.y;
      var distance := sqrt(Sq(dx) + Sq(dy));
      if distance < ArrivalDistance {
        assert MoveAgentSpec(building.exits, sqrt, agent, currentTime)
               == agent.(exitReached := true, evacuationTime := currentTime);
        agents := agents[i := agent.(exitReached := true, evacuationTime := currentTime)];
        return;
      }
      var moveDistance := agent.speed * TimeStep;
      if moveDistance > distance {
        moveDistance := distance;
      }
      agents := agents[i := MoveToward(agent, nearestExit, distance, moveDistance)];
    }

    /** The `for agent in self.agents` pass of one time step. */
    method MoveAllAgents(currentTime: real)
      requires 0 < |building.exits|
      modifies this
      ensures agents == StepAll(building.exits, sqrt, old(agents), currentTime)
    {
      var j := 0;
      while j < |agents|
        invariant 0 <= j <= |agents| == |old(agents)|
        invariant forall m :: 0 <= m < j ==> agents[m] == MoveAgentSpec(building.exits, sqrt, old(agents)[m], currentTime)
        invariant forall m :: j <= m < |agents| ==> agents[m] == old(agents)[m]
      {
        MoveAgent(j, currentTime);
        j := j + 1;
      }
    }

    /** The collection after the loop: the evacuated agents' times in order, then, for every
        agent still inside, its time set to MaxTime and MaxTime appended. */
    method CollectEvacuationTimes() returns (evacuationTimes: seq<real>)
      modifies this
      ensures agents == CensorAll(old(agents))
      ensures evacuationTimes == EvacuationTimes(old(agents))
    {
      ghost var ran := agents;
      evacuationTimes := EvacuatedTimes(agents);
      var j := 0;
      while j < |agents|
        invariant 0 <= j <= |agents| == |ran|
        invariant forall m :: 0 <= m < j ==> agents[m] == Censor(ran[m])
        invariant forall m :: j <= m < |agents| ==> agents[m] == ran[m]
        invariant evacuationTimes == EvacuatedTimes(ran) + CensoredTimes(ran[..j])
      {
        CensoredTimesStep(ran, j);
        var agent := agents[j];
        assert agent == ran[j];
        if !agent.exitReached {
          agents := agents[j := agent.(evacuationTime := MaxTime)];
          evacuationTimes := evacuationTimes + [MaxTime];
        }
        assert agents[j] == Censor(ran[j]);
        j := j + 1;
      }
      assert ran[..|ran|] == ran;
      assert agents == CensorAll(ran);
    }

    /** The time loop of run_simulation: move every agent once per time step until all have
        evacuated or the time limit is reached. */
    method StepUntilEvacuated()
      requires 0 < |building.exits|
      modifies this
      ensures agents == RunLoop(building.exits, sqrt, old(agents), 0)
    {
      ghost var start := agents;
      var currentTime := 0.0;
      ghost var k: nat := 0;
      while currentTime < MaxTime
        invariant currentTime == k as real * TimeStep && k <= StepCount
        invariant RunLoop(building.exits, sqrt, start, 0) == RunLoop(building.exits, sqrt, agents, k)
        decreases StepCount - k
      {
        ghost var before := agents;
        MoveAllAgents(currentTime);
        RunLoopStep(building.exits, sqrt, before, k, currentTime, agents);
        if AllEvacuated(agents) {
          break;
        }
        currentTime := currentTime + TimeStep;
        k := k + 1;
      }
    }

    /** run_simulation: the half-second loop up to MaxTime with the early exit, then the
        censoring of the agents still inside and the summary.  The source takes the maximum of
        the times, which fails for an empty list, and looks up exits[0] for a moving agent. */
    method RunSimulation() returns (result: SimulationResult)
      requires Valid() && 0 < numAgents && 0 < |building.exits|
      modifies this
      ensures Valid()
      ensures agents == CensorAll(RunLoop(building.exits, sqrt, old(agents), 0))
      ensures result == SimulateRun(building.exits, sqrt, old(agents), numAgents)
    {
      ghost var start := agents;
      StepUntilEvacuated();
      ghost var ran := agents;
      RunLoopPreserves(building.exits, sqrt, start, 0);
      CensorAllCount(ran);
      EvacuationTimesLength(ran);
      CensorAllKeepsInv(ran);
      var evacuationTimes := CollectEvacuationTimes();
      var numEvacuated := CountEvacuated(agents);
      result := SummarizeTimes(evacuationTimes, numEvacuated, numAgents);
    }

    /** The result of one run from fresh agents built from `draws`. */
    function RunFrom(draws: seq<Draw>): SimulationResult
      requires 0 < |building.exits| && 0 < |draws|
    {
      SimulateRun(building.exits, sqrt, InitialAgents(draws), numAgents)
    }

    /** One result per entry of `runs`, each a run from fresh agents built from that entry. */
    function RunsFrom(runs: seq<seq<Draw>>): (r: seq<SimulationResult>)
      requires 0 < |runs| ==> 0 < |building.exits|
      requires forall k :: 0 <= k < |runs| ==> 0 < |runs[k]|
      ensures |r| == |runs|
    {
      if |runs| == 0 then [] else RunsFrom(runs[..|runs| - 1]) + [RunFrom(runs[|runs| - 1])]
    }

    /** One more run appends its own result. */
    lemma RunsFromStep(runs: seq<seq<Draw>>, i: nat)
      requires 0 < |building.exits|
      requires forall j :: 0 <= j < |runs| ==> 0 < |runs[j]|
      requires i < |runs|
      ensures RunsFrom(runs[..i + 1]) == RunsFrom(runs[..i]) + [RunFrom(runs[i])]
    {
      assert runs[..i + 1][..i] == runs[..i];
    }

    /** Entry k of the results is the run from the k-th draws, and there are as many results as
        runs. */
    lemma {:induction false} RunsFromAt(runs: seq<seq<Draw>>, k: nat)
      requires 0 < |building.exits|
      requires forall j :: 0 <= j < |runs| ==> 0 < |runs[j]|
      requires k < |runs|
      ensures RunsFrom(runs)[k] == RunFrom(runs[k])
      decreases |runs|
    {
      var p := runs[..|runs| - 1];
      assert forall j :: 0 <= j < |p| ==> p[j] == runs[j];
      var rest := RunsFrom(p);
      assert RunsFrom(runs) == rest + [RunFrom(runs[|runs| - 1])];
      if k < |runs| - 1 {
        RunsFromAt(p, k);
        assert RunsFrom(runs)[k] == rest[k];
      }
    }

    /** run_multiple_simulations: for each run, fresh agents from that run's draws, then a run;
        the results in run order, and the agents of the last run, censored, are left in place. */
    method RunMultipleSimulations(numSimulations: nat, draws: seq<seq<Draw>>) returns (allResults: seq<SimulationResult>)
      requires Valid() && (0 < numSimulations ==> 0 < numAgents && 0 < |building.exits|)
      requires |draws| == numSimulations
      requires forall r :: 0 <= r < numSimulations ==> |draws[r]| == numAgents
      modifies this
      ensures Valid()
      ensures allResults == RunsFrom(draws)
      ensures |allResults| == numSimulations
      ensures numSimulations == 0 ==> agents == old(agents)
      ensures 0 < numSimulations ==>
                agents == CensorAll(RunLoop(building.exits, sqrt, InitialAgents(draws[numSimulations - 1]), 0))
    {
      allResults := [];
      var i := 0;
      while i < numSimulations
        invariant 0 <= i <= numSimulations
        invariant Valid()
        invariant allResults == RunsFrom(draws[..i])
        invariant i == 0 ==> agents == old(agents)
        invariant 0 < i ==> agents == CensorAll(RunLoop(building.exits, sqrt, InitialAgents(draws[i - 1]), 0))
      {
        agents := InitializeAgents(draws[i]);
        InitialAgentsWellFormed(draws[i]);
        var results := RunSimulation();
        assert results == RunFrom(draws[i]);
        RunsFromStep(draws, i);
        allResults := allResults + [results];
        i := i + 1;
      }
      assert draws[..numSimulations] == draws;
    }
  }
}
