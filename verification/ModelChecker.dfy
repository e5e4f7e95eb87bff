/** The exhaustive search over all interleavings and the replay of counterexamples
  (asmfs/bmc-checker.mjs: search, replay). The search is proved sound and complete for every list of
  actors, every starting point and every assertion, and to return shortest counterexamples. */
module ModelChecker {
  import opened Wrappers
  import opened Asmfs

  /** An assertion names the reason it fails for; the flag says whether every script has ended. */
  type Check<!R> = (Task, World, seq<nat>, bool) -> Option<R>

  function Verdict<R>(actors: seq<Actor>, check: Check<R>, c: Config): Option<R> {
    check(c.memory.task, c.memory.world, c.pos, Terminal(actors, c))
  }

  datatype StepDesc = StepDesc(pid: int, op: Op, outcome: Outcome)

  /** A configuration with the way the search came to it. */
  datatype Node = Root(config: Config) | Child(config: Config, parent: Node, desc: StepDesc)

  datatype Counterexample<R> = Counterexample(trace: seq<StepDesc>, finalTask: Task, finalWorld: World, reason: R)

  datatype Error = TooManyStates | UnknownOp

  datatype Result<R> =
    | Found(counterexample: Counterexample<R>, nodes: nat, interleavings: nat)
    | NotFound(nodes: nat, interleavings: nat)
    | Failed(error: Error)

  function DescOf(actors: seq<Actor>, c: Config, i: nat): StepDesc
    requires Enabled(actors, c, i)
  {
    StepDesc(actors[i].pid, NextOp(actors, c, i), StepOf(c.memory, i, actors[i], NextOp(actors, c, i)).1)
  }

  /** What a run records. */
  function TraceOf(actors: seq<Actor>, c: Config, schedule: seq<nat>): (trace: seq<StepDesc>)
    requires WellSized(actors, c) && Exec(actors, c, schedule).Some?
    ensures |trace| == |schedule|
  {
    if schedule == [] then []
    else
      var init, i := schedule[..|schedule| - 1], schedule[|schedule| - 1];
      TraceOf(actors, c, init) + [DescOf(actors, Exec(actors, c, init).value, i)]
  }

  function Trace(node: Node): seq<StepDesc> {
    match node
    case Root(_) => []
    case Child(_, parent, desc) => Trace(parent) + [desc]
  }

  /** All operations recorded are ones the checker knows. */
  predicate KnownTrace(trace: seq<StepDesc>) {
    forall k | 0 <= k < |trace| :: !trace[k].op.Unknown?
  }

  ghost predicate StepsTo(actors: seq<Actor>, c: Config, i: nat, c': Config, desc: StepDesc) {
    Enabled(actors, c, i) && !NextOp(actors, c, i).Unknown? && c' == Next(actors, c, i) && desc == DescOf(actors, c, i)
  }

  ghost predicate GoodNode(actors: seq<Actor>, start: Config, node: Node) {
    match node
    case Root(c) => c == start
    case Child(c, parent, desc) => GoodNode(actors, start, parent) && exists i :: StepsTo(actors, parent.config, i, c, desc)
  }

  /** Following the parents of a node gives a real run. */
  lemma {:induction false} NodeRun(actors: seq<Actor>, start: Config, node: Node) returns (schedule: seq<nat>)
    requires WellSized(actors, start) && GoodNode(actors, start, node)
    ensures Exec(actors, start, schedule) == Some(node.config) && TraceOf(actors, start, schedule) == Trace(node)
    ensures KnownTrace(Trace(node))
    decreases node
  {
    match node
    case Root(_) => schedule := [];
    case Child(c, parent, desc) =>
      hide Exec, StepOf, Next, TraceOf;
      var init := NodeRun(actors, start, parent);
      var i :| StepsTo(actors, parent.config, i, c, desc);
      schedule := init + [i];
      TracePush(actors, start, init, i, parent.config);
  }

  method BuildTrace(node: Node) returns (trace: seq<StepDesc>)
    ensures trace == Trace(node)
  {
    trace := [];
    var cur := node;
    while cur.Child?
      invariant Trace(cur) + trace == Trace(node)
      decreases cur
    {
      trace := [cur.desc] + trace;
      cur := cur.parent;
    }
  }

  // ------------------------------------------------------------------ what the search maintains

  ghost predicate Known<R>(actors: seq<Actor>, start: Config, check: Check<R>, c: Config)
    requires WellSized(actors, start)
  {
    Reaches(actors, start, c) && Verdict(actors, check, c).None?
  }

  function Configs(queue: seq<Node>): set<Config> {
    set k | 0 <= k < |queue| :: queue[k].config
  }

  /** The queue holds distinct, properly reached configurations of depth d, then d + 1. */
  ghost predicate Queued(actors: seq<Actor>, start: Config, queue: seq<Node>, d: nat) {
    && (forall k | 0 <= k < |queue| :: GoodNode(actors, start, queue[k]) && WellSized(actors, queue[k].config))
    && (forall j, k | 0 <= j < k < |queue| :: queue[j].config != queue[k].config)
    && (forall k | 0 <= k < |queue| :: d <= Depth(queue[k].config) <= d + 1)
    && (forall j, k | 0 <= j < k < |queue| :: Depth(queue[j].config) <= Depth(queue[k].config))
  }

  ghost predicate AllKnown<R(!new)>(actors: seq<Actor>, start: Config, check: Check<R>, seen: set<Config>)
    requires WellSized(actors, start)
  {
    forall c | c in seen :: Known(actors, start, check, c)
  }

  ghost predicate Within(seen: set<Config>, d: nat) {
    forall c | c in seen :: Depth(c) <= d
  }

  /** Every step from an expanded configuration leads to one already seen. */
  ghost predicate Closed(actors: seq<Actor>, expanded: set<Config>, seen: set<Config>) {
    forall c, i: nat | c in expanded && Enabled(actors, c, i) :: Next(actors, c, i) in seen
  }

  function Terminals(actors: seq<Actor>, all: set<Config>): set<Config> {
    set c | c in all && Terminal(actors, c)
  }

  /** Whatever a closed set leaves unexpanded is deep; so everything shallow has been seen. */
  lemma {:induction false} ShallowSeen(actors: seq<Actor>, start: Config, expanded: set<Config>, seen: set<Config>, d: nat, schedule: seq<nat>)
    requires WellSized(actors, start) && Depth(start) == 0 && start in seen && Closed(actors, expanded, seen)
    requires forall c | c in seen && c !in expanded :: Depth(c) >= d
    requires Exec(actors, start, schedule).Some? && |schedule| <= d
    ensures Exec(actors, start, schedule).value in seen
  {
    if schedule != [] {
      var init, i := schedule[..|schedule| - 1], schedule[|schedule| - 1];
      ShallowSeen(actors, start, expanded, seen, d, init);
      RunLength(actors, start, init);
      var c := Exec(actors, start, init).value;
      assert c in expanded && Enabled(actors, c, i);
    }
  }

  // ------------------------------------------------------------------ termination

  function Pow(b: nat, e: nat): nat {
    if e == 0 then 1 else b * Pow(b, e - 1)
  }

  /** Each configuration weighs more than all its successors together. */
  function WeightOf(actors: seq<Actor>, c: Config): nat {
    var total := TotalSteps(actors);
    if Depth(c) <= total then Pow(|actors| + 1, total - Depth(c)) else 0
  }

  function Weight(actors: seq<Actor>, queue: seq<Node>): nat {
    if queue == [] then 0 else Weight(actors, queue[..|queue| - 1]) + WeightOf(actors, queue[|queue| - 1].config)
  }

  lemma {:induction false} WeightPop(actors: seq<Actor>, queue: seq<Node>)
    requires queue != []
    ensures Weight(actors, queue) == WeightOf(actors, queue[0].config) + Weight(actors, queue[1..])
  {
    var last := |queue| - 1;
    if last > 0 {
      WeightPop(actors, queue[..last]);
      assert queue[..last][1..] == queue[1..][..last - 1];
    } else {
      assert queue[..0] == [] && queue[1..] == [];
    }
  }

  lemma WeightPush(actors: seq<Actor>, queue: seq<Node>, node: Node)
    ensures Weight(actors, queue + [node]) == Weight(actors, queue) + WeightOf(actors, node.config)
  {
    assert (queue + [node])[..|queue|] == queue;
  }

  lemma {:induction false} PowPositive(b: nat, e: nat)
    requires b > 0
    ensures Pow(b, e) > 0
  {
    if e > 0 {
      PowPositive(b, e - 1);
    }
  }

  /** The weight a popped configuration gives up, per successor. */
  function Share(actors: seq<Actor>, c: Config): nat {
    var total := TotalSteps(actors);
    if Depth(c) < total then Pow(|actors| + 1, total - Depth(c) - 1) else 0
  }

  lemma SharesFit(actors: seq<Actor>, c: Config)
    requires WellSized(actors, c)
    ensures |actors| * Share(actors, c) < WeightOf(actors, c)
  {
    DepthBounded(actors, c);
    var left := TotalSteps(actors) - Depth(c);
    PowPositive(|actors| + 1, left);
    if left > 0 {
      PowPositive(|actors| + 1, left - 1);
      assert (|actors| + 1) * Pow(|actors| + 1, left - 1) == |actors| * Pow(|actors| + 1, left - 1) + Pow(|actors| + 1, left - 1);
    }
  }

  // ------------------------------------------------------------------ the search

  datatype Stop = GoOn | Violation(child: Node) | BadOp

  /** One step on a private copy of a configuration. */
  method Advance(actors: seq<Actor>, c: Config, i: nat) returns (config: Config, desc: StepDesc)
    requires Enabled(actors, c, i) && !NextOp(actors, c, i).Unknown?
    ensures StepsTo(actors, c, i, config, desc)
  {
    var op := actors[i].script[c.pos[i]];
    var machine := new Machine(c.memory.task, c.memory.world, c.memory.localSeq);
    var outcome := machine.Step(i, actors[i], op);
    config := Config(Memory(machine.task, machine.world, machine.localSeq), c.pos[i := c.pos[i] + 1]);
    desc := StepDesc(actors[i].pid, op, outcome);
  }

  /** What the inner loop adds to the search so far. */
  ghost predicate Grown<R(!new)>(actors: seq<Actor>, start: Config, check: Check<R>, node: Node,
                                 seen: set<Config>, queue: seq<Node>, seen': set<Config>, queue': seq<Node>)
    requires WellSized(actors, start)
  {
    && AllKnown(actors, start, check, seen') && Queued(actors, start, queue', Depth(node.config))
    && seen <= seen' && queue <= queue' && Configs(queue'[|queue|..]) == seen' - seen && Configs(queue') <= seen'
    && Within(seen', Depth(node.config) + 1)
  }

  lemma PushKeeps<R(!new)>(actors: seq<Actor>, start: Config, check: Check<R>, node: Node, i: nat, child: Node,
                           seen: set<Config>, queue: seq<Node>, seen': set<Config>, queue': seq<Node>)
    requires WellSized(actors, start) && GoodNode(actors, start, node) && node.config in seen
    requires Grown(actors, start, check, node, seen, queue, seen', queue')
    requires child.Child? && child.parent == node && StepsTo(actors, node.config, i, child.config, child.desc)
    requires child.config !in seen' && Verdict(actors, check, child.config).None?
    ensures Grown(actors, start, check, node, seen, queue, seen' + {child.config}, queue' + [child])
  {
    hide StepOf, Exec, Depth, Terminal, Verdict, Queued, GoodNode, Next;
    DepthNext(actors, node.config, i);
    assert Known(actors, start, check, node.config);
    ReachesNext(actors, start, node.config, i);
    QueuedPush(actors, start, queue', Depth(node.config), child, i);
    ConfigsPush(queue', child);
    ConfigsPush(queue'[|queue|..], child);
    assert (queue' + [child])[|queue|..] == queue'[|queue|..] + [child];
  }

  lemma QueuedPush(actors: seq<Actor>, start: Config, queue: seq<Node>, d: nat, child: Node, i: nat)
    requires Queued(actors, start, queue, d)
    requires child.Child? && GoodNode(actors, start, child.parent) && StepsTo(actors, child.parent.config, i, child.config, child.desc)
    requires child.config !in Configs(queue) && Depth(child.config) == d + 1
    ensures Queued(actors, start, queue + [child], d)
  {
    hide StepOf, Exec, Depth, Next, WellSized;
    var more := queue + [child];
    assert forall k | 0 <= k < |queue| :: more[k] == queue[k] && more[k].config in Configs(queue);
    assert GoodNode(actors, start, child);
    SizedNext(actors, child.parent.config, i);
  }

  lemma SizedNext(actors: seq<Actor>, c: Config, i: nat)
    requires Enabled(actors, c, i)
    ensures WellSized(actors, Next(actors, c, i))
  {
  }

  lemma ConfigsPush(queue: seq<Node>, child: Node)
    ensures Configs(queue + [child]) == Configs(queue) + {child.config}
  {
    var more := queue + [child];
    assert more[|queue|] == child && forall k | 0 <= k < |queue| :: more[k] == queue[k];
  }

  ghost predicate AllReached(actors: seq<Actor>, start: Config, seen: set<Config>)
    requires WellSized(actors, start)
  {
    forall c | c in seen :: Reaches(actors, start, c)
  }

  lemma AllKnownReached<R(!new)>(actors: seq<Actor>, start: Config, check: Check<R>, seen: set<Config>)
    requires WellSized(actors, start) && AllKnown(actors, start, check, seen)
    ensures AllReached(actors, start, seen)
  {
    forall c | c in seen ensures Reaches(actors, start, c) {
      assert Known(actors, start, check, c);
    }
  }

  /** No actor's next operation is one the checker does not know. */
  ghost predicate OpsKnownAt(actors: seq<Actor>, c: Config) {
    forall i: nat | Enabled(actors, c, i) :: !NextOp(actors, c, i).Unknown?
  }

  ghost predicate OpsKnown(actors: seq<Actor>, expanded: set<Config>) {
    forall c | c in expanded :: OpsKnownAt(actors, c)
  }

  /** The inner loop: advance each actor by one step from a node, queueing what is new. */
  method Expand<R(!new)>(actors: seq<Actor>, ghost start: Config, check: Check<R>, node: Node, seen: set<Config>, queue: seq<Node>)
    returns (seen': set<Config>, queue': seq<Node>, stop: Stop)
    requires WellSized(actors, start) && AllKnown(actors, start, check, seen) && node.config in seen
    requires WellSized(actors, node.config) && GoodNode(actors, start, node)
    requires Queued(actors, start, queue, Depth(node.config)) && Configs(queue) <= seen && Within(seen, Depth(node.config) + 1)
    ensures stop.GoOn? ==>
      && Grown(actors, start, check, node, seen, queue, seen', queue')
      && Closed(actors, {node.config}, seen')
      && Weight(actors, queue') <= Weight(actors, queue) + |actors| * Share(actors, node.config)
    ensures stop.Violation? ==>
      && GoodNode(actors, start, stop.child) && Depth(stop.child.config) == Depth(node.config) + 1
      && Verdict(actors, check, stop.child.config).Some?
      && AllReached(actors, start, seen') && seen + {stop.child.config} <= seen' && Within(seen', Depth(node.config) + 1)
    ensures stop.BadOp? ==> exists i: nat :: Enabled(actors, node.config, i) && NextOp(actors, node.config, i).Unknown?
    ensures stop.GoOn? ==> OpsKnownAt(actors, node.config)
    ensures |seen'| <= |seen| + |actors|
  {
    hide StepOf, Queued, AllKnown, Exec, Depth, WeightOf, Terminal, Weight, Share, Reaches;
    seen', queue', stop := seen, queue, GoOn;
    for i := 0 to |actors|
      invariant Grown(actors, start, check, node, seen, queue, seen', queue')
      invariant forall k: nat | k < i && Enabled(actors, node.config, k) :: Next(actors, node.config, k) in seen'
      invariant Weight(actors, queue') <= Weight(actors, queue) + i * Share(actors, node.config)
      invariant forall k: nat | k < i && Enabled(actors, node.config, k) :: !NextOp(actors, node.config, k).Unknown?
      invariant |seen'| <= |seen| + i
    {
      assert (i + 1) * Share(actors, node.config) == i * Share(actors, node.config) + Share(actors, node.config);
      if node.config.pos[i] >= |actors[i].script| {
        continue;
      }
      if actors[i].script[node.config.pos[i]].Unknown? {
        assert Enabled(actors, node.config, i) && NextOp(actors, node.config, i).Unknown?;
        return seen', queue', BadOp;
      }
      var config, desc := Advance(actors, node.config, i);
      if config in seen' {
        continue;
      }
      var child := Child(config, node, desc);
      DepthNext(actors, node.config, i);
      if check(config.memory.task, config.memory.world, config.pos, Terminal(actors, config)).Some? {
        AllKnownReached(actors, start, check, seen');
        ReachesNext(actors, start, node.config, i);
        return seen' + {config}, queue', Violation(child);
      }
      PushKeeps(actors, start, check, node, i, child, seen, queue, seen', queue');
      WeightPush(actors, queue', child);
      SharePays(actors, node.config, config);
      seen', queue' := seen' + {config}, queue' + [child];
    }
  }

  lemma SharePays(actors: seq<Actor>, c: Config, c': Config)
    requires Depth(c') == Depth(c) + 1
    ensures WeightOf(actors, c') == Share(actors, c)
  {
  }

  /** Between two rounds: what has been seen is what has been expanded plus what is queued. */
  ghost predicate Searching<R(!new)>(actors: seq<Actor>, start: Config, check: Check<R>,
                                     seen: set<Config>, expanded: set<Config>, queue: seq<Node>, d: nat)
    requires WellSized(actors, start)
  {
    && start in seen && AllKnown(actors, start, check, seen) && Queued(actors, start, queue, d)
    && seen == expanded + Configs(queue) && expanded !! Configs(queue)
    && Closed(actors, expanded, seen) && Within(expanded, d) && Within(seen, d + 1)
  }

  lemma QueuedPop(actors: seq<Actor>, start: Config, queue: seq<Node>, d: nat)
    requires queue != [] && Queued(actors, start, queue, d)
    ensures Queued(actors, start, queue[1..], Depth(queue[0].config))
    ensures Configs(queue) == Configs(queue[1..]) + {queue[0].config} && queue[0].config !in Configs(queue[1..])
    ensures forall c | c in Configs(queue) :: Depth(c) >= Depth(queue[0].config)
    ensures d <= Depth(queue[0].config)
    ensures GoodNode(actors, start, queue[0]) && WellSized(actors, queue[0].config)
  {
    hide GoodNode, WellSized, Depth;
    var rest := queue[1..];
    assert forall k | 0 <= k < |rest| :: rest[k] == queue[k + 1];
    assert forall k | 0 <= k < |queue| && k > 0 :: queue[k] == rest[k - 1];
  }

  lemma ExpandedNow<R(!new)>(actors: seq<Actor>, start: Config, check: Check<R>, seen: set<Config>, expanded: set<Config>,
                             queue: seq<Node>, d: nat, seen': set<Config>, queue': seq<Node>)
    requires WellSized(actors, start) && Searching(actors, start, check, seen, expanded, queue, d) && queue != []
    requires Grown(actors, start, check, queue[0], seen, queue[1..], seen', queue') && Closed(actors, {queue[0].config}, seen')
    ensures Searching(actors, start, check, seen', expanded + {queue[0].config}, queue', Depth(queue[0].config))
  {
    hide Queued, AllKnown, WellSized, Depth, Enabled, Next;
    QueuedPop(actors, start, queue, d);
    var rest := queue[1..];
    ConfigsSplit(queue', |rest|);
    assert queue'[..|rest|] == rest;
  }

  lemma ConfigsSplit(queue: seq<Node>, k: nat)
    requires k <= |queue|
    ensures Configs(queue) == Configs(queue[..k]) + Configs(queue[k..])
  {
    assert forall j | k <= j < |queue| :: queue[j] == queue[k..][j - k];
  }

  lemma TerminalsGrow(actors: seq<Actor>, all: set<Config>, c: Config)
    requires c !in all
    ensures |Terminals(actors, all + {c})| == |Terminals(actors, all)| + if Terminal(actors, c) then 1 else 0
  {
    hide Terminal;
    if Terminal(actors, c) {
      assert Terminals(actors, all + {c}) == Terminals(actors, all) + {c};
    } else {
      assert Terminals(actors, all + {c}) == Terminals(actors, all);
    }
  }

  ghost predicate IsReachSet(actors: seq<Actor>, start: Config, all: set<Config>)
    requires WellSized(actors, start)
  {
    forall c :: c in all <==> Reaches(actors, start, c)
  }

  /** The trace is what some run records, and that run ends where the counterexample says. */
  ghost predicate RealRun<R>(actors: seq<Actor>, start: Config, check: Check<R>, schedule: seq<nat>, ce: Counterexample<R>)
    requires WellSized(actors, start)
  {
    var final := Exec(actors, start, schedule);
    && final.Some? && ce.trace == TraceOf(actors, start, schedule) && KnownTrace(ce.trace)
    && ce.finalTask == final.value.memory.task && ce.finalWorld == final.value.memory.world
    && Verdict(actors, check, final.value) == Some(ce.reason)
  }

  ghost predicate Violates<R>(actors: seq<Actor>, start: Config, check: Check<R>, schedule: seq<nat>)
    requires WellSized(actors, start)
  {
    var final := Exec(actors, start, schedule);
    final.Some? && Verdict(actors, check, final.value).Some?
  }

  /** A counterexample is a real run, and no run that violates the assertion is shorter. */
  ghost predicate Shortest<R(!new)>(actors: seq<Actor>, start: Config, check: Check<R>, ce: Counterexample<R>)
    requires WellSized(actors, start)
  {
    && (exists schedule :: RealRun(actors, start, check, schedule, ce))
    && (forall other | Violates(actors, start, check, other) :: |ce.trace| <= |other|)
  }

  ghost predicate Passes<R(!new)>(actors: seq<Actor>, start: Config, check: Check<R>)
    requires WellSized(actors, start)
  {
    forall c | Reaches(actors, start, c) :: Verdict(actors, check, c).None?
  }

  ghost predicate Counts(actors: seq<Actor>, start: Config, nodes: nat, interleavings: nat)
    requires WellSized(actors, start)
  {
    exists all :: IsReachSet(actors, start, all) && nodes == |all| && interleavings == |Terminals(actors, all)|
  }

  ghost predicate Overflows(actors: seq<Actor>, start: Config, maxNodes: nat)
    requires WellSized(actors, start)
  {
    exists some :: AllReached(actors, start, some) && |some| > maxNodes
  }

  /** So many configurations were looked at: all that are reached in fewer steps than the
    counterexample takes, and some that are reached in as many. */
  ghost predicate Explored(actors: seq<Actor>, start: Config, depth: nat, nodes: nat)
    requires WellSized(actors, start)
  {
    exists some ::
      && AllReached(actors, start, some) && Within(some, depth) && nodes == |some|
      && forall c | Reaches(actors, start, c) && Depth(c) < depth :: c in some
  }

  ghost predicate MeetsUnknownOp(actors: seq<Actor>, start: Config)
    requires WellSized(actors, start)
  {
    exists c, i: nat :: Reaches(actors, start, c) && Enabled(actors, c, i) && NextOp(actors, c, i).Unknown?
  }

  /** With an empty queue, what has been seen is exactly what can be reached. */
  lemma NothingLeft<R(!new)>(actors: seq<Actor>, start: Config, check: Check<R>, seen: set<Config>, expanded: set<Config>, d: nat)
    requires WellSized(actors, start) && Depth(start) == 0 && Searching(actors, start, check, seen, expanded, [], d)
    ensures Passes(actors, start, check) && Counts(actors, start, |seen|, |Terminals(actors, expanded)|)
  {
    assert seen == expanded;
    forall c | Reaches(actors, start, c) ensures c in seen {
      var schedule :| Exec(actors, start, schedule) == Some(c);
      ShallowSeen(actors, start, expanded, seen, |schedule|, schedule);
    }
    forall c | c in seen ensures Reaches(actors, start, c) && Verdict(actors, check, c).None? {
      assert Known(actors, start, check, c);
    }
    assert IsReachSet(actors, start, seen);
  }

  /** A violation one level below the popped node: no shorter run can violate the assertion. */
  lemma FoundIsShortest<R(!new)>(actors: seq<Actor>, start: Config, check: Check<R>, seen: set<Config>, expanded: set<Config>,
                                 queue: seq<Node>, d: nat, child: Node, ce: Counterexample<R>)
    requires WellSized(actors, start) && Depth(start) == 0 && Searching(actors, start, check, seen, expanded, queue, d) && queue != []
    requires GoodNode(actors, start, child) && Depth(child.config) == Depth(queue[0].config) + 1
    requires Verdict(actors, check, child.config).Some?
    requires ce == Counterexample(Trace(child), child.config.memory.task, child.config.memory.world,
                                  Verdict(actors, check, child.config).value)
    ensures Shortest(actors, start, check, ce)
  {
    hide Queued, Closed, Verdict, Terminal;
    QueuedPop(actors, start, queue, d);
    var depth := Depth(queue[0].config);
    var schedule := NodeRun(actors, start, child);
    RunLength(actors, start, schedule);
    assert RealRun(actors, start, check, schedule, ce);
    forall other | Violates(actors, start, check, other) ensures depth < |other| {
      ShallowPasses(actors, start, check, seen, expanded, depth, other);
    }
  }

  lemma ShallowPasses<R(!new)>(actors: seq<Actor>, start: Config, check: Check<R>, seen: set<Config>, expanded: set<Config>,
                               d: nat, schedule: seq<nat>)
    requires WellSized(actors, start) && Depth(start) == 0 && start in seen && AllKnown(actors, start, check, seen)
    requires Closed(actors, expanded, seen) && forall c | c in seen && c !in expanded :: Depth(c) >= d
    ensures |schedule| <= d ==> !Violates(actors, start, check, schedule)
  {
    hide Closed, Verdict, Terminal, Depth;
    if |schedule| <= d && Exec(actors, start, schedule).Some? {
      ShallowSeen(actors, start, expanded, seen, d, schedule);
      assert Known(actors, start, check, Exec(actors, start, schedule).value);
    }
  }

  lemma TerminalIsDeepest(actors: seq<Actor>, c: Config)
    ensures Terminal(actors, c) ==> Depth(c) == TotalSteps(actors)
  {
    if Terminal(actors, c) {
      assert c.pos == Lengths(actors);
    }
  }

  /** What has been looked at when a violation turns up; no script has run to its end by then. */
  lemma FoundExplored<R(!new)>(actors: seq<Actor>, start: Config, check: Check<R>, seen: set<Config>, expanded: set<Config>,
                               queue: seq<Node>, d: nat, child: Node, seen': set<Config>)
    requires WellSized(actors, start) && Depth(start) == 0 && Searching(actors, start, check, seen, expanded, queue, d) && queue != []
    requires GoodNode(actors, start, child) && Depth(child.config) == Depth(queue[0].config) + 1
    requires AllReached(actors, start, seen') && seen <= seen' && Within(seen', Depth(child.config))
    ensures Explored(actors, start, |Trace(child)|, |seen'|) && Terminals(actors, expanded) == {}
  {
    hide Queued, AllKnown, Closed, Verdict, TraceOf;
    QueuedPop(actors, start, queue, d);
    var schedule := NodeRun(actors, start, child);
    RunLength(actors, start, schedule);
    forall c | Reaches(actors, start, c) && Depth(c) < Depth(child.config) ensures c in seen' {
      var other :| Exec(actors, start, other) == Some(c);
      RunLength(actors, start, other);
      ShallowSeen(actors, start, expanded, seen, Depth(queue[0].config), other);
    }
    assert |Trace(child)| == |schedule|;
    DepthBounded(actors, child.config);
    forall c | c in expanded ensures !Terminal(actors, c) {
      TerminalIsDeepest(actors, c);
    }
  }

  /** What the answer of a search means. */
  ghost predicate Answers<R(!new)>(actors: seq<Actor>, start: Config, check: Check<R>, maxNodes: nat, r: Result<R>)
    requires WellSized(actors, start)
  {
    match r
    case NotFound(nodes, interleavings) => Passes(actors, start, check) && Counts(actors, start, nodes, interleavings)
    case Found(ce, nodes, interleavings) =>
      Shortest(actors, start, check, ce) && Explored(actors, start, |ce.trace|, nodes) && interleavings == 0
    case Failed(TooManyStates) => Overflows(actors, start, maxNodes)
    case Failed(UnknownOp) => MeetsUnknownOp(actors, start)
  }

  /** Breadth-first search of all interleavings. Without a finding every reachable configuration
    passes, `nodes` counts them and `interleavings` counts those in which all scripts have ended; a
    finding comes with a shortest real run (and, being shortest, before any script has run out:
    `interleavings` is then always 0). */
  method Search<R(!new)>(actors: seq<Actor>, task: Task, world: World, check: Check<R>, maxNodes: nat) returns (r: Result<R>)
    ensures Answers(actors, Start(actors, task, world), check, maxNodes, r)
    ensures r.NotFound? ==> !MeetsUnknownOp(actors, Start(actors, task, world))
    ensures !r.Failed? ==> r.nodes == 1 || r.nodes <= maxNodes + |actors|
  {
    hide Searching, Grown, Queued, AllKnown, Closed, Depth, Exec, Reaches, Weight, WeightOf, Share, Terminal, WellSized,
         GoodNode;
    hide Shortest, Explored, Passes, Counts, MeetsUnknownOp, Terminals, Configs, Within, Trace, AllReached, OpsKnownAt;
    var root := Root(Start(actors, task, world));
    ghost var start := root.config;
    var verdict := check(task, world, root.config.pos, Terminal(actors, root.config));
    if verdict.Some? {
      StartIsShallow(actors, task, world);
      RootIsShortest(actors, start, check);
      return Found(Counterexample([], task, world, verdict.value), 1, 0);
    }
    var seen, queue, interleavings := {root.config}, [root], 0;
    ghost var expanded: set<Config>, d: nat := {}, 0;
    SearchStarts(actors, task, world, check);
    while queue != []
      invariant Searching(actors, start, check, seen, expanded, queue, d)
      invariant interleavings == |Terminals(actors, expanded)|
      invariant OpsKnown(actors, expanded) && (|seen| == 1 || |seen| <= maxNodes + |actors|)
      decreases Weight(actors, queue)
    {
      var node, rest := queue[0], queue[1..];
      ReadyToExpand(actors, start, check, seen, expanded, queue, d);
      TerminalsGrow(actors, expanded, node.config);
      if Terminal(actors, node.config) {
        TerminalExpanded(actors, start, check, seen, expanded, queue, d);
        TerminalOpsKnown(actors, node.config);
        interleavings := interleavings + 1;
        queue, expanded, d := rest, expanded + {node.config}, Depth(node.config);
        continue;
      }
      if |seen| > maxNodes {
        AllKnownReached(actors, start, check, seen);
        return Failed(TooManyStates);
      }
      var seen', queue', stop := Expand(actors, start, check, node, seen, rest);
      match stop
      case Violation(child) =>
        var trace := BuildTrace(child);
        var c := child.config;
        var reason := check(c.memory.task, c.memory.world, c.pos, Terminal(actors, c)).value;
        var ce := Counterexample(trace, c.memory.task, c.memory.world, reason);
        FoundIsShortest(actors, start, check, seen, expanded, queue, d, child, ce);
        FoundExplored(actors, start, check, seen, expanded, queue, d, child, seen');
        return Found(ce, |seen'|, interleavings);
      case BadOp =>
        MeetsUnknown(actors, start, check, seen, node.config);
        return Failed(UnknownOp);
      case GoOn =>
        ExpandedNow(actors, start, check, seen, expanded, queue, d, seen', queue');
        seen, queue, expanded, d := seen', queue', expanded + {node.config}, Depth(node.config);
    }
    NothingLeft(actors, start, check, seen, expanded, d);
    NothingUnknown(actors, start, check, seen, expanded, d);
    r := NotFound(|seen|, interleavings);
  }

  lemma TerminalOpsKnown(actors: seq<Actor>, c: Config)
    requires Terminal(actors, c)
    ensures OpsKnownAt(actors, c)
  {
  }

  /** When everything reachable has been expanded, no unknown operation can be met. */
  lemma NothingUnknown<R(!new)>(actors: seq<Actor>, start: Config, check: Check<R>, seen: set<Config>, expanded: set<Config>, d: nat)
    requires WellSized(actors, start) && Depth(start) == 0 && Searching(actors, start, check, seen, expanded, [], d)
    requires OpsKnown(actors, expanded)
    ensures !MeetsUnknownOp(actors, start)
  {
    hide AllKnown, Closed, Terminal, Depth, Within, Queued;
    forall c, i: nat | Reaches(actors, start, c) && Enabled(actors, c, i) ensures !NextOp(actors, c, i).Unknown? {
      var schedule :| Exec(actors, start, schedule) == Some(c);
      EverythingExpanded(actors, start, check, seen, expanded, d, schedule);
      assert OpsKnownAt(actors, c);
    }
  }

  lemma EverythingExpanded<R(!new)>(actors: seq<Actor>, start: Config, check: Check<R>, seen: set<Config>, expanded: set<Config>, d: nat,
                                    schedule: seq<nat>)
    requires WellSized(actors, start) && Depth(start) == 0 && Searching(actors, start, check, seen, expanded, [], d)
    requires Exec(actors, start, schedule).Some?
    ensures Exec(actors, start, schedule).value in expanded
  {
    assert seen == expanded;
    ShallowSeen(actors, start, expanded, seen, |schedule|, schedule);
  }

  lemma MeetsUnknown<R(!new)>(actors: seq<Actor>, start: Config, check: Check<R>, seen: set<Config>, c: Config)
    requires WellSized(actors, start) && AllKnown(actors, start, check, seen) && c in seen
    requires exists i: nat :: Enabled(actors, c, i) && NextOp(actors, c, i).Unknown?
    ensures MeetsUnknownOp(actors, start)
  {
    assert Known(actors, start, check, c);
  }

  /** What expanding the head of the queue asks for. */
  lemma ReadyToExpand<R(!new)>(actors: seq<Actor>, start: Config, check: Check<R>, seen: set<Config>, expanded: set<Config>,
                               queue: seq<Node>, d: nat)
    requires WellSized(actors, start) && Searching(actors, start, check, seen, expanded, queue, d) && queue != []
    ensures AllKnown(actors, start, check, seen) && queue[0].config in seen && queue[0].config !in expanded
    ensures WellSized(actors, queue[0].config) && GoodNode(actors, start, queue[0])
    ensures Queued(actors, start, queue[1..], Depth(queue[0].config)) && Configs(queue[1..]) <= seen
    ensures Within(seen, Depth(queue[0].config) + 1)
    ensures Weight(actors, queue[1..]) + |actors| * Share(actors, queue[0].config) < Weight(actors, queue)
  {
    hide Queued, AllKnown, Depth, WeightOf, Share, Closed;
    QueuedPop(actors, start, queue, d);
    WeightPop(actors, queue);
    SharesFit(actors, queue[0].config);
  }

  lemma SearchStarts<R(!new)>(actors: seq<Actor>, task: Task, world: World, check: Check<R>)
    requires Verdict(actors, check, Start(actors, task, world)).None?
    ensures var start := Start(actors, task, world);
            && Depth(start) == 0 && Searching(actors, start, check, {start}, {}, [Root(start)], 0)
            && |Terminals(actors, {})| == 0
  {
    hide Terminal, Exec, Depth;
    StartIsShallow(actors, task, world);
    var start := Start(actors, task, world);
    ReachesStart(actors, start);
    assert Known(actors, start, check, start);
    assert Configs([Root(start)]) == {start} by {
      assert [Root(start)][0].config == start;
    }
  }

  lemma StartIsShallow(actors: seq<Actor>, task: Task, world: World)
    ensures Depth(Start(actors, task, world)) == 0
  {
    StartDepth(|actors|);
  }

  lemma RootIsShortest<R(!new)>(actors: seq<Actor>, start: Config, check: Check<R>)
    requires WellSized(actors, start) && Verdict(actors, check, start).Some?
    requires Depth(start) == 0
    ensures Shortest(actors, start, check, Counterexample([], start.memory.task, start.memory.world, Verdict(actors, check, start).value))
    ensures Explored(actors, start, 0, 1)
  {
    ReachesStart(actors, start);
    assert AllReached(actors, start, {start}) && Within({start}, 0);
    assert RealRun(actors, start, check, [], Counterexample([], start.memory.task, start.memory.world, Verdict(actors, check, start).value));
  }

  lemma TerminalExpanded<R(!new)>(actors: seq<Actor>, start: Config, check: Check<R>, seen: set<Config>, expanded: set<Config>,
                                  queue: seq<Node>, d: nat)
    requires WellSized(actors, start) && Searching(actors, start, check, seen, expanded, queue, d)
    requires queue != [] && Terminal(actors, queue[0].config)
    ensures Searching(actors, start, check, seen, expanded + {queue[0].config}, queue[1..], Depth(queue[0].config))
  {
    hide Queued, AllKnown, Depth, Exec;
    QueuedPop(actors, start, queue, d);
  }

  // ------------------------------------------------------------------ replay

  function LastWithPid(actors: seq<Actor>, pid: int): Option<nat> {
    if actors == [] then None
    else if actors[|actors| - 1].pid == pid then Some(|actors| - 1)
    else LastWithPid(actors[..|actors| - 1], pid)
  }

  lemma {:induction false} LastIsAnActor(actors: seq<Actor>, pid: int)
    ensures LastWithPid(actors, pid).Some? ==>
      LastWithPid(actors, pid).value < |actors| && actors[LastWithPid(actors, pid).value].pid == pid
    ensures LastWithPid(actors, pid).None? <==> forall i | 0 <= i < |actors| :: actors[i].pid != pid
  {
    if actors != [] && actors[|actors| - 1].pid != pid {
      LastIsAnActor(actors[..|actors| - 1], pid);
    }
  }

  method IndexByPid(actors: seq<Actor>) returns (byPid: map<int, nat>)
    ensures forall pid :: (pid in byPid <==> LastWithPid(actors, pid).Some?)
    ensures forall pid | pid in byPid :: LastWithPid(actors, pid) == Some(byPid[pid])
  {
    byPid := map[];
    for i := 0 to |actors|
      invariant forall pid :: (pid in byPid <==> LastWithPid(actors[..i], pid).Some?)
      invariant forall pid | pid in byPid :: LastWithPid(actors[..i], pid) == Some(byPid[pid])
    {
      assert actors[..i + 1][..i] == actors[..i];
      byPid := byPid[actors[i].pid := i];
    }
    assert actors[..|actors|] == actors;
  }

  /** Carry out recorded operations, each by the last actor listed with its pid; a pid no actor has and an
    unknown operation end the replay. */
  function Replayed(actors: seq<Actor>, m: Memory, trace: seq<StepDesc>): (r: Option<Memory>)
    requires |m.localSeq| == |actors|
    ensures r.Some? ==> |r.value.localSeq| == |actors|
  {
    if trace == [] then Some(m)
    else
      var before, desc := Replayed(actors, m, trace[..|trace| - 1]), trace[|trace| - 1];
      var i := LastWithPid(actors, desc.pid);
      LastIsAnActor(actors, desc.pid);
      if before.None? || i.None? || desc.op.Unknown? then None else Some(StepOf(before.value, i.value, actors[i.value], desc.op).0)
  }

  datatype ReplayResult<R> = End(finalTask: Task, finalWorld: World, reason: Option<R>)

  /** Replay looks at the end of the trace as if all scripts had ended. */
  function EndVerdict<R>(actors: seq<Actor>, check: Check<R>, m: Memory): Option<R> {
    check(m.task, m.world, Lengths(actors), true)
  }

  /** None stands for the exception a trace with a foreign pid or an unknown operation runs into. */
  method Replay<R>(actors: seq<Actor>, task: Task, world: World, trace: seq<StepDesc>, check: Check<R>) returns (r: Option<ReplayResult<R>>)
    ensures var m := Replayed(actors, Start(actors, task, world).memory, trace);
      r == if m.None? then None else Some(End(m.value.task, m.value.world, EndVerdict(actors, check, m.value)))
  {
    var machine := new Machine(task, world, seq(|actors|, _ => None));
    var byPid := IndexByPid(actors);
    for k := 0 to |trace|
      invariant Replayed(actors, Start(actors, task, world).memory, trace[..k]) == Some(machine.Contents())
      invariant |machine.localSeq| == |actors|
    {
      assert trace[..k + 1][..k] == trace[..k];
      LastIsAnActor(actors, trace[k].pid);
      if trace[k].pid !in byPid || trace[k].op.Unknown? {
        ReplayStuck(actors, Start(actors, task, world).memory, trace, k + 1);
        return None;
      }
      var i := byPid[trace[k].pid];
      var _ := machine.Step(i, actors[i], trace[k].op);
    }
    assert trace[..|trace|] == trace;
    var reason := check(machine.task, machine.world, Lengths(actors), true);
    r := Some(End(machine.task, machine.world, reason));
  }

  lemma {:induction false} ReplayStuck(actors: seq<Actor>, m: Memory, trace: seq<StepDesc>, k: nat)
    requires |m.localSeq| == |actors| && k <= |trace| && Replayed(actors, m, trace[..k]).None?
    ensures Replayed(actors, m, trace).None?
    decreases |trace| - k
  {
    if k == |trace| {
      assert trace[..k] == trace;
    } else {
      assert trace[..k + 1][..k] == trace[..k];
      ReplayStuck(actors, m, trace, k + 1);
    }
  }

  /** No actor has the pid, or the checker does not know the operation. */
  predicate Unplayable(actors: seq<Actor>, desc: StepDesc) {
    desc.op.Unknown? || forall i | 0 <= i < |actors| :: actors[i].pid != desc.pid
  }

  /** A trace can be replayed exactly if each of its steps can. */
  lemma {:induction false} ReplayedIff(actors: seq<Actor>, m: Memory, trace: seq<StepDesc>)
    requires |m.localSeq| == |actors|
    ensures Replayed(actors, m, trace).Some? <==> forall k | 0 <= k < |trace| :: !Unplayable(actors, trace[k])
  {
    if trace != [] {
      hide StepOf, Unplayable;
      var init, desc := trace[..|trace| - 1], trace[|trace| - 1];
      ReplayedIff(actors, m, init);
      OneUnplayable(actors, desc);
      assert forall k | 0 <= k < |init| :: init[k] == trace[k];
    }
  }

  lemma OneUnplayable(actors: seq<Actor>, desc: StepDesc)
    ensures Unplayable(actors, desc) <==> desc.op.Unknown? || LastWithPid(actors, desc.pid).None?
  {
    LastIsAnActor(actors, desc.pid);
  }

  predicate DistinctPids(actors: seq<Actor>) {
    forall i, j | 0 <= i < j < |actors| :: actors[i].pid != actors[j].pid
  }

  /** Every recorded pid leads back to the actor that moved. */
  predicate Resolves(actors: seq<Actor>, schedule: seq<nat>) {
    forall k | 0 <= k < |schedule| :: schedule[k] < |actors| && LastWithPid(actors, actors[schedule[k]].pid) == Some(schedule[k])
  }

  /** A run whose pids resolve replays to the memory it ended with, even if other actors share pids. */
  lemma {:induction false} ReplayReproduces(actors: seq<Actor>, start: Config, schedule: seq<nat>)
    requires WellSized(actors, start) && Exec(actors, start, schedule).Some? && Resolves(actors, schedule)
    requires KnownTrace(TraceOf(actors, start, schedule))
    ensures Replayed(actors, start.memory, TraceOf(actors, start, schedule)) == Some(Exec(actors, start, schedule).value.memory)
  {
    if schedule != [] {
      hide StepOf;
      var init, i := schedule[..|schedule| - 1], schedule[|schedule| - 1];
      var trace := TraceOf(actors, start, schedule);
      assert trace[..|trace| - 1] == TraceOf(actors, start, init);
      assert forall k | 0 <= k < |trace| - 1 :: trace[k] == TraceOf(actors, start, init)[k];
      ReplayReproduces(actors, start, init);
    }
  }

  /** With distinct pids every run resolves. */
  lemma {:induction false} DistinctPidsResolve(actors: seq<Actor>, start: Config, schedule: seq<nat>)
    requires DistinctPids(actors) && WellSized(actors, start) && Exec(actors, start, schedule).Some?
    ensures Resolves(actors, schedule)
  {
    hide StepOf;
    if schedule != [] {
      var init, i := schedule[..|schedule| - 1], schedule[|schedule| - 1];
      DistinctPidsResolve(actors, start, init);
      LastIsAnActor(actors, actors[i].pid);
      assert forall k | 0 <= k < |init| :: schedule[k] == init[k];
    }
  }

  /** Replaying a counterexample whose pids resolve reaches its recorded final task and world; its
    reason comes back as well if the assertion looks at neither positions nor the end-of-scripts flag. */
  lemma CounterexampleReplays<R(!new)>(actors: seq<Actor>, task: Task, world: World, check: Check<R>, ce: Counterexample<R>, schedule: seq<nat>)
    requires RealRun(actors, Start(actors, task, world), check, schedule, ce) && Resolves(actors, schedule)
    ensures var m := Replayed(actors, Start(actors, task, world).memory, ce.trace);
      && m.Some? && m.value.task == ce.finalTask && m.value.world == ce.finalWorld
      && ((forall t, w, pos, b, pos', b' :: check(t, w, pos, b) == check(t, w, pos', b')) ==>
            EndVerdict(actors, check, m.value) == Some(ce.reason))
  {
    ReplayReproduces(actors, Start(actors, task, world), schedule);
  }

  /** So with distinct pids every counterexample of the search replays. */
  lemma FoundReplays<R(!new)>(actors: seq<Actor>, task: Task, world: World, check: Check<R>, ce: Counterexample<R>)
    requires DistinctPids(actors) && Shortest(actors, Start(actors, task, world), check, ce)
    ensures var m := Replayed(actors, Start(actors, task, world).memory, ce.trace);
      && m.Some? && m.value.task == ce.finalTask && m.value.world == ce.finalWorld
      && ((forall t, w, pos, b, pos', b' :: check(t, w, pos, b) == check(t, w, pos', b')) ==>
            EndVerdict(actors, check, m.value) == Some(ce.reason))
  {
    hide Exec, Replayed, Verdict;
    var schedule :| RealRun(actors, Start(actors, task, world), check, schedule, ce);
    DistinctPidsResolve(actors, Start(actors, task, world), schedule);
    CounterexampleReplays(actors, task, world, check, ce, schedule);
  }

  lemma TracePush(actors: seq<Actor>, start: Config, schedule: seq<nat>, i: nat, c: Config)
    requires WellSized(actors, start) && Exec(actors, start, schedule) == Some(c) && Enabled(actors, c, i)
    ensures Exec(actors, start, schedule + [i]) == Some(Next(actors, c, i))
    ensures TraceOf(actors, start, schedule + [i]) == TraceOf(actors, start, schedule) + [DescOf(actors, c, i)]
  {
    ExecPush(actors, start, schedule, i, c);
    assert (schedule + [i])[..|schedule|] == schedule;
  }

  lemma ReplayPush(actors: seq<Actor>, m: Memory, trace: seq<StepDesc>, desc: StepDesc, i: nat, m': Memory)
    requires |m.localSeq| == |actors| && Replayed(actors, m, trace) == Some(m')
    requires i < |actors| && LastWithPid(actors, desc.pid) == Some(i) && !desc.op.Unknown?
    ensures Replayed(actors, m, trace + [desc]) == Some(StepOf(m', i, actors[i], desc.op).0)
  {
    assert (trace + [desc])[..|trace|] == trace;
  }

  /** With two actors of one pid the replay confuses them. */
  lemma SharedPidMisreplays()
    ensures var actors := [Actor(1, 0, [ReadSeq]), Actor(1, 0, [WriteEvent("e")])];
      var start := Start(actors, FreshTask, map[]);
      && Exec(actors, start, [0, 1]).Some?
      && Replayed(actors, start.memory, TraceOf(actors, start, [0, 1])) != Some(Exec(actors, start, [0, 1]).value.memory)
  {
    var actors := [Actor(1, 0, [ReadSeq]), Actor(1, 0, [WriteEvent("e")])];
    var start := Start(actors, FreshTask, map[]);
    var c1 := Next(actors, start, 0);
    var c2 := Next(actors, c1, 1);
    assert c2.memory.task.events == [Event(None, "e")];
    var d1, d2 := DescOf(actors, start, 0), DescOf(actors, c1, 1);
    var m1 := StepOf(start.memory, 1, actors[1], ReadSeq).0;
    assert StepOf(m1, 1, actors[1], WriteEvent("e")).0.task.events == [Event(Some(1), "e")];
    assert LastWithPid(actors, 1) == Some(1);
    hide Start, StepOf;
    assert [0] + [1] == [0, 1] && [] + [0] == [0] && [d1] + [d2] == [d1, d2] && [] + [d1] == [d1];
    TracePush(actors, start, [], 0, start);
    TracePush(actors, start, [0], 1, c1);
    ReplayPush(actors, start.memory, [], d1, 1, start.memory);
    ReplayPush(actors, start.memory, [d1], d2, 1, m1);
  }
}
