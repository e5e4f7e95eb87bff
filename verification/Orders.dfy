/** The concurrent part of E-3 and the repaired E-4 (asmfs/specs/E-3.json, E-4.json) for every number of
  actors: what the search reports where the order of the steps leaves no trace, and where it leaves a
  complete one. In the first case all ways of having moved are reachable and there is one outcome, in
  the second the reachable configurations are the orders without repetition. */
module Orders {
  import opened Wrappers
  import opened Asmfs
  import opened ModelChecker
  import opened Lifecycle

  // ------------------------------------------------------------------ E-3: nobody adopts a reused pid

  /** Scripts of equal length of which any first step leads to one memory that no later step changes. */
  ghost predicate FirstStepSettles(actors: seq<Actor>, start: Config, length: nat, after: Memory) {
    && WellSized(actors, start) && start.pos == Zeros(|actors|) && |after.localSeq| == |actors|
    && forall i | 0 <= i < |actors| ::
         && |actors[i].script| == length
         && forall k | 0 <= k < length ::
              && StepOf(start.memory, i, actors[i], actors[i].script[k]).0 == after
              && StepOf(after, i, actors[i], actors[i].script[k]).0 == after
  }

  function SettledAt(before: Memory, after: Memory, p: seq<nat>): Config {
    Config(if p == Zeros(|p|) then before else after, p)
  }

  function SettledSet(before: Memory, after: Memory, ps: set<seq<nat>>): set<Config> {
    set p | p in ps :: SettledAt(before, after, p)
  }

  lemma SettledSetSize(before: Memory, after: Memory, ps: set<seq<nat>>)
    ensures |SettledSet(before, after, ps)| == |ps|
    decreases |ps|
  {
    if ps == {} {
      assert SettledSet(before, after, ps) == {};
    } else {
      var p :| p in ps;
      SettledSetSize(before, after, ps - {p});
      assert SettledSet(before, after, ps) == SettledSet(before, after, ps - {p}) + {SettledAt(before, after, p)};
    }
  }

  lemma StepIsSettled(actors: seq<Actor>, start: Config, length: nat, after: Memory, p: seq<nat>, i: nat)
    requires FirstStepSettles(actors, start, length, after) && |p| == |actors| && i < |actors|
    requires Enabled(actors, SettledAt(start.memory, after, p), i)
    ensures Next(actors, SettledAt(start.memory, after, p), i) == SettledAt(start.memory, after, p[i := p[i] + 1])
  {
    hide StepOf;
    assert p[i := p[i] + 1][i] != 0;
  }

  lemma {:induction false} RunsSettle(actors: seq<Actor>, start: Config, length: nat, after: Memory, schedule: seq<nat>)
    requires FirstStepSettles(actors, start, length, after) && Exec(actors, start, schedule).Some?
    ensures var c := Exec(actors, start, schedule).value;
            c == SettledAt(start.memory, after, c.pos) && |c.pos| == |actors|
  {
    hide StepOf;
    if schedule != [] {
      var init, i := schedule[..|schedule| - 1], schedule[|schedule| - 1];
      RunsSettle(actors, start, length, after, init);
      StepIsSettled(actors, start, length, after, Exec(actors, start, init).value.pos, i);
    }
  }

  lemma {:induction false} SettledReached(actors: seq<Actor>, start: Config, length: nat, after: Memory, p: seq<nat>)
    requires FirstStepSettles(actors, start, length, after) && |p| == |actors| && forall i | 0 <= i < |p| :: p[i] <= length
    ensures Reaches(actors, start, SettledAt(start.memory, after, p))
    decreases Sum(p)
  {
    hide StepOf, Reaches;
    if p == Zeros(|p|) {
      ReachesStart(actors, start);
    } else {
      var i :| 0 <= i < |p| && p[i] > 0;
      var q := p[i := p[i] - 1];
      SumUpdate(p, i, p[i] - 1);
      SettledReached(actors, start, length, after, q);
      StepIsSettled(actors, start, length, after, q, i);
      assert q[i := q[i] + 1] == p;
      ReachesNext(actors, start, SettledAt(start.memory, after, q), i);
    }
  }

  lemma SettledIsReachSet(actors: seq<Actor>, start: Config, length: nat, after: Memory)
    requires FirstStepSettles(actors, start, length, after)
    ensures IsReachSet(actors, start, SettledSet(start.memory, after, Box(Zeros(|actors|), length)))
  {
    hide StepOf, Exec, Box;
    var n, all := |actors|, SettledSet(start.memory, after, Box(Zeros(|actors|), length));
    forall c: Config ensures c in all <==> Reaches(actors, start, c) {
      InBox(Zeros(n), length, c.pos);
      if c in all {
        SettledReached(actors, start, length, after, c.pos);
      }
      if Reaches(actors, start, c) {
        var schedule :| Exec(actors, start, schedule) == Some(c);
        RunsSettle(actors, start, length, after, schedule);
      }
    }
  }

  lemma OneTerminal(actors: seq<Actor>, start: Config, length: nat, after: Memory)
    requires FirstStepSettles(actors, start, length, after)
    ensures |Terminals(actors, SettledSet(start.memory, after, Box(Zeros(|actors|), length)))| == 1
  {
    hide StepOf, Box;
    var n, all := |actors|, SettledSet(start.memory, after, Box(Zeros(|actors|), length));
    var last: seq<nat> := seq(n, _ => length);
    InBox(Zeros(n), length, last);
    forall c: Config ensures c in Terminals(actors, all) <==> c == SettledAt(start.memory, after, last) {
      if c in all && Terminal(actors, c) {
        assert c.pos == last;
      }
    }
    assert Terminals(actors, all) == {SettledAt(start.memory, after, last)};
  }

  /** The owner of pid 1 crashed and the pid belongs to another process now. */
  const E3Prelude: Memory :=
    var owner, reuser := Actor(1, 100, []), Actor(1, 200, []);
    var spawned := StepOf(Memory(FreshTask, map[], [None]), 0, owner, Spawn).0;
    StepOf(StepOf(spawned, 0, owner, Crash).0, 0, reuser, Spawn).0

  lemma PreludeIs()
    ensures E3Prelude.world == map[1 := Process(true, 200)]
    ensures E3Prelude.task == FreshTask.(lock := Some(Lock(1, Some(100))), markers := FreshTask.markers.(orphaned := true))
  {
  }

  function ReuseActors(n: nat): (actors: seq<Actor>)
    ensures |actors| == n && DistinctPids(actors)
  {
    seq(n, i requires 0 <= i < n => Actor(5000 + i, 4000 + i, [Op.Adopt]))
  }

  function E3Check(t: Task, world: World, pos: seq<nat>, isTerminal: bool): Option<Reason> {
    if t.adoptWins > 0 then Some(TooManyWins)
    else if isTerminal && t.lastLiveness != Some(PidReused) then Some(NotReused)
    else if isTerminal && !t.markers.orphaned then Some(OrphanCleared)
    else if isTerminal && t.markers.adopted then Some(WronglyAdopted)
    else None
  }

  function E3After(n: nat): (after: Memory)
    ensures |after.localSeq| == n
  {
    Memory(E3Prelude.task.(lastLiveness := Some(PidReused)), E3Prelude.world, seq(n, _ => None))
  }

  function E3Start(n: nat): Config {
    Start(ReuseActors(n), E3Prelude.task, E3Prelude.world)
  }

  lemma E3Settles(n: nat)
    ensures FirstStepSettles(ReuseActors(n), E3Start(n), 1, E3After(n))
  {
    PreludeIs();
    hide E3Prelude;
    assert E3Start(n).pos == Zeros(n);
  }

  lemma E3Verdicts(n: nat, pos: seq<nat>, isTerminal: bool)
    ensures E3Check(E3After(n).task, E3Prelude.world, pos, isTerminal).None?
    ensures E3Check(E3Prelude.task, E3Prelude.world, pos, isTerminal).Some? <==> isTerminal
  {
  }

  lemma E3Passes(n: nat)
    requires n > 0
    ensures Passes(ReuseActors(n), E3Start(n), E3Check)
  {
    hide Exec, E3Check, E3After, E3Start, FirstStepSettles;
    E3Settles(n);
    E3Sizes(n);
    forall c | Reaches(ReuseActors(n), E3Start(n), c) ensures Verdict(ReuseActors(n), E3Check, c).None? {
      var schedule :| Exec(ReuseActors(n), E3Start(n), schedule) == Some(c);
      RunsSettle(ReuseActors(n), E3Start(n), 1, E3After(n), schedule);
      E3Verdicts(n, c.pos, Terminal(ReuseActors(n), c));
      if c.pos == Zeros(n) {
        assert c.pos[0] == 0;
      }
    }
  }

  lemma E3Sizes(n: nat)
    ensures WellSized(ReuseActors(n), E3Start(n)) && forall i | 0 <= i < n :: |ReuseActors(n)[i].script| == 1
    ensures E3Start(n).memory.task == E3Prelude.task && E3Start(n).memory.world == E3After(n).world == E3Prelude.world
  {
  }

  /** Checking the concurrent part of E-3 finds nothing for any number of adopters but none: 2^n
    configurations, and however they interleave one outcome, nobody adopted. */
  method CheckE3(n: nat) returns (r: Result<Reason>)
    ensures n > 0 ==> !r.Found?
    ensures n > 0 && Pow(2, n) <= MAX_NODES ==> r == NotFound(Pow(2, n), 1)
    ensures n == 0 ==> !r.NotFound?
  {
    hide Answers, FirstStepSettles, Passes, Start, IsReachSet, Pow, Box, E3Check;
    var actors := ReuseActors(n);
    r := Search(actors, E3Prelude.task, E3Prelude.world, E3Check, MAX_NODES);
    if n > 0 {
      E3Settles(n);
      E3Passes(n);
      E3Counts(n);
      assert KnownOps(actors);
      ReportsReachSet(actors, E3Start(n), SettledSet(E3Start(n).memory, E3After(n), Box(Zeros(n), 1)), E3Check, r);
    } else {
      E3Verdicts(0, [], true);
      NobodyToMove(actors, E3Prelude.task, E3Prelude.world, E3Check, r);
    }
  }

  lemma E3Counts(n: nat)
    ensures WellSized(ReuseActors(n), E3Start(n))
    ensures var all := SettledSet(E3Start(n).memory, E3After(n), Box(Zeros(n), 1));
            IsReachSet(ReuseActors(n), E3Start(n), all) && |all| == Pow(2, n) && |Terminals(ReuseActors(n), all)| == 1
  {
    hide FirstStepSettles, IsReachSet, Pow, Box, E3Start, E3After;
    E3Settles(n);
    E3Sizes(n);
    SettledIsReachSet(ReuseActors(n), E3Start(n), 1, E3After(n));
    SettledSetSize(E3Start(n).memory, E3After(n), Box(Zeros(n), 1));
    FullBox(n, 1);
    OneTerminal(ReuseActors(n), E3Start(n), 1, E3After(n));
  }

  // ------------------------------------------------------------------ E-4: appending in one step

  function AppendActors(n: nat): (actors: seq<Actor>)
    ensures |actors| == n && DistinctPids(actors)
  {
    seq(n, i requires 0 <= i < n => Actor(4000 + i, 6000 + i, [AppendEvent(EventName(i))]))
  }

  function AppendStart(n: nat): Config {
    Start(AppendActors(n), FreshTask, map[])
  }

  /** An order in which some of the n actors have moved. */
  predicate Arrangement(n: nat, order: seq<nat>) {
    && (forall k | 0 <= k < |order| :: order[k] < n)
    && (forall j, k | 0 <= j < k < |order| :: order[j] != order[k])
  }

  /** The events of that order, and who has moved. */
  function Appended(n: nat, order: seq<nat>): Config {
    var events := seq(|order|, k requires 0 <= k < |order| => Event(Some(k + 1), EventName(order[k])));
    Config(Memory(FreshTask.(events := events), map[], seq(n, _ => None)), seq(n, i => if i in order then 1 else 0))
  }

  lemma AppendStep(n: nat, order: seq<nat>, i: nat)
    requires Arrangement(n, order)
    ensures WellSized(AppendActors(n), Appended(n, order))
    ensures Enabled(AppendActors(n), Appended(n, order), i) <==> i < n && i !in order
    ensures i < n && i !in order ==> Next(AppendActors(n), Appended(n, order), i) == Appended(n, order + [i])
  {
    if i < n && i !in order {
      var c, c' := Next(AppendActors(n), Appended(n, order), i), Appended(n, order + [i]);
      assert c.memory.task.events == c'.memory.task.events;
      assert c.pos == c'.pos;
    }
  }

  /** Runs are arrangements: each actor moves at most once, and the log shows the order. */
  lemma {:induction false} RunsArrange(n: nat, schedule: seq<nat>)
    ensures Exec(AppendActors(n), AppendStart(n), schedule).Some? <==> Arrangement(n, schedule)
    ensures Arrangement(n, schedule) ==> Exec(AppendActors(n), AppendStart(n), schedule) == Some(Appended(n, schedule))
  {
    hide Appended, AppendActors, AppendStart, Next, Enabled;
    if schedule == [] {
      AppendedNothing(n);
    } else {
      var init, i := schedule[..|schedule| - 1], schedule[|schedule| - 1];
      assert schedule == init + [i];
      RunsArrange(n, init);
      ArrangementPush(n, init, i);
      if Arrangement(n, init) {
        AppendStep(n, init, i);
      }
    }
  }

  lemma AppendedNothing(n: nat)
    ensures Appended(n, []) == AppendStart(n)
  {
    assert Appended(n, []).pos == AppendStart(n).pos;
  }

  lemma ArrangementPush(n: nat, order: seq<nat>, i: nat)
    ensures Arrangement(n, order + [i]) <==> Arrangement(n, order) && i < n && i !in order
  {
    var more := order + [i];
    assert more[|order|] == i && forall k | 0 <= k < |order| :: more[k] == order[k];
    if Arrangement(n, more) {
      forall k | 0 <= k < |order| ensures order[k] < n && order[k] != i {
        assert more[k] < n && more[k] != more[|order|];
      }
      forall j, k | 0 <= j < k < |order| ensures order[j] != order[k] {
        assert more[j] != more[k];
      }
    }
  }

  lemma AppendedInjective(n: nat, a: seq<nat>, b: seq<nat>)
    requires Appended(n, a) == Appended(n, b)
    ensures a == b
  {
    var ea, eb := Appended(n, a).memory.task.events, Appended(n, b).memory.task.events;
    assert |a| == |ea| && |b| == |eb|;
    forall k | 0 <= k < |a| ensures a[k] == b[k] {
      assert ea[k] == Event(Some(k + 1), EventName(a[k])) && eb[k] == Event(Some(k + 1), EventName(b[k]));
      NamesDiffer(a[k], b[k]);
    }
  }

  // ------------------------------------------------------------------ counting arrangements

  /** Arrangements of k out of n. */
  function Arrangements(n: nat, k: nat): set<seq<nat>> {
    if k == 0 then {[]} else Extended(n, Arrangements(n, k - 1))
  }

  function Extended(n: nat, orders: set<seq<nat>>): set<seq<nat>> {
    set q, i | q in orders && 0 <= i < n && i !in q :: q + [i]
  }

  /** n * (n - 1) * ... * (n - k + 1) */
  function Falling(n: nat, k: nat): nat
    requires k <= n
  {
    if k == 0 then 1 else Times(Falling(n, k - 1), n - k + 1)
  }

  function Factorial(n: nat): nat {
    Falling(n, n)
  }

  function Free(n: nat, q: seq<nat>): set<nat> {
    set i | 0 <= i < n && i !in q
  }

  lemma {:induction false} ElementCount(n: nat, q: seq<nat>)
    requires Arrangement(n, q)
    ensures |q| <= n && |Free(n, q)| == n - |q|
    decreases |q|
  {
    if q == [] {
      AllFree(n);
    } else {
      var init, last := q[..|q| - 1], q[|q| - 1];
      assert q == init + [last];
      ArrangementPush(n, init, last);
      ElementCount(n, init);
      assert Free(n, init) == Free(n, q) + {last};
    }
  }

  lemma {:induction false} AllFree(n: nat)
    ensures |Free(n, [])| == n
  {
    if n == 0 {
      assert Free(n, []) == {};
    } else {
      AllFree(n - 1);
      assert Free(n, []) == Free(n - 1, []) + {n - 1};
    }
  }

  lemma {:induction false} PushSize(q: seq<nat>, free: set<nat>)
    ensures |set i | i in free :: q + [i]| == |free|
    decreases |free|
  {
    var image := set i | i in free :: q + [i];
    if free == {} {
      assert image == {};
    } else {
      var x :| x in free;
      PushSize(q, free - {x});
      assert image == (set i | i in free - {x} :: q + [i]) + {q + [x]};
      forall i | i in free - {x} ensures q + [i] != q + [x] {
        assert (q + [i])[|q|] == i && (q + [x])[|q|] == x;
      }
    }
  }

  function Pushed(n: nat, q: seq<nat>): set<seq<nat>> {
    set i | i in Free(n, q) :: q + [i]
  }

  lemma {:induction false} ExtendedSize(n: nat, orders: set<seq<nat>>, k: nat)
    requires k < n && forall q | q in orders :: Arrangement(n, q) && |q| == k
    ensures |Extended(n, orders)| == Times(|orders|, n - k)
    decreases |orders|
  {
    hide Times, Arrangement, Free, Pushed, Extended;
    if orders == {} {
      NoneExtended(n);
      TimesStep(0, n - k);
    } else {
      var q :| q in orders;
      var rest := orders - {q};
      ExtendedSize(n, rest, k);
      PushedSize(n, q);
      ExtendedSplit(n, orders, q);
      DisjointSize(Extended(n, rest), Pushed(n, q));
      TimesStep(|rest|, n - k);
    }
  }

  lemma NoneExtended(n: nat)
    ensures Extended(n, {}) == {}
  {
  }

  lemma PushedSize(n: nat, q: seq<nat>)
    requires Arrangement(n, q)
    ensures |Pushed(n, q)| == n - |q|
  {
    hide Free, Arrangement;
    ElementCount(n, q);
    PushSize(q, Free(n, q));
  }

  lemma ExtendedSplit(n: nat, orders: set<seq<nat>>, q: seq<nat>)
    requires q in orders && forall p | p in orders :: |p| == |q|
    ensures Extended(n, orders) == Extended(n, orders - {q}) + Pushed(n, q)
    ensures Extended(n, orders - {q}) !! Pushed(n, q)
  {
    forall p, i: nat, j: nat | p in orders - {q} ensures p + [i] != q + [j] {
      assert (p + [i])[..|q|] == p && (q + [j])[..|q|] == q;
    }
  }

  lemma {:induction false} ArrangementsCount(n: nat, k: nat)
    requires k <= n
    ensures forall q :: q in Arrangements(n, k) <==> Arrangement(n, q) && |q| == k
    ensures |Arrangements(n, k)| == Falling(n, k)
  {
    hide Arrangement, Times;
    if k == 0 {
      ArrangementNone(n);
    } else {
      ArrangementsCount(n, k - 1);
      ExtendedSize(n, Arrangements(n, k - 1), k - 1);
      forall q: seq<nat> ensures q in Arrangements(n, k) <==> Arrangement(n, q) && |q| == k {
        if |q| == k {
          assert q == q[..k - 1] + [q[k - 1]];
          ArrangementPush(n, q[..k - 1], q[k - 1]);
        }
        if q in Arrangements(n, k) {
          var p, i :| p in Arrangements(n, k - 1) && 0 <= i < n && i !in p && q == p + [i];
          ArrangementPush(n, p, i);
        }
      }
    }
  }

  lemma ArrangementNone(n: nat)
    ensures Arrangement(n, [])
  {
  }

  /** Arrangements of at most k out of n. */
  function AllUpTo(n: nat, k: nat): set<seq<nat>> {
    Arrangements(n, k) + if k == 0 then {} else AllUpTo(n, k - 1)
  }

  /** The sum of n! / (n - j)! for j up to k. */
  function FallingSum(n: nat, k: nat): nat
    requires k <= n
  {
    Falling(n, k) + if k == 0 then 0 else FallingSum(n, k - 1)
  }

  lemma {:induction false} AllUpToCount(n: nat, k: nat)
    requires k <= n
    ensures forall q :: q in AllUpTo(n, k) <==> Arrangement(n, q) && |q| <= k
    ensures |AllUpTo(n, k)| == FallingSum(n, k)
  {
    hide Arrangement, Arrangements, Falling;
    ArrangementsCount(n, k);
    if k > 0 {
      AllUpToCount(n, k - 1);
      DisjointSize(Arrangements(n, k), AllUpTo(n, k - 1));
    }
  }

  // ------------------------------------------------------------------ what the search reports

  function AppendedSet(n: nat, orders: set<seq<nat>>): set<Config> {
    set q | q in orders :: Appended(n, q)
  }

  lemma {:induction false} AppendedSetSize(n: nat, orders: set<seq<nat>>)
    ensures |AppendedSet(n, orders)| == |orders|
    decreases |orders|
  {
    hide Appended;
    if orders == {} {
      assert AppendedSet(n, orders) == {};
    } else {
      var q :| q in orders;
      AppendedSetSize(n, orders - {q});
      assert AppendedSet(n, orders) == AppendedSet(n, orders - {q}) + {Appended(n, q)};
      forall p | p in orders - {q} ensures Appended(n, p) != Appended(n, q) {
        if Appended(n, p) == Appended(n, q) {
          AppendedInjective(n, p, q);
        }
      }
    }
  }

  lemma AppendReachSet(n: nat)
    ensures WellSized(AppendActors(n), AppendStart(n))
    ensures IsReachSet(AppendActors(n), AppendStart(n), AppendedSet(n, AllUpTo(n, n)))
  {
    hide Exec, Appended, AppendActors, AppendStart, Arrangement, AllUpTo;
    AppendSized(n);
    AllUpToCount(n, n);
    forall c: Config ensures c in AppendedSet(n, AllUpTo(n, n)) <==> Reaches(AppendActors(n), AppendStart(n), c) {
      if c in AppendedSet(n, AllUpTo(n, n)) {
        var q :| q in AllUpTo(n, n) && c == Appended(n, q);
        RunsArrange(n, q);
      }
      if Reaches(AppendActors(n), AppendStart(n), c) {
        var q :| Exec(AppendActors(n), AppendStart(n), q) == Some(c);
        RunsArrange(n, q);
        ElementCount(n, q);
      }
    }
  }

  lemma AppendSized(n: nat)
    ensures WellSized(AppendActors(n), AppendStart(n)) && NeverWrites(AppendActors(n)) && KnownOps(AppendActors(n))
    ensures NumberedInOrder(AppendStart(n).memory.task.events)
  {
  }

  lemma FullOrdersEnd(n: nat, q: seq<nat>)
    requires Arrangement(n, q)
    ensures Terminal(AppendActors(n), Appended(n, q)) <==> |q| == n
  {
    ElementCount(n, q);
    EverybodyMoved(n, q);
    if |q| == n {
      assert Free(n, q) == {};
      forall i | 0 <= i < n ensures i in q {
        assert i !in Free(n, q);
      }
    } else {
      assert Free(n, q) != {};
      var i :| i in Free(n, q);
    }
  }

  lemma EverybodyMoved(n: nat, q: seq<nat>)
    ensures Terminal(AppendActors(n), Appended(n, q)) <==> forall i | 0 <= i < n :: i in q
  {
    var c, actors := Appended(n, q), AppendActors(n);
    assert forall i | 0 <= i < n :: c.pos[i] == (if i in q then 1 else 0) && |actors[i].script| == 1;
  }

  lemma AppendTerminals(n: nat)
    ensures Terminals(AppendActors(n), AppendedSet(n, AllUpTo(n, n))) == AppendedSet(n, Arrangements(n, n))
  {
    hide Appended, AppendActors, Arrangement, Arrangements, AllUpTo, Terminal;
    AllUpToCount(n, n);
    ArrangementsCount(n, n);
    forall q | q in AllUpTo(n, n) ensures Terminal(AppendActors(n), Appended(n, q)) <==> |q| == n {
      FullOrdersEnd(n, q);
    }
  }

  lemma AppendCounts(n: nat)
    ensures |AppendedSet(n, AllUpTo(n, n))| == FallingSum(n, n)
    ensures |Terminals(AppendActors(n), AppendedSet(n, AllUpTo(n, n)))| == Factorial(n)
  {
    AllUpToCount(n, n);
    ArrangementsCount(n, n);
    hide Appended, AppendedSet, Terminals, AllUpTo, Arrangements, Falling, FallingSum;
    AppendTerminals(n);
    AppendedSetSize(n, AllUpTo(n, n));
    AppendedSetSize(n, Arrangements(n, n));
  }

  lemma AppendPasses(n: nat)
    ensures Passes(AppendActors(n), AppendStart(n), E4Check)
  {
    hide Exec, AppendActors, AppendStart, NumberedInOrder, NeverWrites, KnownOps;
    AppendSized(n);
    forall c | Reaches(AppendActors(n), AppendStart(n), c) ensures Verdict(AppendActors(n), E4Check, c).None? {
      var schedule :| Exec(AppendActors(n), AppendStart(n), schedule) == Some(c);
      AppendedInOrder(AppendActors(n), AppendStart(n), schedule);
    }
  }

  /** Checking the repaired E-4 finds nothing for any number of actors, and the number of outcomes is
    that of the orders they can append in: n!. */
  method CheckE4Fixed(n: nat) returns (r: Result<Reason>)
    ensures !r.Found?
    ensures FallingSum(n, n) <= MAX_NODES ==> r == NotFound(FallingSum(n, n), Factorial(n))
  {
    hide Answers, Passes, Start, IsReachSet, FallingSum, Factorial, AppendedSet, KnownOps, NeverWrites;
    var actors := AppendActors(n);
    r := Search(actors, FreshTask, map[], E4Check, MAX_NODES);
    AppendSized(n);
    AppendPasses(n);
    AppendReachSet(n);
    AppendCounts(n);
    ReportsReachSet(actors, AppendStart(n), AppendedSet(n, AllUpTo(n, n)), E4Check, r);
  }
}
