/** What the model checker's specifications E-1, E-2 and the naive E-4 check for two, three and four
  actors (asmfs/specs/E-1.json to E-4.json), proved for every number of actors and, where it is true,
  for every mixture of scripts. First what no interleaving can break, then how many configurations
  there are, then what the search reports on the specifications' own actors. */
module Lifecycle {
  import opened Wrappers
  import opened Asmfs
  import opened ModelChecker

  // ------------------------------------------------------------------ any scripts whatever

  predicate DoneOnce(t: Task) {
    t.doneWins == (if t.markers.done then 1 else 0) && (t.exitCode.Some? <==> t.markers.done)
  }

  predicate AdoptedOnce(t: Task) {
    t.adoptWins <= 1 && (t.adoptWins == 1 ==> t.markers.adopted || t.markers.done)
  }

  /** Whatever the actors do, and however they interleave, at most one finalize and at most one
    adoption win, and an exit code is there exactly when the task is done. */
  lemma {:induction false} OneWinner(actors: seq<Actor>, start: Config, schedule: seq<nat>)
    requires WellSized(actors, start) && Exec(actors, start, schedule).Some?
    requires DoneOnce(start.memory.task) && AdoptedOnce(start.memory.task)
    ensures var t := Exec(actors, start, schedule).value.memory.task; DoneOnce(t) && AdoptedOnce(t)
  {
    if schedule != [] {
      hide StepOf, DoneOnce, AdoptedOnce;
      var init, i := schedule[..|schedule| - 1], schedule[|schedule| - 1];
      OneWinner(actors, start, init);
      var c := Exec(actors, start, init).value;
      StepKeepsWinners(c.memory, i, actors[i], NextOp(actors, c, i));
    }
  }

  lemma StepKeepsWinners(m: Memory, i: nat, actor: Actor, op: Op)
    requires i < |m.localSeq| && DoneOnce(m.task) && AdoptedOnce(m.task)
    ensures var t := StepOf(m, i, actor, op).0.task; DoneOnce(t) && AdoptedOnce(t)
  {
  }

  /** Done is final: no later step of anyone clears it or overwrites the exit code. */
  lemma {:induction false} ExitCodeStays(actors: seq<Actor>, start: Config, schedule: seq<nat>)
    requires WellSized(actors, start) && Exec(actors, start, schedule).Some? && start.memory.task.markers.done
    ensures var t := Exec(actors, start, schedule).value.memory.task;
      t.markers.done && t.exitCode == start.memory.task.exitCode && t.doneWins == start.memory.task.doneWins
  {
    if schedule != [] {
      hide StepOf;
      var init, i := schedule[..|schedule| - 1], schedule[|schedule| - 1];
      ExitCodeStays(actors, start, init);
      var c := Exec(actors, start, init).value;
      StepKeepsDone(c.memory, i, actors[i], NextOp(actors, c, i));
    }
  }

  lemma StepKeepsDone(m: Memory, i: nat, actor: Actor, op: Op)
    requires i < |m.localSeq| && m.task.markers.done
    ensures var t := StepOf(m, i, actor, op).0.task;
      t.markers.done && t.exitCode == m.task.exitCode && t.doneWins == m.task.doneWins
  {
  }

  /** The lock names a pid that is alive under another start time. */
  predicate Reused(m: Memory) {
    && m.task.lock.Some? && m.task.lock.value.startSec.Some?
    && LivenessOf(m.task.lock.value.pid, m.task.lock.value.startSec, m.world) == PidReused
  }

  /** While the pid in the lock is somebody else's by now, nobody can adopt, whatever the actors
    run, as long as none of them is that very process. */
  lemma {:induction false} ReuseIsRejected(actors: seq<Actor>, start: Config, schedule: seq<nat>)
    requires WellSized(actors, start) && Exec(actors, start, schedule).Some? && Reused(start.memory)
    requires forall i | 0 <= i < |actors| :: actors[i].pid != start.memory.task.lock.value.pid
    ensures var m, s := Exec(actors, start, schedule).value.memory, start.memory;
      && Reused(m) && m.task.lock == s.task.lock && m.task.adoptWins == s.task.adoptWins
      && (m.task.markers.adopted ==> s.task.markers.adopted)
      && (s.task.markers.orphaned && !m.task.markers.done ==> m.task.markers.orphaned)
      && (m.task.lastLiveness == s.task.lastLiveness || m.task.lastLiveness == Some(PidReused))
  {
    if schedule != [] {
      var init, i := schedule[..|schedule| - 1], schedule[|schedule| - 1];
      ReuseIsRejected(actors, start, init);
      var c := Exec(actors, start, init).value;
      StepUnderReuse(c.memory, i, actors[i], NextOp(actors, c, i));
    }
  }

  lemma StepUnderReuse(m: Memory, i: nat, actor: Actor, op: Op)
    requires i < |m.localSeq| && Reused(m) && actor.pid != m.task.lock.value.pid
    ensures var m' := StepOf(m, i, actor, op).0;
      && Reused(m') && m'.task.lock == m.task.lock && m'.task.adoptWins == m.task.adoptWins
      && (m'.task.markers.adopted ==> m.task.markers.adopted)
      && (m.task.markers.orphaned && !m'.task.markers.done ==> m'.task.markers.orphaned)
      && (m'.task.lastLiveness == m.task.lastLiveness || m'.task.lastLiveness == Some(PidReused))
      && (m.task.markers.done ==> m'.task.markers.done)
  {
  }

  // ------------------------------------------------------------------ event numbers

  predicate NumberedInOrder(events: seq<Event>) {
    forall k | 0 <= k < |events| :: events[k].number == Some(k + 1)
  }

  predicate NumbersDiffer(events: seq<Event>) {
    forall j, k | 0 <= j < k < |events| :: events[j].number != events[k].number
  }

  predicate NeverWrites(actors: seq<Actor>) {
    forall i, k | 0 <= i < |actors| && 0 <= k < |actors[i].script| :: !actors[i].script[k].WriteEvent?
  }

  /** If events are only appended in one step, they are numbered 1, 2, 3, ... in every interleaving,
    hence uniquely. */
  lemma {:induction false} AppendedInOrder(actors: seq<Actor>, start: Config, schedule: seq<nat>)
    requires WellSized(actors, start) && Exec(actors, start, schedule).Some?
    requires NeverWrites(actors) && NumberedInOrder(start.memory.task.events)
    ensures var events := Exec(actors, start, schedule).value.memory.task.events;
      NumberedInOrder(events) && NumbersDiffer(events)
  {
    if schedule != [] {
      var init, i := schedule[..|schedule| - 1], schedule[|schedule| - 1];
      AppendedInOrder(actors, start, init);
      var c := Exec(actors, start, init).value;
      EventsAfter(c.memory, i, actors[i], NextOp(actors, c, i));
    }
  }

  lemma EventsAfter(m: Memory, i: nat, actor: Actor, op: Op)
    requires i < |m.localSeq|
    ensures var after := StepOf(m, i, actor, op).0.task.events;
      match op
      case WriteEvent(e) => after == m.task.events + [Event(m.localSeq[i], e)]
      case AppendEvent(e) => after == m.task.events + [Event(Some(|m.task.events| + 1), e)]
      case _ => after == m.task.events
  {
  }

  // ------------------------------------------------------------------ boxes of positions

  function Times(a: nat, b: nat): nat {
    a * b
  }

  lemma TimesStep(a: nat, b: nat)
    ensures Times(a + 1, b) == Times(a, b) + b && Times(0, b) == 0
  {
  }

  lemma TimesSwap(a: nat, b: nat, c: nat)
    ensures Times(a, Times(b, c)) == Times(b, Times(a, c))
  {
    assert a * (b * c) == (a * b) * c == b * (a * c);
  }

  lemma PowStep(b: nat, e: nat)
    ensures Pow(b, e + 1) == Times(b, Pow(b, e)) && Pow(b, 0) == 1
  {
  }

  function Layer(s: set<seq<nat>>, v: nat): set<seq<nat>> {
    set p | p in s :: p + [v]
  }

  /** All one-element extensions of the vectors of s by lo, ..., hi - 1. */
  function Layers(s: set<seq<nat>>, lo: nat, hi: nat): set<seq<nat>> {
    if hi <= lo then {} else Layers(s, lo, hi - 1) + Layer(s, hi - 1)
  }

  /** The vectors between `low` and a common upper bound. */
  function Box(low: seq<nat>, high: nat): set<seq<nat>> {
    if low == [] then {[]} else Layers(Box(low[..|low| - 1], high), low[|low| - 1], high + 1)
  }

  lemma LayerSize(s: set<seq<nat>>, v: nat)
    ensures |Layer(s, v)| == |s|
    decreases |s|
  {
    if s != {} {
      var p :| p in s;
      LayerSize(s - {p}, v);
      forall q | q in s && q + [v] == p + [v] ensures q == p {
        assert q == (q + [v])[..|q|] && p == (p + [v])[..|p|];
      }
      assert Layer(s, v) == Layer(s - {p}, v) + {p + [v]};
    } else {
      assert Layer(s, v) == {};
    }
  }

  lemma {:induction false} InLayers(s: set<seq<nat>>, lo: nat, hi: nat, p: seq<nat>)
    ensures p in Layers(s, lo, hi) <==> p != [] && lo <= p[|p| - 1] < hi && p[..|p| - 1] in s
  {
    if lo < hi {
      InLayers(s, lo, hi - 1, p);
      if p in Layer(s, hi - 1) {
        var q :| q in s && p == q + [hi - 1];
        assert p[..|p| - 1] == q;
      }
      if p != [] && p[|p| - 1] == hi - 1 && p[..|p| - 1] in s {
        assert p == p[..|p| - 1] + [hi - 1];
      }
    }
  }

  lemma LayerIsNew(s: set<seq<nat>>, lo: nat, hi: nat)
    ensures Layers(s, lo, hi) !! Layer(s, hi)
  {
    forall p: seq<nat> ensures !(p in Layers(s, lo, hi) && p in Layer(s, hi)) {
      InLayers(s, lo, hi, p);
    }
  }

  lemma LayersUnfold(s: set<seq<nat>>, lo: nat, hi: nat)
    ensures Layers(s, lo, hi) == if hi <= lo then {} else Layers(s, lo, hi - 1) + Layer(s, hi - 1)
  {
  }

  lemma DisjointSize<T>(a: set<T>, b: set<T>)
    requires a !! b
    ensures |a + b| == |a| + |b|
  {
  }

  lemma {:induction false} LayersSize(s: set<seq<nat>>, lo: nat, hi: nat)
    requires lo <= hi
    ensures |Layers(s, lo, hi)| == Times(hi - lo, |s|)
  {
    hide Times, Layer, Layers;
    LayersUnfold(s, lo, hi);
    if lo == hi {
      TimesStep(0, |s|);
    } else {
      var below, top := Layers(s, lo, hi - 1), Layer(s, hi - 1);
      LayersSize(s, lo, hi - 1);
      LayerSize(s, hi - 1);
      LayerIsNew(s, lo, hi - 1);
      DisjointSize(below, top);
      TimesStep(hi - 1 - lo, |s|);
      assert hi - lo == hi - 1 - lo + 1;
    }
  }

  lemma {:induction false} InBox(low: seq<nat>, high: nat, p: seq<nat>)
    ensures p in Box(low, high) <==> |p| == |low| && forall i | 0 <= i < |p| :: low[i] <= p[i] <= high
  {
    if low != [] {
      var n := |low| - 1;
      InLayers(Box(low[..n], high), low[n], high + 1, p);
      if p != [] {
        InBox(low[..n], high, p[..|p| - 1]);
      }
    }
  }

  function Zeros(n: nat): (z: seq<nat>)
    ensures |z| == n && forall i | 0 <= i < n :: z[i] == 0
  {
    seq(n, _ => 0)
  }

  lemma {:induction false} FullBox(n: nat, high: nat)
    ensures |Box(Zeros(n), high)| == Pow(high + 1, n)
  {
    hide Times, Pow, Layers;
    if n == 0 {
      PowStep(high + 1, 0);
    } else {
      assert Zeros(n)[..n - 1] == Zeros(n - 1);
      FullBox(n - 1, high);
      LayersSize(Box(Zeros(n - 1), high), 0, high + 1);
      PowStep(high + 1, n - 1);
    }
  }

  /** Vectors whose coordinate w is positive. */
  function Moved(n: nat, high: nat, w: nat): set<seq<nat>>
    requires w < n
  {
    Box(Zeros(n)[w := 1], high)
  }

  lemma {:induction false} MovedSize(n: nat, high: nat, w: nat)
    requires w < n && high >= 1
    ensures |Moved(n, high, w)| == Times(high, Pow(high + 1, n - 1))
  {
    hide Times, Pow, Layers;
    var low := Zeros(n)[w := 1];
    if w == n - 1 {
      assert low[..n - 1] == Zeros(n - 1);
      FullBox(n - 1, high);
      LayersSize(Box(Zeros(n - 1), high), 1, high + 1);
    } else {
      assert low[..n - 1] == Zeros(n - 1)[w := 1];
      MovedSize(n - 1, high, w);
      LayersSize(Moved(n - 1, high, w), 0, high + 1);
      TimesSwap(high + 1, high, Pow(high + 1, n - 2));
      PowStep(high + 1, n - 2);
    }
  }

  // ------------------------------------------------------------------ the first step decides

  /** Equally long scripts of which whoever moves first settles the shared memory for good: after[w]
    is what it is when actor w was first. */
  ghost predicate FirstStepDecides(actors: seq<Actor>, start: Config, length: nat, after: seq<Memory>) {
    && length >= 1 && |after| == |actors| && WellSized(actors, start) && start.pos == Zeros(|actors|)
    && (forall i | 0 <= i < |actors| :: |actors[i].script| == length && |after[i].localSeq| == |actors|)
    && (forall i | 0 <= i < |actors| :: StepOf(start.memory, i, actors[i], actors[i].script[0]).0 == after[i])
    && (forall w, i, k | 0 <= w < |actors| && 0 <= i < |actors| && 0 <= k < length ::
          StepOf(after[w], i, actors[i], actors[i].script[k]).0 == after[w])
    && (forall v, w | 0 <= v < w < |actors| :: after[v] != after[w])
  }

  predicate WonBy(after: seq<Memory>, length: nat, c: Config, w: nat)
    requires w < |after|
  {
    c.memory == after[w] && c.pos in Moved(|after|, length, w)
  }

  function Slice(after: seq<Memory>, length: nat, w: nat): set<Config>
    requires w < |after|
  {
    set p | p in Moved(|after|, length, w) :: Config(after[w], p)
  }

  /** All configurations in which one of the first k actors was first to move. */
  function Slices(after: seq<Memory>, length: nat, k: nat): set<Config>
    requires k <= |after|
  {
    if k == 0 then {} else Slices(after, length, k - 1) + Slice(after, length, k - 1)
  }

  lemma {:induction false} InSlices(after: seq<Memory>, length: nat, k: nat, c: Config)
    requires k <= |after|
    ensures c in Slices(after, length, k) <==> exists w :: 0 <= w < k && WonBy(after, length, c, w)
  {
    if k > 0 {
      InSlices(after, length, k - 1, c);
      assert c in Slice(after, length, k - 1) <==> WonBy(after, length, c, k - 1) by {
        if WonBy(after, length, c, k - 1) {
          assert c == Config(after[k - 1], c.pos);
        }
      }
    }
  }

  lemma SliceSize(after: seq<Memory>, length: nat, w: nat)
    requires w < |after|
    ensures |Slice(after, length, w)| == |Moved(|after|, length, w)|
  {
    ImageSize(after[w], Moved(|after|, length, w));
  }

  lemma ImageSize(m: Memory, ps: set<seq<nat>>)
    ensures |set p | p in ps :: Config(m, p)| == |ps|
    decreases |ps|
  {
    var image := set p | p in ps :: Config(m, p);
    if ps != {} {
      var p :| p in ps;
      ImageSize(m, ps - {p});
      assert image == (set q | q in ps - {p} :: Config(m, q)) + {Config(m, p)};
    } else {
      assert image == {};
    }
  }

  lemma {:induction false} SlicesSize(after: seq<Memory>, length: nat, k: nat)
    requires k <= |after| && |after| > 0 && length >= 1 && forall v, w | 0 <= v < w < |after| :: after[v] != after[w]
    ensures |Slices(after, length, k)| == Times(k, Times(length, Pow(length + 1, |after| - 1)))
  {
    hide Times, Pow, Slice, Moved, Slices;
    SlicesUnfold(after, length, k);
    var size := Times(length, Pow(length + 1, |after| - 1));
    if k == 0 {
      TimesStep(0, size);
    } else {
      TimesStep(k - 1, size);
      SlicesSize(after, length, k - 1);
      MovedSize(|after|, length, k - 1);
      SliceSize(after, length, k - 1);
      SliceIsNew(after, length, k - 1);
      DisjointSize(Slices(after, length, k - 1), Slice(after, length, k - 1));
    }
  }

  lemma SlicesUnfold(after: seq<Memory>, length: nat, k: nat)
    requires k <= |after|
    ensures Slices(after, length, k) == if k == 0 then {} else Slices(after, length, k - 1) + Slice(after, length, k - 1)
  {
  }

  lemma SliceIsNew(after: seq<Memory>, length: nat, k: nat)
    requires k < |after| && forall v, w | 0 <= v < w < |after| :: after[v] != after[w]
    ensures Slices(after, length, k) !! Slice(after, length, k)
  {
    forall c: Config ensures !(c in Slices(after, length, k) && c in Slice(after, length, k)) {
      InSlices(after, length, k, c);
    }
  }

  /** The reachable configurations: the start, and for each possible first mover all positions in
    which that actor has moved. */
  function Family(start: Config, length: nat, after: seq<Memory>): set<Config> {
    {start} + Slices(after, length, |after|)
  }

  lemma StepsStayInFamily(actors: seq<Actor>, start: Config, length: nat, after: seq<Memory>, c: Config, i: nat)
    requires FirstStepDecides(actors, start, length, after) && c in Family(start, length, after) && Enabled(actors, c, i)
    ensures Next(actors, c, i) in Family(start, length, after)
  {
    hide StepOf, Box;
    var n, c' := |actors|, Next(actors, c, i);
    InSlices(after, length, n, c);
    InSlices(after, length, n, c');
    if c == start {
      assert NextOp(actors, c, i) == actors[i].script[0];
      InBox(Zeros(n)[i := 1], length, c'.pos);
      assert WonBy(after, length, c', i);
    } else {
      var w :| 0 <= w < n && WonBy(after, length, c, w);
      InBox(Zeros(n)[w := 1], length, c.pos);
      InBox(Zeros(n)[w := 1], length, c'.pos);
      assert c'.memory == after[w];
      assert WonBy(after, length, c', w);
    }
  }

  lemma InMoved(n: nat, length: nat, w: nat, p: seq<nat>)
    requires w < n
    ensures p in Moved(n, length, w) <==> |p| == n && forall i | 0 <= i < n :: Zeros(n)[w := 1][i] <= p[i] <= length
  {
    InBox(Zeros(n)[w := 1], length, p);
  }

  lemma FirstMove(actors: seq<Actor>, start: Config, length: nat, after: seq<Memory>, w: nat)
    requires FirstStepDecides(actors, start, length, after) && w < |actors|
    ensures WellSized(actors, start) && Reaches(actors, start, Config(after[w], Zeros(|actors|)[w := 1]))
  {
    hide StepOf, Exec, Reaches;
    ReachesStart(actors, start);
    ReachesNext(actors, start, start, w);
    assert NextOp(actors, start, w) == actors[w].script[0];
    assert Next(actors, start, w).pos == Zeros(|actors|)[w := 1];
  }

  lemma {:induction false} FamilyIsReached(actors: seq<Actor>, start: Config, length: nat, after: seq<Memory>, w: nat, c: Config)
    requires FirstStepDecides(actors, start, length, after) && w < |actors| && WonBy(after, length, c, w)
    ensures Reaches(actors, start, c)
    decreases Depth(c)
  {
    hide StepOf, Box, Exec, Reaches, FirstStepDecides, Next, Enabled, Moved;
    var n := |actors|;
    DecidesSizes(actors, start, length, after);
    InMoved(n, length, w, c.pos);
    if c.pos == Zeros(n)[w := 1] {
      FirstMove(actors, start, length, after, w);
    } else {
      var i :| 0 <= i < n && c.pos[i] != Zeros(n)[w := 1][i];
      var before := Config(c.memory, c.pos[i := c.pos[i] - 1]);
      SumUpdate(c.pos, i, c.pos[i] - 1);
      StepBack(actors, start, length, after, w, c, i);
      FamilyIsReached(actors, start, length, after, w, before);
      ReachesNext(actors, start, before, i);
    }
  }

  /** A configuration of the family can be entered by any actor that has more than its first-mover's step behind it. */
  lemma StepBack(actors: seq<Actor>, start: Config, length: nat, after: seq<Memory>, w: nat, c: Config, i: nat)
    requires FirstStepDecides(actors, start, length, after) && w < |actors| && WonBy(after, length, c, w)
    requires i < |actors| && |c.pos| == |actors| && c.pos[i] > Zeros(|actors|)[w := 1][i]
    ensures var before := Config(c.memory, c.pos[i := c.pos[i] - 1]);
      WonBy(after, length, before, w) && Enabled(actors, before, i) && Next(actors, before, i) == c
  {
    hide StepOf, Box;
    var n := |actors|;
    var before := Config(c.memory, c.pos[i := c.pos[i] - 1]);
    InBox(Zeros(n)[w := 1], length, c.pos);
    InBox(Zeros(n)[w := 1], length, before.pos);
    assert Enabled(actors, before, i);
    assert Next(actors, before, i).pos == c.pos;
    assert Next(actors, before, i).memory == after[w];
  }

  lemma {:induction false} RunsStayInFamily(actors: seq<Actor>, start: Config, length: nat, after: seq<Memory>, schedule: seq<nat>)
    requires FirstStepDecides(actors, start, length, after) && Exec(actors, start, schedule).Some?
    ensures Exec(actors, start, schedule).value in Family(start, length, after)
  {
    hide FirstStepDecides, StepOf, Family;
    DecidesSizes(actors, start, length, after);
    if schedule == [] {
      StartInFamily(start, length, after);
    } else {
      var init, i := schedule[..|schedule| - 1], schedule[|schedule| - 1];
      RunsStayInFamily(actors, start, length, after, init);
      StepsStayInFamily(actors, start, length, after, Exec(actors, start, init).value, i);
    }
  }

  lemma StartInFamily(start: Config, length: nat, after: seq<Memory>)
    ensures start in Family(start, length, after)
  {
  }

  lemma FamilyIsReachSet(actors: seq<Actor>, start: Config, length: nat, after: seq<Memory>)
    requires FirstStepDecides(actors, start, length, after)
    ensures IsReachSet(actors, start, Family(start, length, after))
  {
    hide FirstStepDecides, Exec;
    assert WellSized(actors, start) && |after| == |actors| by { DecidesSizes(actors, start, length, after); }
    forall c: Config ensures c in Family(start, length, after) <==> Reaches(actors, start, c) {
      InSlices(after, length, |after|, c);
      if c == start {
        ReachesStart(actors, start);
      } else if c in Family(start, length, after) {
        var w :| 0 <= w < |after| && WonBy(after, length, c, w);
        FamilyIsReached(actors, start, length, after, w, c);
      }
      if Reaches(actors, start, c) {
        var schedule :| Exec(actors, start, schedule) == Some(c);
        RunsStayInFamily(actors, start, length, after, schedule);
      }
    }
  }

  lemma DecidesSizes(actors: seq<Actor>, start: Config, length: nat, after: seq<Memory>)
    requires FirstStepDecides(actors, start, length, after)
    ensures WellSized(actors, start) && |after| == |actors| && start.pos == Zeros(|actors|) && length >= 1
    ensures forall v, w | 0 <= v < w < |actors| :: after[v] != after[w]
    ensures forall i | 0 <= i < |actors| :: |actors[i].script| == length && |after[i].localSeq| == |actors|
  {
  }

  function Ends(after: seq<Memory>, length: nat, k: nat): set<Config>
    requires k <= |after|
  {
    set w | 0 <= w < k :: Config(after[w], seq(|after|, _ => length))
  }

  lemma {:induction false} EndsSize(after: seq<Memory>, length: nat, k: nat)
    requires k <= |after| && forall v, w | 0 <= v < w < |after| :: after[v] != after[w]
    ensures |Ends(after, length, k)| == k
  {
    if k == 0 {
      assert Ends(after, length, 0) == {};
    } else {
      EndsSize(after, length, k - 1);
      assert Ends(after, length, k) == Ends(after, length, k - 1) + {Config(after[k - 1], seq(|after|, _ => length))};
    }
  }

  lemma FamilyEnds(actors: seq<Actor>, start: Config, length: nat, after: seq<Memory>)
    requires FirstStepDecides(actors, start, length, after) && |actors| > 0
    ensures Terminals(actors, Family(start, length, after)) == Ends(after, length, |after|)
  {
    hide FirstStepDecides, Box, StepOf;
    var n := |actors|;
    DecidesSizes(actors, start, length, after);
    forall c: Config ensures c in Terminals(actors, Family(start, length, after)) <==> c in Ends(after, length, n) {
      InSlices(after, length, n, c);
      if c in Family(start, length, after) && Terminal(actors, c) {
        assert c.pos[0] == length;
        var w :| 0 <= w < n && WonBy(after, length, c, w);
        assert c.pos == seq(n, _ => length);
      }
      if c in Ends(after, length, n) {
        var w :| 0 <= w < n && c == Config(after[w], seq(n, _ => length));
        InBox(Zeros(n)[w := 1], length, c.pos);
        assert WonBy(after, length, c, w);
      }
    }
  }

  /** 1 + n * length * (length + 1)^(n - 1) */
  function FamilySize(n: nat, length: nat): nat
    requires n > 0
  {
    1 + n * (length * Pow(length + 1, n - 1))
  }

  /** n actors with scripts of equal length and a memory settled by the first step: the search space
    has 1 + n * length * (length + 1)^(n - 1) configurations and n of them are terminal. */
  lemma FamilyCounts(actors: seq<Actor>, start: Config, length: nat, after: seq<Memory>)
    requires FirstStepDecides(actors, start, length, after) && |actors| > 0
    ensures |Family(start, length, after)| == FamilySize(|actors|, length)
    ensures |Terminals(actors, Family(start, length, after))| == |actors|
  {
    hide FirstStepDecides, Box;
    DecidesSizes(actors, start, length, after);
    SlicesSize(after, length, |after|);
    FamilyEnds(actors, start, length, after);
    EndsSize(after, length, |after|);
    StartNotInSlices(start, length, after);
  }

  lemma StartNotInSlices(start: Config, length: nat, after: seq<Memory>)
    requires start.pos == Zeros(|after|)
    ensures start !in Slices(after, length, |after|)
  {
    InSlices(after, length, |after|, start);
    forall w | 0 <= w < |after| ensures !WonBy(after, length, start, w) {
      InBox(Zeros(|after|)[w := 1], length, start.pos);
      assert Zeros(|after|)[w := 1][w] == 1;
    }
  }

  lemma ReachSetIsUnique(actors: seq<Actor>, start: Config, all: set<Config>, nodes: nat, interleavings: nat)
    requires WellSized(actors, start) && IsReachSet(actors, start, all) && Counts(actors, start, nodes, interleavings)
    ensures nodes == |all| && interleavings == |Terminals(actors, all)|
  {
    var other :| IsReachSet(actors, start, other) && nodes == |other| && interleavings == |Terminals(actors, other)|;
    assert forall c: Config :: c in other <==> c in all;
    assert other == all;
  }

  lemma {:induction false} SubsetSize<T>(a: set<T>, b: set<T>)
    requires a <= b
    ensures |a| <= |b|
  {
    assert b == a + (b - a);
  }

  lemma FitsNoOverflow(actors: seq<Actor>, start: Config, all: set<Config>, maxNodes: nat)
    requires WellSized(actors, start) && IsReachSet(actors, start, all) && |all| <= maxNodes
    ensures !Overflows(actors, start, maxNodes)
  {
    forall some | AllReached(actors, start, some) ensures |some| <= maxNodes {
      assert forall c | c in some :: c in all;
      SubsetSize(some, all);
    }
  }

  // ------------------------------------------------------------------ E-1: one terminal state

  const MAX_NODES := 2_000_000

  datatype Reason =
    | TooManyWins | NoExitCode | NotOneWin | NotDone
    | NotAdopted | OrphanLeft | NoLockLeft | SameNumber | NotReused | OrphanCleared | WronglyAdopted

  function FinalizeActors(n: nat): (actors: seq<Actor>)
    ensures |actors| == n && DistinctPids(actors)
  {
    seq(n, i requires 0 <= i < n => Actor(1000 + i, 9000 + i, [Op.Finalize(i), Op.Finalize(i)]))
  }

  const E1Task := FreshTask.(lock := Some(Lock(999, Some(1))), markers := FreshTask.markers.(running := true))
  const E1World: World := map[999 := Process(true, 1)]

  function E1Check(t: Task, world: World, pos: seq<nat>, isTerminal: bool): Option<Reason> {
    if t.doneWins > 1 then Some(TooManyWins)
    else if t.markers.done && t.exitCode.None? then Some(NoExitCode)
    else if isTerminal && t.doneWins != 1 then Some(NotOneWin)
    else if isTerminal && t.exitCode.None? then Some(NoExitCode)
    else if isTerminal && !t.markers.done then Some(NotDone)
    else None
  }

  function E1After(n: nat): (after: seq<Memory>)
    ensures |after| == n
  {
    seq(n, w requires 0 <= w < n => Memory(Finalized(E1Task, w).0, E1World, seq(n, _ => None)))
  }

  lemma E1Decides(n: nat)
    ensures FirstStepDecides(FinalizeActors(n), Start(FinalizeActors(n), E1Task, E1World), 2, E1After(n))
  {
    var actors, after := FinalizeActors(n), E1After(n);
    var start := Start(actors, E1Task, E1World);
    assert start.pos == Zeros(n);
    assert start.memory.localSeq == seq(n, _ => None);
    forall w, i, k | 0 <= w < n && 0 <= i < n && 0 <= k < 2
      ensures StepOf(after[w], i, actors[i], actors[i].script[k]).0 == after[w]
    {
      assert actors[i].script[k] == Op.Finalize(i);
    }
    forall v, w | 0 <= v < w < n ensures after[v] != after[w] {
      assert after[v].task.exitCode == Some(v) && after[w].task.exitCode == Some(w);
    }
  }

  lemma E1Won(n: nat, w: nat, pos: seq<nat>, isTerminal: bool)
    requires w < n
    ensures E1Check(E1After(n)[w].task, E1World, pos, isTerminal).None? && E1After(n)[w].world == E1World
    ensures E1Check(E1Task, E1World, pos, false).None?
  {
  }

  lemma E1Passes(n: nat)
    requires n > 0
    ensures Passes(FinalizeActors(n), Start(FinalizeActors(n), E1Task, E1World), E1Check)
  {
    var actors, after := FinalizeActors(n), E1After(n);
    var start := Start(actors, E1Task, E1World);
    E1Decides(n);
    FamilyIsReachSet(actors, start, 2, after);
    hide Box, Finalized, E1After, Exec, Reaches, E1Check, FirstStepDecides;
    forall c | Reaches(actors, start, c) ensures Verdict(actors, E1Check, c).None? {
      assert c in Family(start, 2, after);
      InSlices(after, 2, n, c);
      if c == start {
        assert c.pos[0] == 0;
        E1Won(n, 0, c.pos, false);
      } else {
        var w :| 0 <= w < n && WonBy(after, 2, c, w);
        E1Won(n, w, c.pos, Terminal(actors, c));
      }
    }
  }

  predicate KnownOps(actors: seq<Actor>) {
    forall i, k | 0 <= i < |actors| && 0 <= k < |actors[i].script| :: !actors[i].script[k].Unknown?
  }

  /** A search that passes everywhere reports the sizes of the reachable set and of its terminal part. */
  lemma ReportsReachSet<R(!new)>(actors: seq<Actor>, start: Config, all: set<Config>, check: Check<R>, r: Result<R>)
    requires WellSized(actors, start) && IsReachSet(actors, start, all) && KnownOps(actors)
    requires Passes(actors, start, check) && Answers(actors, start, check, MAX_NODES, r)
    ensures !r.Found?
    ensures |all| <= MAX_NODES ==> r == NotFound(|all|, |Terminals(actors, all)|)
  {
    hide Passes, Shortest, Overflows, Counts, Exec, Explored, IsReachSet;
    match r
    case NotFound(nodes, interleavings) => ReachSetIsUnique(actors, start, all, nodes, interleavings);
    case Found(ce, _, _) => PassesMeansNotFound(actors, start, check, ce);
    case Failed(_) =>
      if |all| <= MAX_NODES {
        FitsNoOverflow(actors, start, all, MAX_NODES);
      }
  }

  /** A search over such actors that passes everywhere reports exactly the two counts. */
  lemma SearchCounts<R(!new)>(actors: seq<Actor>, start: Config, length: nat, after: seq<Memory>, check: Check<R>, r: Result<R>)
    requires FirstStepDecides(actors, start, length, after) && |actors| > 0 && KnownOps(actors)
    requires Passes(actors, start, check) && Answers(actors, start, check, MAX_NODES, r)
    ensures !r.Found?
    ensures FamilySize(|actors|, length) <= MAX_NODES ==> r == NotFound(FamilySize(|actors|, length), |actors|)
  {
    hide FamilySize, FirstStepDecides, Passes, Family, Answers, KnownOps, IsReachSet;
    DecidesSizes(actors, start, length, after);
    FamilyIsReachSet(actors, start, length, after);
    FamilyCounts(actors, start, length, after);
    ReportsReachSet(actors, start, Family(start, length, after), check, r);
  }

  lemma PassesMeansNotFound<R(!new)>(actors: seq<Actor>, start: Config, check: Check<R>, ce: Counterexample<R>)
    requires WellSized(actors, start) && Passes(actors, start, check)
    ensures !Shortest(actors, start, check, ce)
  {
    forall schedule: seq<nat> ensures !RealRun(actors, start, check, schedule, ce) {
      if Exec(actors, start, schedule).Some? {
        assert Reaches(actors, start, Exec(actors, start, schedule).value);
      }
    }
  }

  lemma NobodyToMove<R(!new)>(actors: seq<Actor>, task: Task, world: World, check: Check<R>, r: Result<R>)
    requires actors == [] && check(task, world, [], true).Some?
    requires Answers(actors, Start(actors, task, world), check, MAX_NODES, r)
    ensures !r.NotFound?
  {
    hide Counts, Shortest, Explored, Overflows, MeetsUnknownOp;
    var start := Start(actors, task, world);
    ReachesStart(actors, start);
    assert start.pos == [];
    assert Verdict(actors, check, start).Some?;
  }

  /** Checking E-1 finds nothing for any number of actors but none, and the counts it reports are
    1 + 2n * 3^(n - 1) configurations and n outcomes. */
  method CheckE1(n: nat) returns (r: Result<Reason>)
    ensures n > 0 ==> !r.Found?
    ensures n > 0 && FamilySize(n, 2) <= MAX_NODES ==> r == NotFound(FamilySize(n, 2), n)
    ensures n == 0 ==> !r.NotFound?
  {
    hide Answers, FirstStepDecides, Passes, Start;
    var actors := FinalizeActors(n);
    r := Search(actors, E1Task, E1World, E1Check, MAX_NODES);
    if n > 0 {
      E1Decides(n);
      E1Passes(n);
      SearchCounts(actors, Start(actors, E1Task, E1World), 2, E1After(n), E1Check, r);
    } else {
      NobodyToMove(actors, E1Task, E1World, E1Check, r);
    }
  }

  /** The counts the specification expects for two, three and four actors are the formula's. */
  lemma ExpectedCounts()
    ensures FamilySize(2, 2) == 13 && FamilySize(3, 2) == 55 && FamilySize(4, 2) == 217
    ensures FamilySize(2, 1) == 5 && FamilySize(3, 1) == 13 && FamilySize(4, 1) == 33
  {
    assert Pow(3, 3) == 3 * Pow(3, 2) == 9 * Pow(3, 1);
    assert Pow(2, 3) == 2 * Pow(2, 2) == 4 * Pow(2, 1);
  }

  // ------------------------------------------------------------------ E-2: one adopter

  function AdoptActors(n: nat): (actors: seq<Actor>)
    ensures |actors| == n && DistinctPids(actors)
  {
    seq(n, i requires 0 <= i < n => Actor(2000 + i, 8000 + i, [Op.Adopt]))
  }

  const E2Task := FreshTask.(lock := Some(Lock(777, Some(42))), markers := FreshTask.markers.(orphaned := true))

  function E2Check(t: Task, world: World, pos: seq<nat>, isTerminal: bool): Option<Reason> {
    if t.adoptWins > 1 then Some(TooManyWins)
    else if t.adoptWins == 1 && !t.markers.adopted then Some(NotAdopted)
    else if isTerminal && t.adoptWins != 1 then Some(NotOneWin)
    else if isTerminal && !t.markers.adopted then Some(NotAdopted)
    else if isTerminal && t.markers.orphaned then Some(OrphanLeft)
    else if isTerminal && t.lock.None? then Some(NoLockLeft)
    else None
  }

  function E2After(n: nat): (after: seq<Memory>)
    ensures |after| == n
  {
    seq(n, w requires 0 <= w < n => Memory(AdoptedBy(E2Task, map[], AdoptActors(n)[w]).0, map[], seq(n, _ => None)))
  }

  lemma E2Decides(n: nat)
    ensures FirstStepDecides(AdoptActors(n), Start(AdoptActors(n), E2Task, map[]), 1, E2After(n))
  {
    var actors, after := AdoptActors(n), E2After(n);
    var start := Start(actors, E2Task, map[]);
    assert start.pos == Zeros(n);
    assert start.memory.localSeq == seq(n, _ => None);
    forall w, i, k | 0 <= w < n && 0 <= i < n && 0 <= k < 1
      ensures StepOf(after[w], i, actors[i], actors[i].script[k]).0 == after[w]
    {
      assert after[w].task.lock == Some(Lock(2000 + w, Some(8000 + w)));
      assert after[w].task.lastLiveness == Some(Dead);
    }
    forall v, w | 0 <= v < w < n ensures after[v] != after[w] {
      assert after[v].task.lock == Some(Lock(2000 + v, Some(8000 + v))) && after[w].task.lock == Some(Lock(2000 + w, Some(8000 + w)));
    }
  }

  lemma E2Won(n: nat, w: nat, pos: seq<nat>, isTerminal: bool)
    requires w < n
    ensures E2Check(E2After(n)[w].task, map[], pos, isTerminal).None? && E2After(n)[w].world == map[]
    ensures E2Check(E2Task, map[], pos, false).None?
  {
  }

  lemma E2Passes(n: nat)
    requires n > 0
    ensures Passes(AdoptActors(n), Start(AdoptActors(n), E2Task, map[]), E2Check)
  {
    var actors, after := AdoptActors(n), E2After(n);
    var start := Start(actors, E2Task, map[]);
    E2Decides(n);
    FamilyIsReachSet(actors, start, 1, after);
    hide Box, AdoptedBy, E2After, Exec, Reaches, E2Check, FirstStepDecides;
    forall c | Reaches(actors, start, c) ensures Verdict(actors, E2Check, c).None? {
      assert c in Family(start, 1, after);
      InSlices(after, 1, n, c);
      if c == start {
        assert c.pos[0] == 0;
        E2Won(n, 0, c.pos, false);
      } else {
        var w :| 0 <= w < n && WonBy(after, 1, c, w);
        E2Won(n, w, c.pos, Terminal(actors, c));
      }
    }
  }

  /** Checking E-2 finds nothing for any number of actors but none: 1 + n * 2^(n - 1) configurations, n outcomes. */
  method CheckE2(n: nat) returns (r: Result<Reason>)
    ensures n > 0 ==> !r.Found?
    ensures n > 0 && FamilySize(n, 1) <= MAX_NODES ==> r == NotFound(FamilySize(n, 1), n)
    ensures n == 0 ==> !r.NotFound?
  {
    hide Answers, FirstStepDecides, Passes, Start;
    var actors := AdoptActors(n);
    r := Search(actors, E2Task, map[], E2Check, MAX_NODES);
    if n > 0 {
      E2Decides(n);
      E2Passes(n);
      SearchCounts(actors, Start(actors, E2Task, map[]), 1, E2After(n), E2Check, r);
    } else {
      NobodyToMove(actors, E2Task, map[], E2Check, r);
    }
  }

  // ------------------------------------------------------------------ E-4: reading, then writing, the number

  const DIGITS := "0123456789"

  function Decimal(i: nat): (text: string)
    ensures |text| > 0 && (i >= 10 ==> |text| > 1)
  {
    if i < 10 then [DIGITS[i]] else Decimal(i / 10) + [DIGITS[i % 10]]
  }

  lemma DigitsDiffer(i: nat, j: nat)
    requires i < 10 && j < 10 && DIGITS[i] == DIGITS[j]
    ensures i == j
  {
  }

  lemma {:induction false} DecimalInjective(i: nat, j: nat)
    requires Decimal(i) == Decimal(j)
    ensures i == j
  {
    if i < 10 || j < 10 {
      DigitsDiffer(i, j);
    } else {
      var a, b := Decimal(i), Decimal(j);
      assert a[|a| - 1] == DIGITS[i % 10] && b[|b| - 1] == DIGITS[j % 10];
      DigitsDiffer(i % 10, j % 10);
      assert a[..|a| - 1] == Decimal(i / 10) && b[..|b| - 1] == Decimal(j / 10);
      DecimalInjective(i / 10, j / 10);
    }
  }

  function EventName(i: nat): string {
    "ev-" + Decimal(i)
  }

  lemma NamesDiffer(i: nat, j: nat)
    ensures EventName(i) == EventName(j) ==> i == j
  {
    if EventName(i) == EventName(j) {
      assert EventName(i)[3..] == Decimal(i) && EventName(j)[3..] == Decimal(j);
      DecimalInjective(i, j);
    }
  }

  function NaiveActors(n: nat): (actors: seq<Actor>)
    ensures |actors| == n && DistinctPids(actors)
  {
    seq(n, i requires 0 <= i < n => Actor(3000 + i, 7000 + i, [ReadSeq, WriteEvent(EventName(i))]))
  }

  /** Two events carry one number. */
  predicate Clash(events: seq<Event>) {
    exists j, k :: 0 <= j < k < |events| && events[j].number == events[k].number
  }

  function E4Check(t: Task, world: World, pos: seq<nat>, isTerminal: bool): Option<Reason> {
    if Clash(t.events) then Some(SameNumber) else None
  }

  function NaiveStart(n: nat): Config {
    Start(NaiveActors(n), FreshTask, map[])
  }

  /** After k of its two steps an actor has read once k >= 1 and written once k == 2. */
  predicate NaiveActor(c: Config, i: nat)
    requires i < |c.pos| && i < |c.memory.localSeq|
  {
    && c.pos[i] <= 2
    && (c.pos[i] == 0 <==> c.memory.localSeq[i].None?)
    && (c.memory.task.events == [] && c.pos[i] >= 1 ==> c.memory.localSeq[i] == Some(1))
  }

  function Twos(pos: seq<nat>): nat {
    if pos == [] then 0 else Twos(pos[..|pos| - 1]) + if pos[|pos| - 1] == 2 then 1 else 0
  }

  lemma {:induction false} TwosUpdate(pos: seq<nat>, i: nat, v: nat)
    requires i < |pos|
    ensures Twos(pos[i := v]) == Twos(pos) - (if pos[i] == 2 then 1 else 0) + if v == 2 then 1 else 0
  {
    var last := |pos| - 1;
    if i == last {
      assert pos[i := v][..last] == pos[..last];
    } else {
      assert pos[i := v][..last] == pos[..last][i := v];
      TwosUpdate(pos[..last], i, v);
    }
  }

  lemma {:induction false} TwosBounds(pos: seq<nat>)
    ensures 2 * Twos(pos) <= Sum(pos) && Twos(pos) <= |pos|
    ensures (exists i :: 0 <= i < |pos| && pos[i] == 2) ==> Twos(pos) > 0
  {
    if pos != [] {
      TwosBounds(pos[..|pos| - 1]);
      assert forall i | 0 <= i < |pos| - 1 :: pos[i] == pos[..|pos| - 1][i];
    }
  }

  predicate NaiveInv(n: nat, c: Config) {
    && WellSized(NaiveActors(n), c)
    && (forall i | 0 <= i < n :: NaiveActor(c, i))
    && (c.memory.task.events != [] ==> c.memory.task.events[0].number == Some(1))
    && |c.memory.task.events| == Twos(c.pos)
  }

  lemma NaiveStep(n: nat, c: Config, i: nat)
    requires NaiveInv(n, c) && Enabled(NaiveActors(n), c, i)
    ensures NaiveInv(n, Next(NaiveActors(n), c, i))
  {
    var c' := Next(NaiveActors(n), c, i);
    assert NaiveActor(c, i);
    NaiveEffect(n, c, i);
    hide NaiveActors, StepOf, Next;
    TwosUpdate(c.pos, i, c.pos[i] + 1);
    forall j | 0 <= j < n ensures NaiveActor(c', j) {
      assert NaiveActor(c, j);
    }
  }

  /** The first step of an actor reads the number, the second writes it. */
  lemma NaiveEffect(n: nat, c: Config, i: nat)
    requires Enabled(NaiveActors(n), c, i)
    ensures var c' := Next(NaiveActors(n), c, i);
      && WellSized(NaiveActors(n), c') && c.pos[i] < 2 && c'.pos == c.pos[i := c.pos[i] + 1]
      && c'.memory.localSeq == (if c.pos[i] == 0 then c.memory.localSeq[i := Some(|c.memory.task.events| + 1)] else c.memory.localSeq)
      && c'.memory.task.events ==
           c.memory.task.events + (if c.pos[i] == 0 then [] else [Event(c.memory.localSeq[i], EventName(i))])
  {
    assert c.memory.task.events + [] == c.memory.task.events;
  }

  lemma {:induction false} NaiveRuns(n: nat, schedule: seq<nat>)
    requires Exec(NaiveActors(n), NaiveStart(n), schedule).Some?
    ensures NaiveInv(n, Exec(NaiveActors(n), NaiveStart(n), schedule).value)
  {
    if schedule == [] {
      NoTwos(n);
    } else {
      hide NaiveInv;
      var init, i := schedule[..|schedule| - 1], schedule[|schedule| - 1];
      NaiveRuns(n, init);
      NaiveStep(n, Exec(NaiveActors(n), NaiveStart(n), init).value, i);
    }
  }

  lemma {:induction false} NoTwos(n: nat)
    ensures Twos(seq(n, _ => 0)) == 0
  {
    if n > 0 {
      var zeros: seq<nat> := seq(n, _ => 0);
      assert zeros[..n - 1] == seq(n - 1, _ => 0);
      NoTwos(n - 1);
    }
  }

  /** A clash needs two actors to have written, hence two actors and four steps; after exactly four
    steps the two events are both number 1. */
  lemma ClashCosts(n: nat, schedule: seq<nat>)
    requires Violates(NaiveActors(n), NaiveStart(n), E4Check, schedule)
    ensures n >= 2 && |schedule| >= 4
    ensures |schedule| == 4 ==>
      var events := Exec(NaiveActors(n), NaiveStart(n), schedule).value.memory.task.events;
      |events| == 2 && events[0].number == Some(1) && events[1].number == Some(1)
  {
    hide NaiveActors, Exec, NaiveInv, Sum;
    var c := Exec(NaiveActors(n), NaiveStart(n), schedule).value;
    NaiveRuns(n, schedule);
    RunLength(NaiveActors(n), NaiveStart(n), schedule);
    NaiveStartDepth(n);
    ClashNeedsWrites(n, c);
  }

  lemma NaiveStartDepth(n: nat)
    ensures Depth(NaiveStart(n)) == 0
  {
    StartDepth(n);
  }

  lemma ClashNeedsWrites(n: nat, c: Config)
    requires NaiveInv(n, c) && Clash(c.memory.task.events)
    ensures n >= 2 && Depth(c) >= 4
    ensures Depth(c) == 4 ==>
      var events := c.memory.task.events;
      |events| == 2 && events[0].number == Some(1) && events[1].number == Some(1)
  {
    TwosBounds(c.pos);
  }

  /** Two actors read, then write. */
  lemma NaiveFour(n: nat) returns (s1: Config, s2: Config, s3: Config, s4: Config)
    requires n >= 2
    ensures var actors := NaiveActors(n);
      && Enabled(actors, NaiveStart(n), 0) && s1 == Next(actors, NaiveStart(n), 0)
      && Enabled(actors, s1, 1) && s2 == Next(actors, s1, 1)
      && Enabled(actors, s2, 0) && s3 == Next(actors, s2, 0)
      && Enabled(actors, s3, 1) && s4 == Next(actors, s3, 1)
    ensures s4.memory.task.events == [Event(Some(1), EventName(0)), Event(Some(1), EventName(1))]
  {
    var actors := NaiveActors(n);
    s1 := Next(actors, NaiveStart(n), 0);
    s2 := Next(actors, s1, 1);
    assert s2.memory.localSeq[0] == Some(1) && s2.memory.localSeq[1] == Some(1);
    s3 := Next(actors, s2, 0);
    assert s3.memory.task.events == [Event(Some(1), EventName(0))] && s3.memory.localSeq[1] == Some(1);
    s4 := Next(actors, s3, 1);
  }

  lemma BothReadThenWrite(n: nat)
    requires n >= 2
    ensures Violates(NaiveActors(n), NaiveStart(n), E4Check, [0, 1, 0, 1])
  {
    var actors, s0 := NaiveActors(n), NaiveStart(n);
    var s1, s2, s3, s4 := NaiveFour(n);
    hide NaiveActors, NaiveStart, StepOf, Next, Exec, Clash;
    FourSteps(actors, s0, s1, s2, s3);
    FirstTwoClash(s4.memory.task.events);
  }

  lemma FirstTwoClash(events: seq<Event>)
    requires |events| == 2 && events[0].number == events[1].number
    ensures Clash(events)
  {
  }

  lemma FourSteps(actors: seq<Actor>, s0: Config, s1: Config, s2: Config, s3: Config)
    requires Enabled(actors, s0, 0) && s1 == Next(actors, s0, 0) && Enabled(actors, s1, 1) && s2 == Next(actors, s1, 1)
    requires Enabled(actors, s2, 0) && s3 == Next(actors, s2, 0) && Enabled(actors, s3, 1)
    ensures Exec(actors, s0, [0, 1, 0, 1]) == Some(Next(actors, s3, 1))
  {
    hide StepOf, Next, Exec;
    assert [] + [0] == [0] && [0] + [1] == [0, 1] && [0, 1] + [0] == [0, 1, 0] && [0, 1, 0] + [1] == [0, 1, 0, 1];
    ReachesNothing(actors, s0);
    ExecPush(actors, s0, [], 0, s0);
    ExecPush(actors, s0, [0], 1, s1);
    ExecPush(actors, s0, [0, 1], 0, s2);
    ExecPush(actors, s0, [0, 1, 0], 1, s3);
  }

  lemma ReachesNothing(actors: seq<Actor>, c: Config)
    requires WellSized(actors, c)
    ensures Exec(actors, c, []) == Some(c)
  {
  }

  /** Numbering by reading first and writing later clashes in some interleaving if and only if there
    are at least two actors. */
  lemma ClashPossibleIff(n: nat)
    ensures (exists schedule :: Violates(NaiveActors(n), NaiveStart(n), E4Check, schedule)) <==> n >= 2
  {
    hide Violates;
    forall schedule | Violates(NaiveActors(n), NaiveStart(n), E4Check, schedule) ensures n >= 2 {
      ClashCosts(n, schedule);
    }
    if n >= 2 {
      BothReadThenWrite(n);
    }
  }

  /** The falsification part of E-4: from two actors on the search never passes, and what it finds is
    a run of exactly four steps that ends with two events numbered 1 and replays to the same end. */
  method CheckE4Naive(n: nat) returns (r: Result<Reason>, replayed: Option<ReplayResult<Reason>>)
    requires n >= 2
    ensures !r.NotFound?
    ensures r.Found? ==>
      var ce := r.counterexample;
      && |ce.trace| == 4 && |ce.finalTask.events| == 2
      && ce.finalTask.events[0].number == Some(1) && ce.finalTask.events[1].number == Some(1)
      && replayed == Some(End(ce.finalTask, ce.finalWorld, Some(SameNumber)))
    ensures r.Failed? ==> Overflows(NaiveActors(n), NaiveStart(n), MAX_NODES)
  {
    hide Passes, Shortest, Overflows, Explored, Counts, Start;
    var actors := NaiveActors(n);
    r := Search(actors, FreshTask, map[], E4Check, MAX_NODES);
    replayed := None;
    match r
    case Found(ce, _, _) =>
      replayed := Replay(actors, FreshTask, map[], ce.trace, E4Check);
      NaiveFound(n, ce);
    case NotFound(_, _) =>
      NaiveNeverPasses(n);
    case Failed(error) =>
      NoUnknownOps(n);
  }

  lemma NaiveFound(n: nat, ce: Counterexample<Reason>)
    requires n >= 2 && Shortest(NaiveActors(n), NaiveStart(n), E4Check, ce)
    ensures |ce.trace| == 4 && |ce.finalTask.events| == 2 && ce.reason == SameNumber
    ensures ce.finalTask.events[0].number == Some(1) && ce.finalTask.events[1].number == Some(1)
    ensures var m := Replayed(NaiveActors(n), NaiveStart(n).memory, ce.trace);
      && m.Some? && m.value.task == ce.finalTask && m.value.world == ce.finalWorld
      && EndVerdict(NaiveActors(n), E4Check, m.value) == Some(ce.reason)
  {
    hide Exec, NaiveActors;
    var schedule :| RealRun(NaiveActors(n), NaiveStart(n), E4Check, schedule, ce);
    assert Violates(NaiveActors(n), NaiveStart(n), E4Check, schedule);
    BothReadThenWrite(n);
    ClashCosts(n, schedule);
    DistinctPidsResolve(NaiveActors(n), NaiveStart(n), schedule);
    ReplayReproduces(NaiveActors(n), NaiveStart(n), schedule);
  }

  lemma NaiveNeverPasses(n: nat)
    requires n >= 2
    ensures !Passes(NaiveActors(n), NaiveStart(n), E4Check)
  {
    hide Exec;
    BothReadThenWrite(n);
    var final := Exec(NaiveActors(n), NaiveStart(n), [0, 1, 0, 1]).value;
    assert Reaches(NaiveActors(n), NaiveStart(n), final);
  }

  lemma NoUnknownOps(n: nat)
    ensures !MeetsUnknownOp(NaiveActors(n), NaiveStart(n))
  {
  }
}
