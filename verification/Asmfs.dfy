/** The abstract task-lifecycle machine explored by the model checker (asmfs/bmc-checker.mjs): one
  task shared by N actors, each running a script; one operation is one atomic step. */
module Asmfs {
  import opened Wrappers

  datatype Lock = Lock(pid: int, startSec: Option<int>)

  datatype Process = Process(alive: bool, startSec: int)

  type World = map<int, Process>

  datatype Markers = Markers(done: bool, running: bool, stopping: bool, adopted: bool, orphaned: bool)

  datatype Event = Event(number: Option<nat>, e: string)

  datatype Liveness = Alive | Dead | PidReused

  datatype Label = Done | Running | Stopping | Adopted | Orphaned | NoLabel

  datatype Task = Task(
    markers: Markers, lock: Option<Lock>, exitCode: Option<int>, events: seq<Event>,
    doneWins: nat, adoptWins: nat, lastLiveness: Option<Liveness>)

  datatype Op =
    | Spawn | Stop | Crash | Adopt
    | Finalize(code: int)
    | ReadSeq | WriteEvent(e: string) | AppendEvent(e: string)
    | Read
    | Unknown(name: string)

  datatype Outcome =
    | Claimed | LockHeld | StopRequested | NotOwner | LeftOrphan | Crashed
    | NoLock | OwnerAlive | Reject | Win | Lose
    | Numbered(number: Option<nat>)
    | Observed(state: Label)
    | NoOutcome

  datatype Actor = Actor(pid: int, startSec: int, script: seq<Op>)

  const FreshTask := Task(Markers(false, false, false, false, false), None, None, [], 0, 0, None)

  function LivenessOf(pid: int, startSec: Option<int>, world: World): Liveness {
    if pid !in world || !world[pid].alive then Dead
    else if startSec.None? || world[pid].startSec == startSec.value then Alive
    else PidReused
  }

  function Observe(m: Markers): Label {
    if m.done then Done
    else if m.running then Running
    else if m.stopping then Stopping
    else if m.adopted then Adopted
    else if m.orphaned then Orphaned
    else NoLabel
  }

  /** What one step may change: the task, the process table, the actors' local numbers. */
  datatype Memory = Memory(task: Task, world: World, localSeq: seq<Option<nat>>)

  predicate Owns(t: Task, actor: Actor) {
    t.lock.Some? && t.lock.value.pid == actor.pid
  }

  function Spawned(m: Memory, actor: Actor): (Memory, Outcome) {
    var world := m.world[actor.pid := Process(true, actor.startSec)];
    if m.task.lock.None?
    then (Memory(m.task.(lock := Some(Lock(actor.pid, Some(actor.startSec))), markers := m.task.markers.(running := true)),
                 world, m.localSeq), Claimed)
    else (m.(world := world), LockHeld)
  }

  function CrashedBy(m: Memory, actor: Actor): (Memory, Outcome) {
    var world := if actor.pid in m.world then m.world[actor.pid := m.world[actor.pid].(alive := false)] else m.world;
    if Owns(m.task, actor)
    then (Memory(m.task.(markers := m.task.markers.(running := false, stopping := false, orphaned := true)), world, m.localSeq), LeftOrphan)
    else (m.(world := world), Crashed)
  }

  function AdoptedBy(t: Task, world: World, actor: Actor): (Task, Outcome) {
    if t.lock.None? then (t, NoLock)
    else
      var lv := LivenessOf(t.lock.value.pid, t.lock.value.startSec, world);
      var t1 := t.(lastLiveness := Some(lv));
      if lv.Alive? then (t1, OwnerAlive)
      else if lv.PidReused? then (t1, Reject)
      else if t.markers.adopted || t.markers.done then (t1, Lose)
      else (t1.(markers := t.markers.(orphaned := false, adopted := true),
                lock := Some(Lock(actor.pid, Some(actor.startSec))),
                adoptWins := t.adoptWins + 1), Win)
  }

  function Finalized(t: Task, code: int): (Task, Outcome) {
    if t.markers.done then (t, Lose)
    else (t.(markers := Markers(true, false, false, false, false), exitCode := Some(code), doneWins := t.doneWins + 1), Win)
  }

  /** The transition function of a single operation by actor number i. */
  function StepOf(m: Memory, i: nat, actor: Actor, op: Op): (r: (Memory, Outcome))
    requires i < |m.localSeq|
    ensures |r.0.localSeq| == |m.localSeq|
  {
    match op
    case Spawn => Spawned(m, actor)
    case Stop =>
      if Owns(m.task, actor) && m.task.markers.running
      then (m.(task := m.task.(markers := m.task.markers.(running := false, stopping := true))), StopRequested)
      else (m, NotOwner)
    case Crash => CrashedBy(m, actor)
    case Adopt => var (t, o) := AdoptedBy(m.task, m.world, actor); (m.(task := t), o)
    case Finalize(code) => var (t, o) := Finalized(m.task, code); (m.(task := t), o)
    case ReadSeq =>
      var n := |m.task.events| + 1;
      (m.(localSeq := m.localSeq[i := Some(n)]), Numbered(Some(n)))
    case WriteEvent(e) =>
      (m.(task := m.task.(events := m.task.events + [Event(m.localSeq[i], e)])), Numbered(m.localSeq[i]))
    case AppendEvent(e) =>
      var n := |m.task.events| + 1;
      (m.(task := m.task.(events := m.task.events + [Event(Some(n), e)])), Numbered(Some(n)))
    case Read => (m, Observed(Observe(m.task.markers)))
    case Unknown(_) => (m, NoOutcome)
  }

  /** The mutable state a step works on: a private copy of a stored configuration. */
  class Machine {
    var task: Task
    var world: World
    var localSeq: seq<Option<nat>>

    ghost function Contents(): Memory
      reads this
    {
      Memory(task, world, localSeq)
    }

    constructor (task: Task, world: World, localSeq: seq<Option<nat>>)
      ensures Contents() == Memory(task, world, localSeq)
    {
      this.task, this.world, this.localSeq := task, world, localSeq;
    }

    method Adopt(actor: Actor) returns (outcome: Outcome)
      modifies this`task
      ensures (task, outcome) == AdoptedBy(old(task), world, actor)
    {
      if task.lock.None? {
        return NoLock;
      }
      var lv := LivenessOf(task.lock.value.pid, task.lock.value.startSec, world);
      task := task.(lastLiveness := Some(lv));
      if lv == Alive {
        outcome := OwnerAlive;
      } else if lv == PidReused {
        outcome := Reject;
      } else if !task.markers.adopted && !task.markers.done {
        task := task.(markers := task.markers.(orphaned := false, adopted := true));
        task := task.(lock := Some(Lock(actor.pid, Some(actor.startSec))));
        task := task.(adoptWins := task.adoptWins + 1);
        outcome := Win;
      } else {
        outcome := Lose;
      }
    }

    method Finalize(code: int) returns (outcome: Outcome)
      modifies this`task
      ensures (task, outcome) == Finalized(old(task), code)
    {
      if task.markers.done {
        return Lose;
      }
      task := task.(markers := Markers(true, false, false, false, false));
      task := task.(exitCode := Some(code), doneWins := task.doneWins + 1);
      outcome := Win;
    }

    method Step(i: nat, actor: Actor, op: Op) returns (outcome: Outcome)
      requires i < |localSeq|
      modifies this
      ensures (Contents(), outcome) == StepOf(old(Contents()), i, actor, op)
    {
      match op
      case Spawn =>
        world := world[actor.pid := Process(true, actor.startSec)];
        if task.lock.None? {
          task := task.(lock := Some(Lock(actor.pid, Some(actor.startSec))), markers := task.markers.(running := true));
          outcome := Claimed;
        } else {
          outcome := LockHeld;
        }
      case Stop =>
        if task.lock.Some? && task.lock.value.pid == actor.pid && task.markers.running {
          task := task.(markers := task.markers.(running := false, stopping := true));
          outcome := StopRequested;
        } else {
          outcome := NotOwner;
        }
      case Crash =>
        if actor.pid in world {
          world := world[actor.pid := world[actor.pid].(alive := false)];
        }
        if task.lock.Some? && task.lock.value.pid == actor.pid {
          task := task.(markers := task.markers.(running := false, stopping := false, orphaned := true));
          outcome := LeftOrphan;
        } else {
          outcome := Crashed;
        }
      case Adopt =>
        outcome := Adopt(actor);
      case Finalize(code) =>
        outcome := Finalize(code);
      case ReadSeq =>
        localSeq := localSeq[i := Some(|task.events| + 1)];
        outcome := Numbered(localSeq[i]);
      case WriteEvent(e) =>
        task := task.(events := task.events + [Event(localSeq[i], e)]);
        outcome := Numbered(localSeq[i]);
      case AppendEvent(e) =>
        var n := |task.events| + 1;
        task := task.(events := task.events + [Event(Some(n), e)]);
        outcome := Numbered(Some(n));
      case Read =>
        outcome := Observed(Observe(task.markers));
      case Unknown(_) =>
        outcome := NoOutcome;
    }
  }

  // ------------------------------------------------------------------ interleavings

  /** A point of an interleaving: the shared memory and how far each actor has come. */
  datatype Config = Config(memory: Memory, pos: seq<nat>)

  predicate WellSized(actors: seq<Actor>, c: Config) {
    && |c.pos| == |actors| && |c.memory.localSeq| == |actors|
    && forall i | 0 <= i < |actors| :: c.pos[i] <= |actors[i].script|
  }

  predicate Enabled(actors: seq<Actor>, c: Config, i: nat) {
    WellSized(actors, c) && i < |actors| && c.pos[i] < |actors[i].script|
  }

  predicate Terminal(actors: seq<Actor>, c: Config) {
    WellSized(actors, c) && forall i | 0 <= i < |actors| :: c.pos[i] == |actors[i].script|
  }

  function NextOp(actors: seq<Actor>, c: Config, i: nat): Op
    requires Enabled(actors, c, i)
  {
    actors[i].script[c.pos[i]]
  }

  function Next(actors: seq<Actor>, c: Config, i: nat): (c': Config)
    requires Enabled(actors, c, i)
    ensures WellSized(actors, c')
  {
    Config(StepOf(c.memory, i, actors[i], NextOp(actors, c, i)).0, c.pos[i := c.pos[i] + 1])
  }

  /** The configuration an interleaving starts from. */
  function Start(actors: seq<Actor>, task: Task, world: World): (c: Config)
    ensures WellSized(actors, c)
  {
    Config(Memory(task, world, seq(|actors|, _ => None)), seq(|actors|, _ => 0))
  }

  /** Run a schedule, a sequence of actor numbers; None when it calls on an actor that is finished. */
  function Exec(actors: seq<Actor>, c: Config, schedule: seq<nat>): (r: Option<Config>)
    requires WellSized(actors, c)
    ensures r.Some? ==> WellSized(actors, r.value)
  {
    if schedule == [] then Some(c)
    else
      var before, i := Exec(actors, c, schedule[..|schedule| - 1]), schedule[|schedule| - 1];
      if before.Some? && Enabled(actors, before.value, i) then Some(Next(actors, before.value, i)) else None
  }

  ghost predicate Reaches(actors: seq<Actor>, c: Config, target: Config)
    requires WellSized(actors, c)
  {
    exists schedule :: Exec(actors, c, schedule) == Some(target)
  }

  lemma ReachesStart(actors: seq<Actor>, c: Config)
    requires WellSized(actors, c)
    ensures Reaches(actors, c, c)
  {
    assert Exec(actors, c, []) == Some(c);
  }

  lemma ExecPush(actors: seq<Actor>, start: Config, schedule: seq<nat>, i: nat, c: Config)
    requires WellSized(actors, start) && Exec(actors, start, schedule) == Some(c) && Enabled(actors, c, i)
    ensures Exec(actors, start, schedule + [i]) == Some(Next(actors, c, i))
  {
    assert (schedule + [i])[..|schedule|] == schedule;
  }

  lemma ReachesNext(actors: seq<Actor>, c: Config, mid: Config, i: nat)
    requires WellSized(actors, c) && Reaches(actors, c, mid) && Enabled(actors, mid, i)
    ensures Reaches(actors, c, Next(actors, mid, i))
  {
    var schedule :| Exec(actors, c, schedule) == Some(mid);
    ExecPush(actors, c, schedule, i, mid);
  }

  // ------------------------------------------------------------------ counting steps

  function Sum(ns: seq<nat>): nat {
    if ns == [] then 0 else Sum(ns[..|ns| - 1]) + ns[|ns| - 1]
  }

  lemma {:induction false} SumUpdate(ns: seq<nat>, i: nat, n: nat)
    requires i < |ns|
    ensures Sum(ns[i := n]) == Sum(ns) - ns[i] + n
  {
    var last := |ns| - 1;
    if i == last {
      assert ns[i := n][..last] == ns[..last];
    } else {
      assert ns[i := n][..last] == ns[..last][i := n];
      SumUpdate(ns[..last], i, n);
    }
  }

  lemma {:induction false} SumMonotone(ns: seq<nat>, ms: seq<nat>)
    requires |ns| == |ms| && forall i | 0 <= i < |ns| :: ns[i] <= ms[i]
    ensures Sum(ns) <= Sum(ms)
  {
    if ns != [] {
      SumMonotone(ns[..|ns| - 1], ms[..|ms| - 1]);
    }
  }

  function Depth(c: Config): nat {
    Sum(c.pos)
  }

  function Lengths(actors: seq<Actor>): seq<nat> {
    seq(|actors|, i requires 0 <= i < |actors| => |actors[i].script|)
  }

  /** Steps in a complete interleaving. */
  function TotalSteps(actors: seq<Actor>): nat {
    Sum(Lengths(actors))
  }

  lemma DepthBounded(actors: seq<Actor>, c: Config)
    requires WellSized(actors, c)
    ensures Depth(c) <= TotalSteps(actors)
  {
    SumMonotone(c.pos, Lengths(actors));
  }

  lemma DepthNext(actors: seq<Actor>, c: Config, i: nat)
    requires Enabled(actors, c, i)
    ensures Depth(Next(actors, c, i)) == Depth(c) + 1 <= TotalSteps(actors)
  {
    SumUpdate(c.pos, i, c.pos[i] + 1);
    DepthBounded(actors, Next(actors, c, i));
  }

  lemma {:induction false} StartDepth(n: nat)
    ensures Sum(seq(n, _ => 0)) == 0
  {
    if n > 0 {
      var zeros: seq<nat> := seq(n, _ => 0);
      assert zeros[..n - 1] == seq(n - 1, _ => 0);
      StartDepth(n - 1);
    }
  }

  /** The number of steps of a run shows in the configuration it ends in. */
  lemma {:induction false} RunLength(actors: seq<Actor>, c: Config, schedule: seq<nat>)
    requires WellSized(actors, c) && Exec(actors, c, schedule).Some?
    ensures Depth(Exec(actors, c, schedule).value) == Depth(c) + |schedule|
  {
    if schedule != [] {
      var init, i := schedule[..|schedule| - 1], schedule[|schedule| - 1];
      RunLength(actors, c, init);
      DepthNext(actors, Exec(actors, c, init).value, i);
    }
  }
}
