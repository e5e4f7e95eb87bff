/** A task told by the trace of its run (asmfs/bmc-checker.mjs: step, liveness, observe): when each
  operation succeeds, what it leaves alone, and which earlier step every marker, the lock and the process
  table go back to. */
module TaskHistory {
  import opened Wrappers
  import opened Asmfs
  import opened ModelChecker

  // ------------------------------------------------------------------ one step

  /** The holder's process: running since the time on record, or since an unknown one; another one under its
    number; or none. */
  predicate Holds(lock: Lock, world: World) {
    lock.pid in world && world[lock.pid].alive && (lock.startSec == None || lock.startSec == Some(world[lock.pid].startSec))
  }

  predicate Replaced(lock: Lock, world: World) {
    lock.pid in world && world[lock.pid].alive && lock.startSec.Some? && lock.startSec.value != world[lock.pid].startSec
  }

  predicate Gone(lock: Lock, world: World) {
    lock.pid in world ==> !world[lock.pid].alive
  }

  predicate HeldBy(t: Task, pid: int) {
    t.lock.Some? && t.lock.value.pid == pid
  }

  /** What is shown: done before running, stopping, adopted and orphaned, in this order. */
  predicate Shows(m: Markers, shown: Label) {
    && (shown == Done <==> m.done)
    && (shown == Running <==> !m.done && m.running)
    && (shown == Stopping <==> !m.done && !m.running && m.stopping)
    && (shown == Adopted <==> !m.done && !m.running && !m.stopping && m.adopted)
    && (shown == Orphaned <==> !m.done && !m.running && !m.stopping && !m.adopted && m.orphaned)
  }

  /** When an operation has which outcome. */
  predicate Outcomes(m: Memory, i: nat, actor: Actor, op: Op, o: Outcome)
    requires i < |m.localSeq|
  {
    var t := m.task;
    match op
    case Spawn => o == if t.lock.None? then Claimed else LockHeld
    case Stop => o == if HeldBy(t, actor.pid) && t.markers.running then StopRequested else NotOwner
    case Crash => o == if HeldBy(t, actor.pid) then LeftOrphan else Crashed
    case Adopt =>
      && (o == NoLock <==> t.lock.None?)
      && (o == OwnerAlive <==> t.lock.Some? && Holds(t.lock.value, m.world))
      && (o == Reject <==> t.lock.Some? && Replaced(t.lock.value, m.world))
      && (o == Lose <==> t.lock.Some? && Gone(t.lock.value, m.world) && (t.markers.adopted || t.markers.done))
      && (o == Win <==> t.lock.Some? && Gone(t.lock.value, m.world) && !t.markers.adopted && !t.markers.done)
    case Finalize(_) => o == if t.markers.done then Lose else Win
    case ReadSeq => o == Numbered(Some(|t.events| + 1))
    case WriteEvent(_) => o == Numbered(m.localSeq[i])
    case AppendEvent(_) => o == Numbered(Some(|t.events| + 1))
    case Read => o.Observed? && Shows(t.markers, o.state)
    case Unknown(_) => o == NoOutcome
  }

  /** Does this outcome of the operation make the actor the holder of the lock? */
  predicate TakesLock(op: Op, o: Outcome) {
    (op == Spawn && o == Claimed) || (op == Asmfs.Adopt && o == Win)
  }

  predicate Finalizes(op: Op, o: Outcome) {
    op.Finalize? && o == Win
  }

  /** What becomes of each part of the task, the process table and the local numbers. */
  predicate Leaves(m: Memory, i: nat, actor: Actor, op: Op, o: Outcome, m': Memory)
    requires i < |m.localSeq|
  {
    var t, t' := m.task, m'.task;
    && t'.lock == (if TakesLock(op, o) then Some(Lock(actor.pid, Some(actor.startSec))) else t.lock)
    && t'.exitCode == (if Finalizes(op, o) then Some(op.code) else t.exitCode)
    && t'.doneWins == t.doneWins + (if Finalizes(op, o) then 1 else 0)
    && t'.adoptWins == t.adoptWins + (if op == Asmfs.Adopt && o == Win then 1 else 0)
    && t'.events == t.events + (if op.WriteEvent? then [Event(m.localSeq[i], op.e)]
                                else if op.AppendEvent? then [Event(Some(|t.events| + 1), op.e)] else [])
    && m'.localSeq == (if op == ReadSeq then m.localSeq[i := Some(|t.events| + 1)] else m.localSeq)
    && m'.world == (if op == Spawn then m.world[actor.pid := Process(true, actor.startSec)]
                    else if op == Crash && actor.pid in m.world then m.world[actor.pid := Process(false, m.world[actor.pid].startSec)]
                    else m.world)
    && (if op == Asmfs.Adopt && t.lock.Some? then
          t'.lastLiveness == Some(if Gone(t.lock.value, m.world) then Dead else if Holds(t.lock.value, m.world) then Alive else PidReused)
        else t'.lastLiveness == t.lastLiveness)
  }

  datatype Marker = IsDone | IsRunning | IsStopping | IsAdopted | IsOrphaned

  predicate Shown(m: Markers, k: Marker) {
    match k
    case IsDone => m.done
    case IsRunning => m.running
    case IsStopping => m.stopping
    case IsAdopted => m.adopted
    case IsOrphaned => m.orphaned
  }

  /** The step puts the marker up. */
  predicate PutsUp(op: Op, o: Outcome, k: Marker) {
    match k
    case IsDone => Finalizes(op, o)
    case IsRunning => op == Spawn && o == Claimed
    case IsStopping => op == Stop && o == StopRequested
    case IsAdopted => op == Asmfs.Adopt && o == Win
    case IsOrphaned => op == Crash && o == LeftOrphan
  }

  /** The step takes the marker down: finalizing all but its own; a crash of the holder running and stopping;
    a stop running; an adoption orphaned. */
  predicate TakesDown(op: Op, o: Outcome, k: Marker) {
    match k
    case IsDone => false
    case IsRunning => Finalizes(op, o) || (op == Stop && o == StopRequested) || (op == Crash && o == LeftOrphan)
    case IsStopping => Finalizes(op, o) || (op == Crash && o == LeftOrphan)
    case IsAdopted => Finalizes(op, o)
    case IsOrphaned => Finalizes(op, o) || (op == Asmfs.Adopt && o == Win)
  }

  /** The markers a step shows are those it put up, and those shown before that it does not take down. */
  predicate MarkersMove(before: Markers, op: Op, o: Outcome, after: Markers) {
    forall k :: Shown(after, k) <==> PutsUp(op, o, k) || (Shown(before, k) && !TakesDown(op, o, k))
  }

  lemma OutcomeTold(m: Memory, i: nat, actor: Actor, op: Op)
    requires i < |m.localSeq|
    ensures Outcomes(m, i, actor, op, StepOf(m, i, actor, op).1)
  {
  }

  lemma LeftTold(m: Memory, i: nat, actor: Actor, op: Op)
    requires i < |m.localSeq|
    ensures var (m', o) := StepOf(m, i, actor, op); Leaves(m, i, actor, op, o, m')
  {
    if op == Asmfs.Adopt {
      assert StepOf(m, i, actor, op).0.task == AdoptedBy(m.task, m.world, actor).0;
    } else {
      hide AdoptedBy;
    }
  }

  lemma MovesTold(m: Memory, i: nat, actor: Actor, op: Op)
    requires i < |m.localSeq|
    ensures var (m', o) := StepOf(m, i, actor, op); MarkersMove(m.task.markers, op, o, m'.task.markers)
  {
  }

  /** Every operation has the outcome its state allows, moves the markers it must, and leaves the rest. */
  lemma StepTold(m: Memory, i: nat, actor: Actor, op: Op)
    requires i < |m.localSeq|
    ensures var (m', o) := StepOf(m, i, actor, op);
      Outcomes(m, i, actor, op, o) && Leaves(m, i, actor, op, o, m') && MarkersMove(m.task.markers, op, o, m'.task.markers)
  {
    hide *;
    OutcomeTold(m, i, actor, op);
    LeftTold(m, i, actor, op);
    MovesTold(m, i, actor, op);
  }

  // ------------------------------------------------------------------ every run

  /** Some step put the marker up and none has taken it down since; or it was up and none ever did. */
  predicate UpSince(trace: seq<StepDesc>, k: Marker, atStart: bool) {
    || (exists j ::
          && 0 <= j < |trace| && PutsUp(trace[j].op, trace[j].outcome, k)
          && forall l | j < l < |trace| :: !TakesDown(trace[l].op, trace[l].outcome, k))
    || (atStart && forall l | 0 <= l < |trace| :: !TakesDown(trace[l].op, trace[l].outcome, k))
  }

  lemma UpSinceMore(trace: seq<StepDesc>, s: StepDesc, k: Marker, atStart: bool)
    ensures UpSince(trace + [s], k, atStart) <==>
            PutsUp(s.op, s.outcome, k) || (UpSince(trace, k, atStart) && !TakesDown(s.op, s.outcome, k))
  {
    hide PutsUp, TakesDown;
    var more, n := trace + [s], |trace|;
    assert more[n] == s && forall j | 0 <= j < n :: more[j] == trace[j];
    if PutsUp(s.op, s.outcome, k) {
      assert PutsUp(more[n].op, more[n].outcome, k);
    }
    if j :| 0 <= j < n && PutsUp(trace[j].op, trace[j].outcome, k) && forall l | j < l < n ::
        !TakesDown(trace[l].op, trace[l].outcome, k) {
      assert PutsUp(more[j].op, more[j].outcome, k);
    }
    if UpSince(more, k, atStart) && !PutsUp(s.op, s.outcome, k) {
      if j :| 0 <= j < n + 1 && PutsUp(more[j].op, more[j].outcome, k) && forall l | j < l < n + 1 ::
          !TakesDown(more[l].op, more[l].outcome, k) {
        assert PutsUp(trace[j].op, trace[j].outcome, k);
        assert !TakesDown(more[n].op, more[n].outcome, k);
      } else {
        assert !TakesDown(more[n].op, more[n].outcome, k);
        forall l | 0 <= l < n ensures !TakesDown(trace[l].op, trace[l].outcome, k) {
          assert !TakesDown(more[l].op, more[l].outcome, k);
        }
      }
    }
  }

  /** The step takes the lock for the process. */
  predicate Taken(s: StepDesc) {
    TakesLock(s.op, s.outcome)
  }

  predicate LastTaken(trace: seq<StepDesc>, j: nat)
    requires j < |trace|
  {
    Taken(trace[j]) && forall l | j < l < |trace| :: !Taken(trace[l])
  }

  /** The lock is held by whoever took it last. */
  predicate LockTold(trace: seq<StepDesc>, atStart: Option<Lock>, lock: Option<Lock>) {
    && (forall j | 0 <= j < |trace| && LastTaken(trace, j) :: lock.Some? && lock.value.pid == trace[j].pid)
    && ((forall j | 0 <= j < |trace| :: !Taken(trace[j])) ==> lock == atStart)
  }

  lemma LockMore(trace: seq<StepDesc>, s: StepDesc, atStart: Option<Lock>, lock: Option<Lock>, lock': Option<Lock>)
    requires LockTold(trace, atStart, lock)
    requires if Taken(s) then lock'.Some? && lock'.value.pid == s.pid else lock' == lock
    ensures LockTold(trace + [s], atStart, lock')
  {
    hide Taken;
    var more, n := trace + [s], |trace|;
    assert more[n] == s && forall j | 0 <= j < n :: more[j] == trace[j];
    forall j | 0 <= j < n + 1 && LastTaken(more, j) ensures lock'.Some? && lock'.value.pid == more[j].pid {
      if j < n {
        assert !Taken(more[n]);
        assert LastTaken(trace, j) by {
          forall l | j < l < n ensures !Taken(trace[l]) {
            assert !Taken(more[l]);
          }
        }
      }
    }
    if forall j | 0 <= j < n + 1 :: !Taken(more[j]) {
      assert !Taken(more[n]);
      forall j | 0 <= j < n ensures !Taken(trace[j]) {
        assert !Taken(more[j]);
      }
    }
  }


  lemma RunStep(actors: seq<Actor>, c: Config, schedule: seq<nat>)
    requires WellSized(actors, c) && Exec(actors, c, schedule).Some? && schedule != []
    ensures var init, i := schedule[..|schedule| - 1], schedule[|schedule| - 1];
      var before := Exec(actors, c, init);
      && before.Some? && Enabled(actors, before.value, i)
      && Exec(actors, c, schedule).value == Next(actors, before.value, i)
      && TraceOf(actors, c, schedule) == TraceOf(actors, c, init) + [DescOf(actors, before.value, i)]
  {
  }

  /** The markers of a task after any run are those its trace tells: each is up exactly if some step put it
    up that no step has taken back; and the lock is held by whoever claimed it or adopted the task last. */
  lemma {:induction false} MarkersTold(actors: seq<Actor>, c: Config, schedule: seq<nat>, k: Marker)
    requires WellSized(actors, c) && Exec(actors, c, schedule).Some?
    ensures var trace, final := TraceOf(actors, c, schedule), Exec(actors, c, schedule).value;
      && (Shown(final.memory.task.markers, k) <==> UpSince(trace, k, Shown(c.memory.task.markers, k)))
      && LockTold(trace, c.memory.task.lock, final.memory.task.lock)
  {
    hide StepOf, Next, Shown, PutsUp, TakesDown, UpSince, LockTold, Outcomes;
    if schedule != [] {
      var init, i := schedule[..|schedule| - 1], schedule[|schedule| - 1];
      RunStep(actors, c, schedule);
      MarkersTold(actors, c, init, k);
      var before := Exec(actors, c, init).value;
      NextIsStep(actors, before, i);
      StepTold(before.memory, i, actors[i], NextOp(actors, before, i));
      var s := DescOf(actors, before, i);
      UpSinceMore(TraceOf(actors, c, init), s, k, Shown(c.memory.task.markers, k));
      LockMore(TraceOf(actors, c, init), s, c.memory.task.lock, before.memory.task.lock, Next(actors, before, i).memory.task.lock);
    } else {
      NoStepsTold(c, k);
    }
  }

  lemma NextIsStep(actors: seq<Actor>, c: Config, i: nat)
    requires Enabled(actors, c, i)
    ensures Next(actors, c, i).memory == StepOf(c.memory, i, actors[i], NextOp(actors, c, i)).0
    ensures DescOf(actors, c, i).outcome == StepOf(c.memory, i, actors[i], NextOp(actors, c, i)).1
    ensures DescOf(actors, c, i).op == NextOp(actors, c, i) && DescOf(actors, c, i).pid == actors[i].pid
  {
  }

  lemma NoStepsTold(c: Config, k: Marker)
    ensures UpSince([], k, Shown(c.memory.task.markers, k)) <==> Shown(c.memory.task.markers, k)
    ensures LockTold([], c.memory.task.lock, c.memory.task.lock)
  {
  }
}
