/** One process of the log rotation among the others: whatever they do before each of its steps, its emit ends, as
    a run of the machine. The handler is proved to be that process. */
module LogHandler {
  import opened Basics
  import opened LogRotation

  // ---------- one process among the others ----------

  /** The log's name stands for a file. */
  lemma {:induction false} BaseIsFile(l: Limits, s: State)
    requires Sound(l, s)
    ensures 0 in s.names ==> s.names[0] < |s.files|
  {
  }

  /** Process `q` begins, takes a step or dies. */
  ghost predicate NextBy(l: Limits, q: nat, s: State, t: State) {
    && q < |s.procs|
    && (|| (s.procs[q].pc.Idle? && exists choice :: t == Begin(s, q, choice))
        || (Enabled(s, q) && t == Step(l, s, q))
        || t == Crashed(s, q))
  }

  ghost predicate ByOther(l: Limits, id: nat, s: State, t: State) {
    exists q: nat :: q != id && NextBy(l, q, s, t)
  }

  ghost predicate AllByOthers(l: Limits, id: nat, run: seq<State>) {
    forall i :: 0 <= i < |run| - 1 ==> ByOther(l, id, run[i], run[i + 1])
  }

  /** Other processes than `id` do what they like, any number of them for any number of steps. */
  ghost predicate OthersMove(l: Limits, id: nat, s: State, t: State) {
    exists run: seq<State> :: run != [] && run[0] == s && run[|run| - 1] == t && AllByOthers(l, id, run)
  }

  lemma {:induction false} OtherStepKeeps(l: Limits, id: nat, s: State, t: State)
    requires Sound(l, s) && id < |s.procs| && ByOther(l, id, s, t)
    ensures Sound(l, t) && |t.procs| == |s.procs| && t.procs[id] == s.procs[id]
    ensures NextOrCrash(l, s, t)
  {
    hide Sound, Begin, Step, Crashed, Enabled;
    var q: nat :| q != id && NextBy(l, q, s, t);
    NextKeepsSound(l, s, t);
    if choice :| s.procs[q].pc.Idle? && t == Begin(s, q, choice) {
      BeginFrame(s, q, choice, id);
    } else if Enabled(s, q) && t == Step(l, s, q) {
      StepFrame(l, s, q, id);
    } else {
      CrashFrame(s, q, id);
    }
  }

  lemma {:induction false} BeginFrame(s: State, q: nat, choice: Choice, id: nat)
    requires q < |s.procs| && id < |s.procs| && q != id
    ensures |Begin(s, q, choice).procs| == |s.procs| && Begin(s, q, choice).procs[id] == s.procs[id]
  {
  }

  lemma {:induction false} StepFrame(l: Limits, s: State, q: nat, id: nat)
    requires Enabled(s, q) && id < |s.procs| && q != id
    ensures |Step(l, s, q).procs| == |s.procs| && Step(l, s, q).procs[id] == s.procs[id]
  {
  }

  lemma {:induction false} CrashFrame(s: State, q: nat, id: nat)
    requires q < |s.procs| && id < |s.procs| && q != id
    ensures |Crashed(s, q).procs| == |s.procs| && Crashed(s, q).procs[id] == s.procs[id]
  {
  }

  /** The machine gets from `s` to `t`. */
  ghost predicate Reaches(l: Limits, s: State, t: State) {
    exists run: seq<State> :: run != [] && run[0] == s && run[|run| - 1] == t && AllNext(l, run)
  }

  ghost predicate AllNext(l: Limits, run: seq<State>) {
    forall i :: 0 <= i < |run| - 1 ==> NextOrCrash(l, run[i], run[i + 1])
  }

  lemma {:induction false} ReachesItself(l: Limits, s: State)
    ensures Reaches(l, s, s)
  {
    assert [s][0] == s && AllNext(l, [s]);
  }

  lemma {:induction false} ReachesNext(l: Limits, s: State, t: State, u: State)
    requires Reaches(l, s, t) && NextOrCrash(l, t, u)
    ensures Reaches(l, s, u)
  {
    hide NextOrCrash;
    var run :| run != [] && run[0] == s && run[|run| - 1] == t && AllNext(l, run);
    var longer := run + [u];
    assert longer[0] == s && longer[|longer| - 1] == u && AllNext(l, longer);
  }

  lemma {:induction false} ReachesTransitive(l: Limits, s: State, t: State, u: State)
    requires Reaches(l, s, t) && Reaches(l, t, u)
    ensures Reaches(l, s, u)
  {
    hide NextOrCrash;
    var first :| first != [] && first[0] == s && first[|first| - 1] == t && AllNext(l, first);
    var second :| second != [] && second[0] == t && second[|second| - 1] == u && AllNext(l, second);
    var run := first + second[1..];
    forall i | 0 <= i < |run| - 1
      ensures NextOrCrash(l, run[i], run[i + 1])
    {
      if i >= |first| - 1 {
        var j := i - (|first| - 1);
        assert run[i] == second[j] && run[i + 1] == second[j + 1];
      }
    }
    assert run[0] == s && run[|run| - 1] == u && AllNext(l, run);
  }

  lemma {:induction false} OthersKeep(l: Limits, id: nat, run: seq<State>, k: nat)
    requires run != [] && k < |run| && Sound(l, run[0]) && id < |run[0].procs| && AllByOthers(l, id, run)
    ensures Sound(l, run[k]) && |run[k].procs| == |run[0].procs| && run[k].procs[id] == run[0].procs[id]
    ensures Reaches(l, run[0], run[k])
  {
    hide Sound, ByOther, NextOrCrash, Reaches;
    if k == 0 {
      ReachesItself(l, run[0]);
    } else {
      OthersKeep(l, id, run, k - 1);
      assert ByOther(l, id, run[k - 1], run[k]);
      OtherStepKeeps(l, id, run[k - 1], run[k]);
      ReachesNext(l, run[0], run[k - 1], run[k]);
    }
  }

  /** What the other processes cannot change: this one's stream and place. */
  lemma {:induction false} OthersLeave(l: Limits, id: nat, s: State, t: State)
    requires Sound(l, s) && id < |s.procs| && OthersMove(l, id, s, t)
    ensures Sound(l, t) && |t.procs| == |s.procs| && t.procs[id] == s.procs[id] && Reaches(l, s, t)
  {
    hide Sound, AllByOthers, Reaches;
    var run :| run != [] && run[0] == s && run[|run| - 1] == t && AllByOthers(l, id, run);
    OthersKeep(l, id, run, |run| - 1);
  }

  /** What the other processes make of the world before each step of process `id`, at any time and in any state.
      Before it takes the lock they let go of it. */
  ghost predicate IsEnvironment(l: Limits, id: nat, others: (nat, State) -> State) {
    forall now: nat, s: State {:trigger others(now, s)} :: MovesFrom(l, id, s, others(now, s))
  }

  ghost predicate MovesFrom(l: Limits, id: nat, s: State, t: State) {
    Sound(l, s) && id < |s.procs| ==>
      OthersMove(l, id, s, t) && (s.procs[id].pc.Locking? ==> t.lock.None?)
  }

  // ---------- one emit ----------

  /** Steps that an emit still takes, at most. */
  function StepsLeft(l: Limits, pr: Process): nat {
    match pr.pc
    case Idle => 0
    case Checking => 2 * l.backupCount + 9
    case Opening => 2 * l.backupCount + 8
    case Deciding => 2 * l.backupCount + 7
    case Locking => 2 * l.backupCount + 6
    case Rechecking => 2 * l.backupCount + 5
    case Closing => 2 * l.backupCount + 4
    case Removing(i) => 2 * i + 5
    case Moving(i) => 2 * i + 4
    case Unlocking => 3
    case Writing => if pr.stream.None? then 2 else 1
  }

  lemma {:induction false} StepsDecrease(l: Limits, s: State, p: nat)
    requires Enabled(s, p)
    ensures StepsLeft(l, Step(l, s, p).procs[p]) < StepsLeft(l, s.procs[p])
  {
  }

  /** The process may go on after the others' move. */
  predicate GoesOn(s: State, t: State, id: nat) {
    id < |s.procs| && id < |t.procs| && t.procs[id] == s.procs[id] && Enabled(t, id)
  }

  /** The rest of an emit of process `id`: the others' move, one step of its own, and so on. */
  function Finished(l: Limits, id: nat, others: (nat, State) -> State, now: nat, s: State): (nat, State)
    decreases if id < |s.procs| then StepsLeft(l, s.procs[id]) else 0
  {
    var t := others(now, s);
    if GoesOn(s, t, id) then
      StepsDecrease(l, t, id);
      Finished(l, id, others, now + 1, Step(l, t, id))
    else (now, s)
  }

  /** A whole emit. */
  function Emitted(l: Limits, id: nat, others: (nat, State) -> State, now: nat, s: State, size: nat)
    : (nat, State)
    requires id < |s.procs|
  {
    Finished(l, id, others, now, Begin(s, id, Emit(size)))
  }

  /** One round: the others' move and a step of its own. */
  lemma {:induction false} OneRound(l: Limits, id: nat, others: (nat, State) -> State, now: nat, s: State)
    requires Sound(l, s) && id < |s.procs| && !s.procs[id].pc.Idle? && IsEnvironment(l, id, others)
    ensures var t := others(now, s);
            && Sound(l, t) && GoesOn(s, t, id) && Sound(l, Step(l, t, id)) && id < |Step(l, t, id).procs|
            && Reaches(l, s, Step(l, t, id))
            && Finished(l, id, others, now, s) == Finished(l, id, others, now + 1, Step(l, t, id))
  {
    hide Sound, OthersMove, Reaches, Step;
    var t := others(now, s);
    assert MovesFrom(l, id, s, t);
    OthersLeave(l, id, s, t);
    Unblocked(l, id, t);
    StepKeepsSound(l, t, id);
    StepKeepsCount(l, t, id);
    assert NextOrCrash(l, t, Step(l, t, id));
    ReachesNext(l, s, t, Step(l, t, id));
  }

  lemma {:induction false} Unblocked(l: Limits, id: nat, s: State)
    requires Sound(l, s) && id < |s.procs| && !s.procs[id].pc.Idle? && (s.procs[id].pc.Locking? ==> s.lock.None?)
    ensures Enabled(s, id)
  {
    BaseIsFile(l, s);
    assert ProcOk(l, s, id);
  }

  lemma {:induction false} StepKeepsCount(l: Limits, s: State, p: nat)
    requires Enabled(s, p)
    ensures |Step(l, s, p).procs| == |s.procs|
  {
  }

  /** Whatever the others do, an emit ends, as a run of the machine, with the record last in the file held. */
  lemma {:induction false} FinishedWrites(l: Limits, id: nat, others: (nat, State) -> State, now: nat, s: State)
    requires Sound(l, s) && id < |s.procs| && !s.procs[id].pc.Idle? && IsEnvironment(l, id, others)
    ensures var t := Finished(l, id, others, now, s).1;
            && Sound(l, t) && Reaches(l, s, t) && id < |t.procs| && t.procs[id].pc.Idle?
            && HoldsLast(t, id, s.procs[id].pending)
    decreases StepsLeft(l, s.procs[id])
  {
    hide Sound, Reaches, IsEnvironment, Finished, Enabled, HoldsLast, Step;
    var t := others(now, s);
    OneRound(l, id, others, now, s);
    var u := Step(l, t, id);
    StepsDecrease(l, t, id);
    StepKeepsPending(l, t, id);
    if u.procs[id].pc.Idle? {
      LastStepWrites(l, t, id);
      StoppedHere(l, id, others, now + 1, u);
    } else {
      FinishedWrites(l, id, others, now + 1, u);
      ReachesTransitive(l, s, u, Finished(l, id, others, now + 1, u).1);
    }
  }

  /** The process holds a stream to a file that ends with the record. */
  ghost predicate HoldsLast(s: State, id: nat, record: Record) {
    && id < |s.procs| && s.procs[id].stream.Some? && s.procs[id].stream.value.inode < |s.files|
    && var file := s.files[s.procs[id].stream.value.inode]; file != [] && file[|file| - 1] == record
  }

  lemma {:induction false} StepKeepsPending(l: Limits, s: State, p: nat)
    requires Enabled(s, p)
    ensures Step(l, s, p).procs[p].pending == s.procs[p].pending
  {
    hide Size, Stale, RemoveBackup, MoveBackup;
  }

  /** The step that ends an emit leaves the record last in the file held. */
  lemma {:induction false} LastStepWrites(l: Limits, s: State, p: nat)
    requires Enabled(s, p) && Step(l, s, p).procs[p].pc.Idle?
    ensures HoldsLast(Step(l, s, p), p, s.procs[p].pending)
  {
    hide Size, Stale, RemoveBackup, MoveBackup;
  }

  lemma {:induction false} StoppedHere(l: Limits, id: nat, others: (nat, State) -> State, now: nat, s: State)
    requires id < |s.procs| && s.procs[id].pc.Idle?
    ensures Finished(l, id, others, now, s) == (now, s)
  {
  }

  // ---------- the lock is always released ----------

  /** The state once process `q` has stepped out of the lock. */
  function Released(l: Limits, s: State, q: nat): State
    requires q < |s.procs|
    decreases StepsLeft(l, s.procs[q])
  {
    if Critical(s.procs[q].pc) && Enabled(s, q) then
      StepsDecrease(l, s, q);
      Released(l, Step(l, s, q), q)
    else s
  }

  lemma {:induction false} OneOtherMoves(l: Limits, id: nat, q: nat, s: State)
    requires Enabled(s, q) && q != id
    ensures ByOther(l, id, s, Step(l, s, q))
  {
    hide Step, Crashed;
    assert NextBy(l, q, s, Step(l, s, q));
  }

  lemma {:induction false} OthersMoveFirst(l: Limits, id: nat, s: State, t: State, u: State)
    requires ByOther(l, id, s, t) && OthersMove(l, id, t, u)
    ensures OthersMove(l, id, s, u)
  {
    hide ByOther;
    var run :| run != [] && run[0] == t && run[|run| - 1] == u && AllByOthers(l, id, run);
    var longer := [s] + run;
    forall i | 0 <= i < |longer| - 1
      ensures ByOther(l, id, longer[i], longer[i + 1])
    {
      assert i > 0 ==> longer[i] == run[i - 1];
    }
    assert longer[0] == s && longer[|longer| - 1] == u && AllByOthers(l, id, longer);
  }

  lemma {:induction false} NobodyMoves(l: Limits, id: nat, s: State)
    ensures OthersMove(l, id, s, s)
  {
    assert [s][0] == s && AllByOthers(l, id, [s]);
  }

  /** The holder of the lock releases it by its own steps, wherever in the rotation it is, with no other
      process moving. */
  lemma {:induction false} HolderReleases(l: Limits, id: nat, s: State, q: nat)
    requires Sound(l, s) && q < |s.procs| && q != id && (s.lock == Some(q) || s.lock == None)
    ensures OthersMove(l, id, s, Released(l, s, q)) && Released(l, s, q).lock == None
    decreases StepsLeft(l, s.procs[q])
  {
    hide InAgeOrder, RecordsOnce, OthersMove, ByOther, RotorOk, AllLateOk;
    assert ProcOk(l, s, q);
    if Critical(s.procs[q].pc) {
      BaseIsFile(l, s);
      StepKeepsSound(l, s, q);
      StepsDecrease(l, s, q);
      HolderReleases(l, id, Step(l, s, q), q);
      OneOtherMoves(l, id, q, s);
      OthersMoveFirst(l, id, s, Step(l, s, q), Released(l, s, q));
    } else {
      NobodyMoves(l, id, s);
    }
  }

  /** Lets whoever else holds the lock step out of it. */
  function Freed(l: Limits, id: nat, s: State): State {
    if s.lock.Some? && s.lock.value != id && s.lock.value < |s.procs| then Released(l, s, s.lock.value) else s
  }

  /** Waiting for the lock ends: in any state the other processes can free it by their own steps alone. */
  lemma {:induction false} LockCanBeFreed(l: Limits, id: nat, s: State)
    ensures MovesFrom(l, id, s, Freed(l, id, s))
  {
    hide OthersMove, Released, InAgeOrder, RecordsOnce, RotorOk, AllLateOk;
    if Sound(l, s) && id < |s.procs| {
      assert ProcOk(l, s, id);
      if s.lock.Some? && s.lock.value != id {
        HolderReleases(l, id, s, s.lock.value);
      } else {
        NobodyMoves(l, id, s);
      }
    }
  }

  // ---------- environments are all there is ----------

  /** Any course of an emit: `before[k]` is what the others make of `own[k]`, and `own[k + 1]` the step from there. */
  ghost predicate IsCourse(l: Limits, id: nat, own: seq<State>, before: seq<State>) {
    && |own| == |before| + 1 && id < |own[0].procs|
    && (forall k :: 0 <= k < |before| ==> CourseStep(l, id, own[k], before[k], own[k + 1]))
    && id < |own[|before|].procs| && own[|before|].procs[id].pc.Idle?
  }

  ghost predicate CourseStep(l: Limits, id: nat, s: State, t: State, u: State) {
    OthersMove(l, id, s, t) && GoesOn(s, t, id) && u == Step(l, t, id)
  }

  /** The environment of a course: it replays the course, and otherwise only frees the lock. */
  function Replay(l: Limits, id: nat, own: seq<State>, before: seq<State>, from: nat, now: nat, s: State): State
    requires |own| == |before| + 1
  {
    if from <= now < from + |before| && s == own[now - from] then before[now - from] else Freed(l, id, s)
  }

  lemma {:induction false} ReplayIsEnvironment(l: Limits, id: nat, own: seq<State>, before: seq<State>, from: nat)
    requires IsCourse(l, id, own, before)
    ensures IsEnvironment(l, id, (now: nat, s: State) => Replay(l, id, own, before, from, now, s))
  {
    hide OthersMove, Sound, Step, Freed;
    var others := (now: nat, s: State) => Replay(l, id, own, before, from, now, s);
    forall now: nat, s: State
      ensures MovesFrom(l, id, s, others(now, s))
    {
      LockCanBeFreed(l, id, s);
      if from <= now < from + |before| && s == own[now - from] {
        assert CourseStep(l, id, own[now - from], before[now - from], own[now - from + 1]);
      }
    }
  }

  lemma {:induction false} CoursePlays(l: Limits, id: nat, own: seq<State>, before: seq<State>, from: nat, k: nat,
                                       others: (nat, State) -> State)
    requires IsCourse(l, id, own, before) && k <= |before|
    requires forall j: nat :: j < |before| ==> others(from + j, own[j]) == before[j]
    ensures Finished(l, id, others, from + k, own[k]) == (from + |before|, own[|before|])
    decreases |before| - k
  {
    hide OthersMove, Step;
    if k < |before| {
      assert CourseStep(l, id, own[k], before[k], own[k + 1]);
      assert others(from + k, own[k]) == before[k];
      CoursePlays(l, id, own, before, from, k + 1, others);
      assert from + k + 1 == from + (k + 1);
    }
  }

  /** Every course that an emit can take among the other processes is its course in some environment. */
  lemma {:induction false} EveryCourseIsPlayed(l: Limits, id: nat, own: seq<State>, before: seq<State>, from: nat)
    returns (others: (nat, State) -> State)
    requires IsCourse(l, id, own, before)
    ensures IsEnvironment(l, id, others)
    ensures Finished(l, id, others, from, own[0]) == (from + |before|, own[|before|])
  {
    hide CourseStep, Finished, IsEnvironment;
    ReplayIsEnvironment(l, id, own, before, from);
    others := (now: nat, s: State) => Replay(l, id, own, before, from, now, s);
    CoursePlays(l, id, own, before, from, 0, others);
  }

  // ---------- the handler itself ----------

  /** What all processes share, with a clock that counts the moves of the others. */
  class World {
    const others: (nat, State) -> State
    var s: State
    var now: nat

    constructor (s: State, others: (nat, State) -> State)
      ensures this.s == s && this.now == 0 && this.others == others
    {
      this.s, this.now, this.others := s, 0, others;
    }
  }

  /** One process's handler. Before each of its steps the other processes move. */
  class Handler {
    const limits: Limits
    const world: World
    const id: nat
    var stream: Option<Stream>

    constructor (limits: Limits, world: World, id: nat)
      requires Sound(limits, world.s) && id < |world.s.procs| && IsEnvironment(limits, id, world.others)
      requires world.s.procs[id].pc.Idle? && world.s.procs[id].stream.None?
      ensures this.limits == limits && this.world == world && this.id == id && StandsAt(Idle)
    {
      this.limits, this.world, this.id, this.stream := limits, world, id, None;
    }

    ghost predicate Valid()
      reads this, world
    {
      && Sound(limits, world.s) && IsEnvironment(limits, id, world.others)
      && id < |world.s.procs| && world.s.procs[id].stream == stream
    }

    ghost predicate StandsAt(pc: Pc)
      reads this, world
    {
      Valid() && world.s.procs[id].pc == pc
    }

    /** How the emit under way ends. */
    ghost function Outcome(): (nat, State)
      reads this, world
    {
      Finished(limits, id, world.others, world.now, world.s)
    }

    method RotatedByAnotherProcess() returns (rotated: bool)
      ensures rotated == Stale(world.s.names, stream)
    {
      if stream.None? {
        return false;
      }
      if 0 !in world.s.names {
        return true;
      }
      return world.s.names[0] != stream.value.inode;
    }

    /** Gives the stream up: whatever other processes did, it is no stale one any more. */
    method DropStream()
      modifies this`stream
      ensures stream.None? && !Stale(world.s.names, stream)
    {
      stream := None;
    }

    /** Other processes move. They cannot change this one's stream or place. */
    method Yield()
      requires Valid() && !world.s.procs[id].pc.Idle?
      modifies world
      ensures Valid() && world.s == world.others(old(world.now), old(world.s)) && world.now == old(world.now) + 1
      ensures GoesOn(old(world.s), world.s, id) && Sound(limits, Step(limits, world.s, id))
      ensures old(Outcome()) == Finished(limits, id, world.others, world.now, Step(limits, world.s, id))
    {
      hide Sound, IsEnvironment, Finished, Step;
      OneRound(limits, id, world.others, world.now, world.s);
      world.s := world.others(world.now, world.s);
      world.now := world.now + 1;
    }

    /** Notes where this process stands, once it has done what the step from `before` does. */
    method Arrive(before: State)
      requires Enabled(before, id) && Sound(limits, Step(limits, before, id)) && IsEnvironment(limits, id, world.others)
      requires world.s.procs == before.procs && stream == Step(limits, before, id).procs[id].stream
      requires world.s.(procs := Step(limits, before, id).procs) == Step(limits, before, id)
      modifies world`s
      ensures world.s == Step(limits, before, id) && Valid()
    {
      hide Sound, IsEnvironment;
      world.s := WithProc(world.s, id, Step(limits, before, id).procs[id]);
    }

    /** The first look: a stale stream is given up. */
    method Check()
      requires StandsAt(Checking)
      modifies this`stream, world
      ensures StandsAt(Opening) && Outcome() == old(Outcome())
    {
      hide Sound, IsEnvironment, Finished;
      Yield();
      var before := world.s;
      var rotated := RotatedByAnotherProcess();
      if rotated {
        DropStream();
      }
      Arrive(before);
    }

    /** Opens the log for appending if there is no stream. */
    method Open(ghost pc: Pc)
      requires StandsAt(pc) && (pc.Opening? || (pc.Writing? && stream.None?))
      modifies this`stream, world
      ensures StandsAt(if pc.Opening? then Deciding else Writing) && Outcome() == old(Outcome()) && stream.Some?
    {
      hide Sound, IsEnvironment, Finished;
      Yield();
      var before := world.s;
      if stream.None? {
        if 0 !in world.s.names {
          world.s := world.s.(names := world.s.names[0 := |world.s.files|], files := world.s.files + [[]]);
          stream := Some(Stream(|world.s.files| - 1, 0));
        } else {
          stream := Some(Stream(world.s.names[0], Size(world.s.files[world.s.names[0]])));
        }
      }
      Arrive(before);
    }

    /** The base handler's rollover test. */
    method Decide() returns (rollover: bool)
      requires StandsAt(Deciding)
      modifies world
      ensures StandsAt(if rollover then Locking else Writing) && Outcome() == old(Outcome())
      ensures stream.Some? && rollover == ShouldRollover(limits, stream.value, world.s.procs[id].pending)
    {
      hide Sound, IsEnvironment, Finished;
      Yield();
      var before := world.s;
      var size := world.s.procs[id].pending.size;
      rollover := limits.maxBytes > 0 && stream.value.pos > 0 && stream.value.pos + size >= limits.maxBytes;
      Arrive(before);
    }

    /** Takes the lock, which the others let go of. */
    method Lock()
      requires StandsAt(Locking)
      modifies world
      ensures StandsAt(Rechecking) && Outcome() == old(Outcome()) && world.s.lock == Some(id)
    {
      hide Sound, IsEnvironment, Finished;
      Yield();
      var before := world.s;
      world.s := world.s.(lock := Some(id));
      Arrive(before);
    }

    /** The second look, under the lock: a stale stream is given up instead of rotated. */
    method Recheck() returns (rotated: bool)
      requires StandsAt(Rechecking)
      modifies this`stream, world
      ensures StandsAt(if rotated then Unlocking else Closing) && Outcome() == old(Outcome())
    {
      hide Sound, IsEnvironment, Finished;
      Yield();
      var before := world.s;
      rotated := RotatedByAnotherProcess();
      if rotated {
        DropStream();
      }
      Arrive(before);
    }

    method Close()
      requires StandsAt(Closing)
      modifies this`stream, world
      ensures StandsAt(if limits.backupCount > 0 then Removing(limits.backupCount - 1) else Unlocking)
      ensures Outcome() == old(Outcome())
    {
      hide Sound, IsEnvironment, Finished;
      Yield();
      var before := world.s;
      DropStream();
      Arrive(before);
    }

    /** Makes room for the i-th backup, or the log, one number up. */
    method RemoveAbove(i: nat)
      requires StandsAt(Removing(i))
      modifies world
      ensures StandsAt(Moving(i)) && Outcome() == old(Outcome())
    {
      hide Sound, IsEnvironment, Finished;
      Yield();
      var before := world.s;
      if i == 0 || i in world.s.names {
        if i + 1 in world.s.names {
          world.s := world.s.(names := world.s.names - {i + 1});
        }
      }
      assert world.s.names == RemoveBackup(before.names, i);
      Arrive(before);
    }

    /** Renames it. */
    method MoveUp(i: nat)
      requires StandsAt(Moving(i))
      modifies world
      ensures StandsAt(if i == 0 then Unlocking else Removing(i - 1)) && Outcome() == old(Outcome())
    {
      hide Sound, IsEnvironment, Finished;
      Yield();
      var before := world.s;
      if i in world.s.names {
        world.s := world.s.(names := (world.s.names - {i})[i + 1 := world.s.names[i]]);
      }
      Arrive(before);
    }

    /** The base handler's rotation, inside the lock: backups move up from the oldest on, then the log. */
    method RotateFiles()
      requires StandsAt(Closing)
      modifies this`stream, world
      ensures StandsAt(Unlocking) && Outcome() == old(Outcome())
    {
      hide Sound, IsEnvironment, Finished;
      Close();
      if limits.backupCount > 0 {
        var i := limits.backupCount - 1;
        while i > 0
          invariant 0 <= i
          invariant StandsAt(Removing(i)) && Outcome() == old(Outcome())
        {
          RemoveAbove(i);
          MoveUp(i);
          i := i - 1;
        }
        RemoveAbove(0);
        MoveUp(0);
      }
    }

    method Unlock()
      requires StandsAt(Unlocking)
      modifies world
      ensures StandsAt(Writing) && Outcome() == old(Outcome()) && world.s.lock.None?
    {
      hide Sound, IsEnvironment, Finished;
      Yield();
      var before := world.s;
      world.s := world.s.(lock := None);
      Arrive(before);
    }

    /** Rotates under the lock, unless another process did so meanwhile. */
    method DoRollover()
      requires StandsAt(Locking)
      modifies this`stream, world
      ensures StandsAt(Writing) && Outcome() == old(Outcome()) && world.s.lock.None?
    {
      hide Sound, IsEnvironment, Finished;
      Lock();
      var rotated := Recheck();
      if !rotated {
        RotateFiles();
      }
      Unlock();
    }

    /** Writes the record at the end of the held file. */
    method Write()
      requires StandsAt(Writing) && stream.Some?
      modifies this`stream, world
      ensures StandsAt(Idle) && Outcome() == old(Outcome())
    {
      hide Sound, IsEnvironment, Finished;
      Yield();
      var before := world.s;
      var inode := stream.value.inode;
      var file := world.s.files[inode] + [world.s.procs[id].pending];
      world.s := world.s.(files := world.s.files[inode := file]);
      stream := Some(Stream(inode, Size(file)));
      Arrive(before);
    }

    /** Numbers the record and starts to emit it. */
    method StartEmit(size: nat)
      requires StandsAt(Idle)
      modifies world
      ensures StandsAt(Checking) && world.s == Begin(old(world.s), id, Choice.Emit(size)) && world.now == old(world.now)
    {
      hide Sound, IsEnvironment;
      BeginKeepsSound(limits, world.s, id, Choice.Emit(size));
      var me := world.s.procs[id].(pc := Checking, pending := Record(world.s.next, size));
      world.s := WithProc(world.s.(next := world.s.next + 1), id, me);
    }

    /** Emits one record, with other processes at work before each step: the world comes out as the machine's
        steps and the others' moves make it, and the record ends up last in the file held. */
    method Emit(size: nat)
      requires StandsAt(Idle)
      modifies this`stream, world
      ensures StandsAt(Idle)
      ensures (world.now, world.s) == Emitted(limits, id, world.others, old(world.now), old(world.s), size)
      ensures Reaches(limits, old(world.s), world.s) && HoldsLast(world.s, id, Record(old(world.s.next), size))
    {
      hide Sound, IsEnvironment, Finished, Reaches, HoldsLast;
      EmittedWrites(limits, id, world.others, world.now, world.s, size);
      StartEmit(size);
      Check();
      Open(Opening);
      var rollover := Decide();
      if rollover {
        DoRollover();
      }
      if stream.None? {
        Open(Writing);
      }
      Write();
      StoppedHere(limits, id, world.others, world.now, world.s);
    }
  }

  /** Whatever the others do, an emit ends as a run of the machine, with the record last in the file held. */
  lemma {:induction false} EmittedWrites(l: Limits, id: nat, others: (nat, State) -> State, now: nat, s: State,
                                         size: nat)
    requires Sound(l, s) && id < |s.procs| && s.procs[id].pc.Idle? && IsEnvironment(l, id, others)
    ensures var t := Emitted(l, id, others, now, s, size).1;
            && Sound(l, t) && Reaches(l, s, t) && id < |t.procs| && t.procs[id].pc.Idle?
            && HoldsLast(t, id, Record(s.next, size))
  {
    hide Sound, IsEnvironment, Finished, Reaches, HoldsLast;
    var u := Begin(s, id, Emit(size));
    BeginKeepsSound(l, s, id, Emit(size));
    FinishedWrites(l, id, others, now, u);
    ReachesItself(l, s);
    assert NextOrCrash(l, s, u);
    ReachesNext(l, s, s, u);
    ReachesTransitive(l, s, u, Finished(l, id, others, now, u).1);
  }

  /** What the machine reaches from a run with deaths lengthens that run, so what holds of every run holds of the
      handler's. */
  lemma {:induction false} ReachedByRun(l: Limits, run: seq<State>, t: State) returns (longer: seq<State>)
    requires IsFaultyRun(l, run) && Reaches(l, run[|run| - 1], t)
    ensures IsFaultyRun(l, longer) && run <= longer && longer[|longer| - 1] == t
  {
    hide NextOrCrash, Start;
    var more :| more != [] && more[0] == run[|run| - 1] && more[|more| - 1] == t && AllNext(l, more);
    longer := run + more[1..];
    forall i | 0 <= i < |longer| - 1
      ensures NextOrCrash(l, longer[i], longer[i + 1])
    {
      if i >= |run| - 1 {
        var j := i - (|run| - 1);
        assert longer[i] == more[j] && longer[i + 1] == more[j + 1];
      }
    }
  }
}
