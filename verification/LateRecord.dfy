/** Three records of one handler, with another process rotating the log just before the second is written. */
module LateRecord {
  import opened Basics
  import opened LogRotation
  import opened LogHandler

  /** An emit of process `q` while nobody else moves, or what there is of it until it has to wait. */
  function Undisturbed(l: Limits, q: nat, s: State, size: nat): State {
    if q < |s.procs| && s.procs[q].pc.Idle? then Emitted(l, q, (now: nat, t: State) => t, 0, s, size).1 else s
  }

  lemma {:induction false} FinishedMoves(l: Limits, id: nat, q: nat, now: nat, s: State)
    requires q != id && q < |s.procs|
    ensures OthersMove(l, id, s, Finished(l, q, (now: nat, t: State) => t, now, s).1)
    decreases StepsLeft(l, s.procs[q])
  {
    hide OthersMove, ByOther, Step;
    if Enabled(s, q) {
      StepsDecrease(l, s, q);
      StepKeepsCount(l, s, q);
      FinishedMoves(l, id, q, now + 1, Step(l, s, q));
      OneOtherMoves(l, id, q, s);
      OthersMoveFirst(l, id, s, Step(l, s, q), Finished(l, q, (now: nat, t: State) => t, now, s).1);
    } else {
      NobodyMoves(l, id, s);
    }
  }

  lemma {:induction false} UndisturbedMoves(l: Limits, id: nat, q: nat, s: State, size: nat)
    requires q != id
    ensures OthersMove(l, id, s, Undisturbed(l, q, s, size))
  {
    hide OthersMove, Finished;
    NobodyMoves(l, id, s);
    if q < |s.procs| && s.procs[q].pc.Idle? {
      var t := Begin(s, q, Emit(size));
      assert NextBy(l, q, s, t);
      assert ByOther(l, id, s, t);
      FinishedMoves(l, id, q, 0, t);
      OthersMoveFirst(l, id, s, t, Undisturbed(l, q, s, size));
    }
  }

  /** Process 1 emits a record at one time, and at others only lets go of the lock. */
  function Interrupting(l: Limits, at: nat, size: nat, now: nat, s: State): State {
    if now == at && |s.procs| > 0 && !s.procs[0].pc.Locking? then Undisturbed(l, 1, s, size) else Freed(l, 0, s)
  }

  lemma {:induction false} InterruptingIsEnvironment(l: Limits, at: nat, size: nat)
    ensures IsEnvironment(l, 0, (now: nat, s: State) => Interrupting(l, at, size, now, s))
  {
    hide OthersMove, Sound, Undisturbed, Freed;
    var others := (now: nat, s: State) => Interrupting(l, at, size, now, s);
    forall now: nat, s: State
      ensures MovesFrom(l, 0, s, others(now, s))
    {
      LockCanBeFreed(l, 0, s);
      UndisturbedMoves(l, 0, 1, s, size);
    }
  }

  const SMALL := Limits(100, 1)

  function Resting(stream: Option<Stream>, pending: Record, chosen: nat, late: multiset<nat>): Process {
    Process(Idle, stream, pending, chosen, late)
  }

  const FRESH := Resting(None, Record(0, 0), 0, multiset{})

  /** A log of 60 bytes and two processes. */
  const FIRST := State(map[0 := 0], [[Record(0, 60)]], None, [FRESH, FRESH], 1)

  const SECOND := State(map[0 := 0], [[Record(0, 60), Record(1, 10)]], None,
                        [Resting(Some(Stream(0, 70)), Record(1, 10), 0, multiset{}), FRESH], 2)

  const ROTATOR := Resting(Some(Stream(1, 30)), Record(3, 30), 0, multiset{})

  /** The second record came late: process 1 rotated the log before it was written. */
  const THIRD := State(map[0 := 1, 1 := 0], [[Record(0, 60), Record(1, 10), Record(2, 20)], [Record(3, 30)]], None,
                       [Resting(Some(Stream(0, 90)), Record(2, 20), 0, multiset{0}), ROTATOR], 4)

  const FOURTH := State(map[0 := 1, 1 := 0],
                        [[Record(0, 60), Record(1, 10), Record(2, 20)], [Record(3, 30), Record(4, 10)]], None,
                        [Resting(Some(Stream(1, 40)), Record(4, 10), 1, multiset{0}), ROTATOR], 5)

  lemma {:induction false} FirstSound()
    ensures Sound(SMALL, FIRST)
  {
  }

  lemma {:induction false} Quiet(now: nat, s: State)
    requires now != 7 && s.lock.None?
    ensures Interrupting(SMALL, 7, 30, now, s) == s
  {
  }

  /** The moves of an environment that leaves the world alone. */
  lemma {:induction false} QuietRound(now: nat, s: State)
    requires now != 7 && s.lock.None? && 0 < |s.procs| && Enabled(s, 0)
    ensures var others := (now: nat, s: State) => Interrupting(SMALL, 7, 30, now, s);
            Finished(SMALL, 0, others, now, s) == Finished(SMALL, 0, others, now + 1, Step(SMALL, s, 0))
  {
    Quiet(now, s);
  }

  /** Process 0 somewhere in an emit, with nobody else at work. */
  function Within(s: State, pc: Pc, stream: Option<Stream>, pending: Record, chosen: nat): State
    requires 0 < |s.procs|
  {
    WithProc(s, 0, s.procs[0].(pc := pc, stream := stream, pending := pending, chosen := chosen))
  }

  /** A quiet emit below the limit up to its write: what is held when it starts is given up if it is stale. */
  lemma {:induction false} QuietUntilWrite(now: nat, s: State, size: nat)
    requires now + 2 < 7 || now > 7
    requires 0 < |s.procs| && s.procs[0].pc.Idle? && s.lock.None? && 0 in s.names && s.names[0] < |s.files|
    requires Size(s.files[s.names[0]]) + size < SMALL.maxBytes
    requires !Stale(s.names, s.procs[0].stream) && s.procs[0].stream.Some? ==>
               s.procs[0].stream.value.pos == Size(s.files[s.names[0]])
    ensures var others := (now: nat, s: State) => Interrupting(SMALL, 7, 30, now, s);
            var stream := Stream(s.names[0], Size(s.files[s.names[0]]));
            var t := Within(s, Writing, Some(stream), Record(s.next, size), s.names[0]).(next := s.next + 1);
            Emitted(SMALL, 0, others, now, s, size) == Finished(SMALL, 0, others, now + 3, t)
  {
    hide Finished, Size, Interrupting;
    var stream, record := Stream(s.names[0], Size(s.files[s.names[0]])), Record(s.next, size);
    var kept := if Stale(s.names, s.procs[0].stream) then None else s.procs[0].stream;
    var begun := s.(next := s.next + 1);
    var s0 := Begin(s, 0, Emit(size));
    var s1 := Within(begun, Opening, kept, record, s.procs[0].chosen);
    var s2 := Within(begun, Deciding, Some(stream), record, s.procs[0].chosen);
    var s3 := Within(begun, Writing, Some(stream), record, s.names[0]);
    assert Step(SMALL, s0, 0) == s1;
    assert Step(SMALL, s1, 0) == s2;
    assert Step(SMALL, s2, 0) == s3;
    QuietRound(now, s0);
    QuietRound(now + 1, s1);
    QuietRound(now + 2, s2);
  }

  lemma {:induction false} AloneRound(now: nat, s: State, t: State)
    requires 1 < |s.procs| && Enabled(s, 1) && t == Step(SMALL, s, 1)
    ensures var alone := (now: nat, t: State) => t;
            Finished(SMALL, 1, alone, now, s) == Finished(SMALL, 1, alone, now + 1, t)
  {
  }

  /** Process 1 on the way through its record of 30 bytes. */
  function Rotating(s: State, pc: Pc, stream: Option<Stream>): State
    requires |s.procs| == 2
  {
    WithProc(s, 1, Process(pc, stream, Record(3, 30), 0, multiset{}))
  }

  /** Process 1 finds the log due and rotates it, up to where it moves the log. */
  lemma {:induction false} RotationStarts(s: State, files: seq<seq<Record>>)
    requires s.files == files && |files| == 1 && Size(files[0]) == 70
    requires s.names == map[0 := 0] && s.lock.None? && |s.procs| == 2 && s.procs[1] == FRESH && s.next == 3
    ensures var alone := (now: nat, t: State) => t;
            Emitted(SMALL, 1, alone, 0, s, 30)
            == Finished(SMALL, 1, alone, 7, Rotating(s.(next := 4, lock := Some(1)), Moving(0), None))
  {
    hide Finished, Size;
    var held, begun := Some(Stream(0, 70)), s.(next := 4);
    var locked := begun.(lock := Some(1));
    AloneRound(0, Rotating(begun, Checking, None), Rotating(begun, Opening, None));
    AloneRound(1, Rotating(begun, Opening, None), Rotating(begun, Deciding, held));
    AloneRound(2, Rotating(begun, Deciding, held), Rotating(begun, Locking, held));
    AloneRound(3, Rotating(begun, Locking, held), Rotating(locked, Rechecking, held));
    AloneRound(4, Rotating(locked, Rechecking, held), Rotating(locked, Closing, held));
    AloneRound(5, Rotating(locked, Closing, held), Rotating(locked, Removing(0), None));
    assert RemoveBackup(s.names, 0) == s.names;
    AloneRound(6, Rotating(locked, Removing(0), None), Rotating(locked, Moving(0), None));
    assert Begin(s, 1, Emit(30)) == Rotating(begun, Checking, None);
  }

  /** It moves the log, opens a new one and writes its record there. */
  lemma {:induction false} RotationEnds(s: State, now: nat)
    requires |s.files| == 1 && s.names == map[0 := 0] && s.lock == Some(1) && |s.procs| == 2
    requires s.procs[1] == Process(Moving(0), None, Record(3, 30), 0, multiset{})
    ensures var alone := (now: nat, t: State) => t;
            var done := s.(names := map[0 := 1, 1 := 0], files := s.files + [[Record(3, 30)]], lock := None);
            Finished(SMALL, 1, alone, now, s).1 == WithProc(done, 1, ROTATOR)
  {
    hide Finished, Size;
    var moved := s.(names := map[1 := 0]);
    var freed := moved.(lock := None);
    var created := freed.(names := map[0 := 1, 1 := 0], files := s.files + [[]]);
    var done := created.(files := s.files + [[Record(3, 30)]]);
    var empty, held := Some(Stream(1, 0)), Some(Stream(1, 30));
    assert MoveBackup(s.names, 0) == map[1 := 0];
    SizeOfOne(Record(3, 30));
    AloneRound(now, s, Rotating(moved, Unlocking, None));
    AloneRound(now + 1, Rotating(moved, Unlocking, None), Rotating(freed, Writing, None));
    AloneRound(now + 2, Rotating(freed, Writing, None), Rotating(created, Writing, empty));
    assert [] + [Record(3, 30)] == [Record(3, 30)];
    assert created.files[1 := [Record(3, 30)]] == done.files;
    AloneRound(now + 3, Rotating(created, Writing, empty), WithProc(done, 1, ROTATOR));
    StoppedHere(SMALL, 1, (now: nat, t: State) => t, now + 4, WithProc(done, 1, ROTATOR));
  }

  lemma {:induction false} SizeOfOne(r: Record)
    ensures Size([r]) == r.size && Size([]) == 0
  {
    assert [r][..0] == [];
  }

  lemma {:induction false} SizeAppend(file: seq<Record>, r: Record)
    ensures Size(file + [r]) == Size(file) + r.size
  {
    assert (file + [r])[..|file|] == file;
  }

  lemma {:induction false} QuietWrite(now: nat, s: State)
    requires now != 7 && s.lock.None? && 0 < |s.procs| && Enabled(s, 0)
    requires s.procs[0].pc.Writing? && s.procs[0].stream.Some?
    ensures Finished(SMALL, 0, (now: nat, t: State) => Interrupting(SMALL, 7, 30, now, t), now, s)
            == (now + 1, Append(s, 0))
  {
    QuietRound(now, s);
  }

  lemma {:induction false} FirstEmit()
    ensures Emitted(SMALL, 0, (now: nat, s: State) => Interrupting(SMALL, 7, 30, now, s), 0, FIRST, 10) == (4, SECOND)
  {
    hide Finished, Size, Interrupting;
    var record := Record(1, 10);
    SizeOfOne(Record(0, 60));
    SizeAppend([Record(0, 60)], record);
    QuietUntilWrite(0, FIRST, 10);
    var t := Within(FIRST, Writing, Some(Stream(0, 60)), record, 0).(next := 2);
    QuietWrite(3, t);
    assert FIRST.files[0] + [record] == SECOND.files[0];
    assert Append(t, 0).files == SECOND.files && Append(t, 0).procs == SECOND.procs;
  }

  /** Between the second record's rollover test and its write, process 1 rotates the log. */
  lemma {:induction false} RotatedMeanwhile(t: State)
    requires t == Within(SECOND, Writing, Some(Stream(0, 70)), Record(2, 20), 0).(next := 3)
    ensures var rotated := t.(names := THIRD.names, files := [SECOND.files[0], [Record(3, 30)]], next := 4);
            Interrupting(SMALL, 7, 30, 7, t) == WithProc(rotated, 1, ROTATOR)
  {
    hide Finished, Size, Emitted;
    SizeOfOne(Record(0, 60));
    SizeAppend([Record(0, 60)], Record(1, 10));
    assert [Record(0, 60)] + [Record(1, 10)] == SECOND.files[0];
    RotationStarts(t, t.files);
    RotationEnds(Rotating(t.(next := 4, lock := Some(1)), Moving(0), None), 7);
    assert t.files + [[Record(3, 30)]] == [SECOND.files[0], [Record(3, 30)]];
  }

  lemma {:induction false} SecondEmit()
    ensures Emitted(SMALL, 0, (now: nat, s: State) => Interrupting(SMALL, 7, 30, now, s), 4, SECOND, 20) == (8, THIRD)
  {
    hide Size, Interrupting;
    var others := (now: nat, s: State) => Interrupting(SMALL, 7, 30, now, s);
    var log, record := SECOND.files[0], Record(2, 20);
    SizeOfOne(Record(0, 60));
    SizeAppend([Record(0, 60)], Record(1, 10));
    assert [Record(0, 60)] + [Record(1, 10)] == log;
    SizeAppend(log, record);
    QuietUntilWrite(4, SECOND, 20);
    var t := Within(SECOND, Writing, Some(Stream(0, 70)), record, 0).(next := 3);
    RotatedMeanwhile(t);
    var rotated := others(7, t);
    assert log + [record] == THIRD.files[0];
    assert rotated.files[0 := log + [record]] == THIRD.files;
    assert Append(rotated, 0).files == THIRD.files;
    assert multiset{} + multiset{0} == multiset{0};
    assert Append(rotated, 0).procs[0] == THIRD.procs[0];
    assert Append(rotated, 0).procs == THIRD.procs;
    assert Step(SMALL, rotated, 0) == THIRD;
    StoppedHere(SMALL, 0, others, 8, THIRD);
  }

  lemma {:induction false} ThirdEmit()
    ensures Emitted(SMALL, 0, (now: nat, s: State) => Interrupting(SMALL, 7, 30, now, s), 8, THIRD, 10) == (12, FOURTH)
  {
    hide Finished, Size, Interrupting;
    var record := Record(4, 10);
    SizeOfOne(Record(3, 30));
    SizeAppend([Record(3, 30)], record);
    QuietUntilWrite(8, THIRD, 10);
    var t := Within(THIRD, Writing, Some(Stream(1, 30)), record, 1).(next := 5);
    QuietWrite(11, t);
    assert THIRD.files[1] + [record] == FOURTH.files[1];
    assert Append(t, 0).files == FOURTH.files && Append(t, 0).procs == FOURTH.procs;
  }

  /** A handler that emits three records while another process rotates the log just before the second is written:
      the second ends up in the backup, behind the first, and the third in the new log. */
  method EmitAroundRotation() returns (world: World, handler: Handler)
    ensures fresh(world) && fresh(handler) && handler.world == world && handler.StandsAt(Idle)
    ensures world.s.names == map[0 := 1, 1 := 0]
    ensures world.s.files
            == [[Record(0, 60), Record(1, 10), Record(2, 20)], [Record(3, 30), Record(4, 10)]]
    ensures handler.stream == Some(Stream(1, 40)) && world.s.procs[0].late == multiset{0}
  {
    hide Emitted, Interrupting, IsEnvironment, Sound, Reaches, HoldsLast;
    FirstSound();
    InterruptingIsEnvironment(SMALL, 7, 30);
    world := new World(FIRST, (now: nat, s: State) => Interrupting(SMALL, 7, 30, now, s));
    handler := new Handler(SMALL, world, 0);
    FirstEmit();
    handler.Emit(10);
    SecondEmit();
    handler.Emit(20);
    assert Stale(world.s.names, handler.stream);
    ThirdEmit();
    handler.Emit(10);
  }
}
