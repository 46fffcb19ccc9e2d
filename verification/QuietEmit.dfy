/** An emit while nobody else moves: what becomes of the log, stated without the machine's steps. */
module QuietEmit {
  import opened Basics
  import opened LogRotation
  import opened LogHandler

  /** Where the position held is the size of the file, the log is to be rotated exactly when it is due. */
  lemma {:induction false} DecidesDue(l: Limits, s: State, p: nat)
    requires Enabled(s, p) && s.procs[p].pc.Deciding? && s.procs[p].stream.value.inode < |s.files|
    requires s.procs[p].stream.value.pos == Size(s.files[s.procs[p].stream.value.inode])
    ensures var pc := Step(l, s, p).procs[p].pc;
            && (pc.Locking? <==> Due(l, s.files, s.procs[p].stream.value.inode, s.procs[p].pending))
            && (!pc.Locking? ==> pc.Writing?)
  {
  }

  ghost predicate IsQuiet(others: (nat, State) -> State) {
    forall now: nat, s: State {:trigger others(now, s)} :: others(now, s) == s
  }

  lemma {:induction false} QuietRound(l: Limits, id: nat, others: (nat, State) -> State, now: nat, s: State)
    requires IsQuiet(others) && Enabled(s, id)
    ensures Finished(l, id, others, now, s) == Finished(l, id, others, now + 1, Step(l, s, id))
  {
    assert others(now, s) == s;
  }

  /** The process at some place in its emit. */
  function Standing(s: State, id: nat, pc: Pc, stream: Option<Stream>, record: Record, chosen: nat): State
    requires id < |s.procs|
  {
    WithProc(s, id, s.procs[id].(pc := pc, stream := stream, pending := record, chosen := chosen))
  }

  /** The world with a log in it: as it is, or with a new one. */
  function WithLog(s: State): State {
    if 0 in s.names then s else s.(names := s.names[0 := |s.files|], files := s.files + [[]])
  }

  /** The stream the process holds, if not stale, stands at the end of its file. */
  ghost predicate HoldsEnd(s: State, stream: Option<Stream>) {
    stream.Some? && !Stale(s.names, stream) ==>
      stream.value.inode < |s.files| && stream.value.pos == Size(s.files[stream.value.inode])
  }

  /** Up to the rollover test: the log is there, and its end is held. */
  lemma {:induction false} QuietOpening(l: Limits, id: nat, others: (nat, State) -> State, now: nat, s: State,
                                        size: nat)
    requires IsQuiet(others) && Sound(l, s) && id < |s.procs| && s.procs[id].pc.Idle?
    requires HoldsEnd(s, s.procs[id].stream)
    ensures var t := WithLog(s).(next := s.next + 1);
            var f := t.names[0];
            && f < |t.files|
            && Emitted(l, id, others, now, s, size)
               == Finished(l, id, others, now + 2,
                           Standing(t, id, Deciding, Some(Stream(f, Size(t.files[f]))), Record(s.next, size),
                                    s.procs[id].chosen))
  {
    hide Finished, ProcsOk, RecordsOnce, IsQuiet, RenamesWithin;
    var begun, chosen, record := s.(next := s.next + 1), s.procs[id].chosen, Record(s.next, size);
    var t := WithLog(s).(next := s.next + 1);
    var kept := if Stale(s.names, s.procs[id].stream) then None else s.procs[id].stream;
    var s0 := Begin(s, id, Emit(size));
    var s1 := Standing(begun, id, Opening, kept, record, chosen);
    var stream := Stream(t.names[0], Size(t.files[t.names[0]]));
    assert Step(l, s0, id) == s1;
    assert Step(l, s1, id) == Standing(t, id, Deciding, Some(stream), record, chosen);
    QuietRound(l, id, others, now, s0);
    QuietRound(l, id, others, now + 1, s1);
  }

  /** The write, with a stream held. */
  lemma {:induction false} QuietWrite(l: Limits, id: nat, others: (nat, State) -> State, now: nat, s: State)
    requires IsQuiet(others) && Enabled(s, id) && s.procs[id].pc.Writing? && s.procs[id].stream.Some?
    ensures Finished(l, id, others, now, s).1 == Append(s, id)
  {
    hide Finished, IsQuiet;
    QuietRound(l, id, others, now, s);
    StoppedHere(l, id, others, now + 1, Append(s, id));
  }

  /** Names up to i + 1 after the renaming from i down: each file has moved one number up, and only a last one that
      nothing moved onto stays where it was. Higher numbers are left alone. */
  ghost predicate IsShifted(names: map<nat, nat>, shifted: map<nat, nat>, i: nat) {
    && 0 !in shifted
    && (forall k: nat :: 1 <= k <= i + 1 ==> ShiftedAt(names, shifted, i, k))
    && (forall k: nat :: i + 1 < k ==> SameAt(names, shifted, k))
  }

  ghost predicate ShiftedAt(names: map<nat, nat>, shifted: map<nat, nat>, i: nat, k: nat)
    requires 1 <= k
  {
    if k - 1 in names then k in shifted && shifted[k] == names[k - 1]
    else if k == i + 1 then SameAt(names, shifted, k)
    else k !in shifted
  }

  ghost predicate SameAt(names: map<nat, nat>, shifted: map<nat, nat>, k: nat) {
    (k in shifted <==> k in names) && (k in names ==> shifted[k] == names[k])
  }

  /** One backup moved up, and then the rest. */
  lemma {:induction false} ShiftGoesOn(names: map<nat, nat>, shifted: map<nat, nat>, i: nat)
    requires 0 < i && IsShifted(MoveBackup(RemoveBackup(names, i), i), shifted, i - 1)
    ensures IsShifted(names, shifted, i)
  {
    var moved := MoveBackup(RemoveBackup(names, i), i);
    forall k: nat | 1 <= k <= i + 1
      ensures ShiftedAt(names, shifted, i, k)
    {
      assert k <= i ==> ShiftedAt(moved, shifted, i - 1, k);
      assert k == i + 1 ==> SameAt(moved, shifted, k);
    }
    forall k: nat | i + 1 < k
      ensures SameAt(names, shifted, k)
    {
      assert SameAt(moved, shifted, k);
    }
  }

  /** The renaming, from the i-th backup down: the log becomes backup 1, and no file changes. */
  lemma {:induction false} QuietRenaming(l: Limits, id: nat, others: (nat, State) -> State, now: nat, s: State, i: nat)
    returns (after: nat, names: map<nat, nat>)
    requires IsQuiet(others) && id < |s.procs| && s.procs[id].pc == Removing(i)
    requires 0 in s.names && s.names[0] < |s.files|
    ensures var me := s.procs[id].(pc := Unlocking);
            Finished(l, id, others, now, s) == Finished(l, id, others, after, WithProc(s.(names := names), id, me))
    ensures IsShifted(s.names, names, i)
    decreases i
  {
    hide Finished, IsQuiet;
    var removed := RemoveBackup(s.names, i);
    var moved := MoveBackup(removed, i);
    var me := s.procs[id];
    var s1 := WithProc(s.(names := removed), id, me.(pc := Moving(i)));
    var s2 := WithProc(s.(names := moved), id, me.(pc := if i == 0 then Unlocking else Removing(i - 1)));
    assert Step(l, s, id) == s1;
    assert Step(l, s1, id) == s2;
    QuietRound(l, id, others, now, s);
    QuietRound(l, id, others, now + 1, s1);
    if i == 0 {
      after, names := now + 2, moved;
    } else {
      after, names := QuietRenaming(l, id, others, now + 2, s2, i - 1);
      ShiftGoesOn(s.names, names, i);
      assert WithProc(s2.(names := names), id, s2.procs[id].(pc := Unlocking))
          == WithProc(s.(names := names), id, me.(pc := Unlocking));
    }
  }

  /** From the lock to the first backup, for the log held and due. */
  lemma {:induction false} QuietRotation(l: Limits, id: nat, others: (nat, State) -> State, now: nat, s: State)
    returns (after: nat, names: map<nat, nat>)
    requires IsQuiet(others) && id < |s.procs| && s.procs[id].pc.Locking? && s.lock.None? && l.backupCount > 0
    requires 0 in s.names && s.names[0] < |s.files| && s.procs[id].stream.Some? && !Stale(s.names, s.procs[id].stream)
    ensures var me := s.procs[id].(pc := Writing, stream := None);
            Finished(l, id, others, now, s) == Finished(l, id, others, after, WithProc(s.(names := names), id, me))
    ensures IsShifted(s.names, names, l.backupCount - 1)
  {
    hide Finished, IsQuiet, IsShifted;
    var me, locked := s.procs[id], s.(lock := Some(id));
    var s1 := WithProc(locked, id, me.(pc := Rechecking));
    var s2 := WithProc(locked, id, me.(pc := Closing));
    var s3 := WithProc(locked, id, me.(pc := Removing(l.backupCount - 1), stream := None));
    assert Step(l, s, id) == s1;
    assert Step(l, s1, id) == s2;
    assert Step(l, s2, id) == s3;
    QuietRound(l, id, others, now, s);
    QuietRound(l, id, others, now + 1, s1);
    QuietRound(l, id, others, now + 2, s2);
    after, names := QuietRenaming(l, id, others, now + 3, s3, l.backupCount - 1);
    LogMoved(s.names, names, l.backupCount - 1);
    var s4 := WithProc(s3.(names := names), id, s3.procs[id].(pc := Unlocking));
    QuietRound(l, id, others, after, s4);
    after := after + 1;
    assert Step(l, s4, id) == WithProc(s.(names := names), id, me.(pc := Writing, stream := None));
  }

  /** Opening the log again after a rotation, and the write: the record is alone in a new log. */
  lemma {:induction false} QuietNewLog(l: Limits, id: nat, others: (nat, State) -> State, now: nat, s: State)
    requires IsQuiet(others) && id < |s.procs| && s.procs[id].pc.Writing? && s.procs[id].stream.None?
    requires 0 !in s.names
    ensures var t := Finished(l, id, others, now, s).1;
            && t.files == s.files + [[s.procs[id].pending]] && t.names == s.names[0 := |s.files|]
            && t.lock == s.lock && t.next == s.next
  {
    hide Finished, IsQuiet, Size;
    var t := WithLog(s);
    var s1 := WithProc(t, id, s.procs[id].(stream := Some(Stream(|s.files|, 0))));
    assert Step(l, s, id) == s1;
    QuietRound(l, id, others, now, s);
    QuietWrite(l, id, others, now + 1, s1);
    assert [] + [s.procs[id].pending] == [s.procs[id].pending];
    assert s1.files[|s.files| := [s.procs[id].pending]] == s.files + [[s.procs[id].pending]];
  }

  /** Without backups the log is only opened again. */
  lemma {:induction false} QuietReopening(l: Limits, id: nat, others: (nat, State) -> State, now: nat, s: State)
    requires IsQuiet(others) && id < |s.procs| && s.procs[id].pc.Locking? && s.lock.None? && l.backupCount == 0
    requires 0 in s.names && s.names[0] < |s.files| && s.procs[id].stream.Some? && !Stale(s.names, s.procs[id].stream)
    ensures var t := Finished(l, id, others, now, s).1;
            && t.files == s.files[s.names[0] := s.files[s.names[0]] + [s.procs[id].pending]]
            && t.names == s.names && t.lock.None? && t.next == s.next
  {
    hide Finished, IsQuiet, Size;
    var me, locked := s.procs[id], s.(lock := Some(id));
    var s1 := WithProc(locked, id, me.(pc := Rechecking));
    var s2 := WithProc(locked, id, me.(pc := Closing));
    var s3 := WithProc(locked, id, me.(pc := Unlocking, stream := None));
    var s4 := WithProc(s, id, me.(pc := Writing, stream := None));
    var s5 := WithProc(s, id, me.(pc := Writing, stream := Some(Stream(s.names[0], Size(s.files[s.names[0]])))));
    assert Step(l, s, id) == s1;
    assert Step(l, s1, id) == s2;
    assert Step(l, s2, id) == s3;
    assert Step(l, s3, id) == s4;
    assert Step(l, s4, id) == s5;
    QuietRound(l, id, others, now, s);
    QuietRound(l, id, others, now + 1, s1);
    QuietRound(l, id, others, now + 2, s2);
    QuietRound(l, id, others, now + 3, s3);
    QuietRound(l, id, others, now + 4, s4);
    QuietWrite(l, id, others, now + 5, s5);
  }

  lemma {:induction false} LogMoved(names: map<nat, nat>, shifted: map<nat, nat>, i: nat)
    requires IsShifted(names, shifted, i) && 0 in names
    ensures 0 !in shifted && 1 in shifted && shifted[1] == names[0]
  {
    assert ShiftedAt(names, shifted, i, 1);
  }

  /** While nobody else moves, an emit to a due log, with backups to be kept, leaves the old log as backup 1, the
      other backups one number up, and the record alone in a new log. Any other record goes to the end of the log,
      which is created when missing. */
  lemma {:induction false} UndisturbedEmit(l: Limits, id: nat, others: (nat, State) -> State, now: nat, s: State,
                                           size: nat)
    requires IsQuiet(others) && Sound(l, s) && id < |s.procs| && s.procs[id].pc.Idle? && s.lock.None?
    requires HoldsEnd(s, s.procs[id].stream)
    ensures var t, record := Emitted(l, id, others, now, s, size).1, Record(s.next, size);
            && t.next == s.next + 1 && t.lock.None?
            && if 0 !in s.names then
                 t.names == s.names[0 := |s.files|] && t.files == s.files + [[record]]
               else if l.backupCount > 0 && Due(l, s.files, s.names[0], record) then
                 && t.files == s.files + [[record]]
                 && 0 in t.names && t.names[0] == |s.files| && 1 in t.names && t.names[1] == s.names[0]
                 && IsShifted(s.names, t.names - {0}, l.backupCount - 1)
               else
                 && t.names == s.names && s.names[0] < |s.files|
                 && t.files == s.files[s.names[0] := s.files[s.names[0]] + [record]]
  {
    hide Finished, IsQuiet, Size, Emitted, Sound, IsShifted;
    BaseIsFile(l, s);
    QuietOpening(l, id, others, now, s, size);
    var t, record := WithLog(s).(next := s.next + 1), Record(s.next, size);
    var f := t.names[0];
    var stream := Some(Stream(f, Size(t.files[f])));
    var deciding := Standing(t, id, Deciding, stream, record, s.procs[id].chosen);
    DecidesDue(l, deciding, id);
    QuietRound(l, id, others, now + 2, deciding);
    EmptySize();
    if Due(l, t.files, f, record) {
      var locking := Standing(t, id, Locking, stream, record, f);
      assert Step(l, deciding, id) == locking;
      if l.backupCount > 0 {
        var after, names := QuietRotation(l, id, others, now + 3, locking);
        LogMoved(s.names, names, l.backupCount - 1);
        assert names[0 := |s.files|] - {0} == names;
        QuietNewLog(l, id, others, after,
                    WithProc(locking.(names := names), id, locking.procs[id].(pc := Writing, stream := None)));
      } else {
        QuietReopening(l, id, others, now + 3, locking);
      }
    } else {
      var writing := Standing(t, id, Writing, stream, record, f);
      assert Step(l, deciding, id) == writing;
      QuietWrite(l, id, others, now + 3, writing);
      if 0 !in s.names {
        assert [] + [record] == [record];
        assert t.files[|s.files| := [record]] == s.files + [[record]];
      }
    }
  }

  lemma {:induction false} EmptySize()
    ensures Size([]) == 0
  {
  }
}
