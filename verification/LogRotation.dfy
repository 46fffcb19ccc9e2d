/** Several processes writing and rotating one log file: the handler's file operations as atomic steps over
    a shared directory, in any interleaving. */
module LogRotation {
  import opened Basics

  /** The handler's limits; neither rotates when zero. */
  datatype Limits = Limits(maxBytes: nat, backupCount: nat)

  /** A formatted record, numbered over the whole run. */
  datatype Record = Record(uid: nat, size: nat)

  /** A file held open for appending, with the position its holder sees. */
  datatype Stream = Stream(inode: nat, pos: nat)

  /** Where a process stands inside `emit`. */
  datatype Pc =
    | Idle | Checking | Opening | Deciding | Locking | Rechecking | Closing
    | Removing(i: nat) | Moving(i: nat) | Unlocking | Writing

  /** A process: its stream, the record it is emitting, the file it chose to rotate, and the files it wrote to
      after they had been rotated away. */
  datatype Process = Process(pc: Pc, stream: Option<Stream>, pending: Record, chosen: nat, late: multiset<nat>)

  /** The directory maps 0 to the log file and k to its k-th backup; inodes are numbered as they are created. */
  datatype State = State(names: map<nat, nat>, files: seq<seq<Record>>, lock: Option<nat>, procs: seq<Process>,
                         next: nat)

  function Size(file: seq<Record>): nat {
    if file == [] then 0 else Size(file[..|file| - 1]) + file[|file| - 1].size
  }

  // ---------- the steps ----------

  /** The stream no longer is the file at the log's name. */
  predicate Stale(names: map<nat, nat>, stream: Option<Stream>) {
    stream.Some? && (0 !in names || names[0] != stream.value.inode)
  }

  /** Opening the log for appending creates it when it is missing. */
  function OpenBase(s: State): (State, Stream)
    requires 0 in s.names ==> s.names[0] < |s.files|
  {
    if 0 in s.names then (s, Stream(s.names[0], Size(s.files[s.names[0]])))
    else (s.(names := s.names[0 := |s.files|], files := s.files + [[]]), Stream(|s.files|, 0))
  }

  function WithProc(s: State, p: nat, pr: Process): State
    requires p < |s.procs|
  {
    s.(procs := s.procs[p := pr])
  }

  /** The rollover test of the base handler: never for an empty file. */
  predicate ShouldRollover(l: Limits, stream: Stream, record: Record) {
    l.maxBytes > 0 && stream.pos > 0 && stream.pos + record.size >= l.maxBytes
  }

  function RemoveBackup(names: map<nat, nat>, i: nat): map<nat, nat> {
    if i == 0 || i in names then names - {i + 1} else names
  }

  function MoveBackup(names: map<nat, nat>, i: nat): map<nat, nat> {
    if i in names then (names - {i})[i + 1 := names[i]] else names
  }

  function Append(s: State, p: nat): State
    requires p < |s.procs| && s.procs[p].stream.Some? && s.procs[p].stream.value.inode < |s.files|
  {
    var pr := s.procs[p];
    var inode := pr.stream.value.inode;
    var file := s.files[inode] + [pr.pending];
    var late := if Stale(s.names, pr.stream) then pr.late + multiset{inode} else pr.late;
    var written := pr.(pc := Idle, stream := Some(Stream(inode, Size(file))), late := late);
    WithProc(s.(files := s.files[inode := file]), p, written)
  }

  /** An idle process starts to emit, or ends and drops its stream. */
  datatype Choice = Emit(size: nat) | Stop

  function Begin(s: State, p: nat, choice: Choice): State
    requires p < |s.procs|
  {
    match choice
    case Stop => WithProc(s, p, s.procs[p].(stream := None))
    case Emit(size) => WithProc(s.(next := s.next + 1), p, s.procs[p].(pc := Checking, pending := Record(s.next, size)))
  }

  /** A step needs an open stream where the code has one, and a free lock to take it. */
  predicate Enabled(s: State, p: nat) {
    && p < |s.procs|
    && (0 in s.names ==> s.names[0] < |s.files|)
    && var pr := s.procs[p];
       match pr.pc
       case Idle => false
       case Deciding => pr.stream.Some?
       case Locking => s.lock.None?
       case Writing => pr.stream.Some? ==> pr.stream.value.inode < |s.files|
       case _ => true
  }

  function Step(l: Limits, s: State, p: nat): State
    requires Enabled(s, p)
  {
    var pr := s.procs[p];
    match pr.pc
    case Checking => WithProc(s, p, pr.(pc := Opening, stream := if Stale(s.names, pr.stream) then None else pr.stream))
    case Opening =>
      if pr.stream.Some? then WithProc(s, p, pr.(pc := Deciding))
      else var (t, stream) := OpenBase(s); WithProc(t, p, pr.(pc := Deciding, stream := Some(stream)))
    case Deciding =>
      WithProc(s, p, pr.(pc := if ShouldRollover(l, pr.stream.value, pr.pending) then Locking else Writing,
                         chosen := pr.stream.value.inode))
    case Locking => WithProc(s.(lock := Some(p)), p, pr.(pc := Rechecking))
    case Rechecking =>
      if Stale(s.names, pr.stream) then WithProc(s, p, pr.(pc := Unlocking, stream := None))
      else WithProc(s, p, pr.(pc := Closing))
    case Closing =>
      WithProc(s, p, pr.(pc := if l.backupCount > 0 then Removing(l.backupCount - 1) else Unlocking, stream := None))
    case Removing(i) => WithProc(s.(names := RemoveBackup(s.names, i)), p, pr.(pc := Moving(i)))
    case Moving(i) =>
      WithProc(s.(names := MoveBackup(s.names, i)), p, pr.(pc := if i == 0 then Unlocking else Removing(i - 1)))
    case Unlocking => WithProc(s.(lock := None), p, pr.(pc := Writing))
    case Writing =>
      if pr.stream.Some? then Append(s, p)
      else var (t, stream) := OpenBase(s); WithProc(t, p, pr.(stream := Some(stream)))
    case Idle => s
  }

  ghost predicate Next(l: Limits, s: State, t: State) {
    || (exists p: nat, choice :: p < |s.procs| && s.procs[p].pc.Idle? && t == Begin(s, p, choice))
    || (exists p: nat :: Enabled(s, p) && t == Step(l, s, p))
  }

  // ---------- the directory ----------

  /** The lock holder is renaming backups. */
  ghost predicate Renaming(s: State) {
    s.lock.Some? && s.lock.value < |s.procs| && (s.procs[s.lock.value].pc.Removing? || s.procs[s.lock.value].pc.Moving?)
  }

  ghost function RenameAt(s: State): nat
    requires Renaming(s)
  {
    s.procs[s.lock.value].pc.i
  }

  /** Outside renaming, the names stand for the newest files in order of age, the log for the newest one of
      all unless it has just been renamed. */
  ghost predicate SettledName(l: Limits, s: State, k: nat) {
    var n := |s.files|;
    if 0 in s.names then
      (k in s.names <==> k <= l.backupCount && k < n) && (k in s.names ==> s.names[k] == n - 1 - k)
    else
      (k in s.names <==> 1 <= k <= l.backupCount && k <= n) && (k in s.names ==> s.names[k] == n - k)
  }

  /** While backup `i` is about to move, later ones have moved and earlier ones have not. */
  ghost predicate RenamingName(l: Limits, s: State, i: nat, removing: bool, k: nat) {
    var n := |s.files|;
    && (k in s.names <==> || (k <= i && k < n) || (i + 2 <= k <= l.backupCount && k <= n)
                          || (removing && k == i + 1 == l.backupCount && k < n))
    && (k in s.names ==> s.names[k] == if k <= i + 1 then n - 1 - k else n - k)
  }

  ghost predicate AllSettled(l: Limits, s: State) {
    forall k: nat :: SettledName(l, s, k)
  }

  ghost predicate AllRenaming(l: Limits, s: State, i: nat, removing: bool) {
    i < l.backupCount && 0 < |s.files| && forall k: nat :: RenamingName(l, s, i, removing, k)
  }

  ghost predicate DirectoryOk(l: Limits, s: State) {
    if Renaming(s) then AllRenaming(l, s, RenameAt(s), s.procs[s.lock.value].pc.Removing?) else AllSettled(l, s)
  }

  // ---------- the processes ----------

  /** Inside the lock. */
  predicate Critical(pc: Pc) {
    pc.Rechecking? || pc.Closing? || pc.Removing? || pc.Moving? || pc.Unlocking?
  }

  /** Appending the record to the file reaches the limit, and the file is not empty. */
  ghost predicate Due(l: Limits, files: seq<seq<Record>>, inode: nat, record: Record) {
    inode < |files| && l.maxBytes > 0 && Size(files[inode]) > 0 && Size(files[inode]) + record.size >= l.maxBytes
  }

  predicate IsBase(names: map<nat, nat>, inode: nat) {
    0 in names && names[0] == inode
  }

  /** A process from its choice to the rename holds on to a file that is due, and under the lock that file
      still is the log. */
  ghost predicate RotorOk(l: Limits, s: State, pr: Process) {
    && (pr.stream.Some? ==>
          && pr.stream.value.inode < |s.files|
          && pr.stream.value.pos <= Size(s.files[pr.stream.value.inode]))
    && (pr.pc.Deciding? ==> pr.stream.Some?)
    && (pr.pc.Locking? || pr.pc.Rechecking? || pr.pc.Closing? ==> pr.stream.Some? && pr.stream.value.inode == pr.chosen)
    && (pr.pc.Locking? || (Critical(pr.pc) && !pr.pc.Unlocking?) ==> Due(l, s.files, pr.chosen, pr.pending))
    && (pr.pc.Closing? || pr.pc.Removing? || pr.pc.Moving? ==> IsBase(s.names, pr.chosen))
  }

  /** A file the process wrote to after it had been rotated away was written to once, never is the log
      again, and is given up before the next record. */
  ghost predicate LateOk(s: State, pr: Process, f: nat) {
    f in pr.late ==>
      && pr.late[f] == 1 && f < |s.files| && !IsBase(s.names, f)
      && (pr.stream.Some? && pr.stream.value.inode == f ==> pr.pc.Idle? || pr.pc.Checking?)
  }

  ghost predicate AllLateOk(s: State, pr: Process) {
    forall f: nat :: LateOk(s, pr, f)
  }

  ghost predicate ProcOk(l: Limits, s: State, q: nat)
    requires q < |s.procs|
  {
    && RotorOk(l, s, s.procs[q])
    && (Critical(s.procs[q].pc) <==> s.lock == Some(q))
    && AllLateOk(s, s.procs[q])
  }

  ghost predicate ProcsOk(l: Limits, s: State) {
    && (s.lock.Some? ==> s.lock.value < |s.procs|)
    && forall q: nat :: q < |s.procs| ==> ProcOk(l, s, q)
  }

  ghost predicate SystemOk(l: Limits, s: State) {
    DirectoryOk(l, s) && ProcsOk(l, s)
  }

  // ---------- what one step may change ----------

  /** Files only grow at their end. */
  ghost predicate FilesGrow(files: seq<seq<Record>>, later: seq<seq<Record>>) {
    |files| <= |later| && forall f :: 0 <= f < |files| ==> files[f] <= later[f]
  }

  lemma {:induction false} SizeGrows(file: seq<Record>, later: seq<Record>)
    requires file <= later
    ensures Size(file) <= Size(later)
    decreases |later|
  {
    if file != later {
      SizeGrows(file, later[..|later| - 1]);
    }
  }

  /** A new log is a new file. */
  ghost predicate BaseFresh(s: State, t: State) {
    forall f: nat :: f < |s.files| && IsBase(t.names, f) ==> IsBase(s.names, f)
  }

  lemma {:induction false} StepGrows(l: Limits, s: State, p: nat)
    requires Enabled(s, p)
    ensures FilesGrow(s.files, Step(l, s, p).files)
  {
  }

  lemma {:induction false} StepBaseFresh(l: Limits, s: State, p: nat)
    requires Enabled(s, p)
    ensures BaseFresh(s, Step(l, s, p))
  {
  }

  /** Only moving the log itself takes its name away. */
  lemma {:induction false} StepKeepsBase(l: Limits, s: State, p: nat, f: nat)
    requires Enabled(s, p) && IsBase(s.names, f) && s.procs[p].pc != Moving(0)
    ensures IsBase(Step(l, s, p).names, f)
  {
  }

  lemma {:induction false} RotorFrame(l: Limits, s: State, t: State, pr: Process)
    requires RotorOk(l, s, pr) && FilesGrow(s.files, t.files)
    requires pr.pc.Closing? || pr.pc.Removing? || pr.pc.Moving? ==> IsBase(t.names, pr.chosen)
    ensures RotorOk(l, t, pr)
  {
    if pr.stream.Some? {
      SizeGrows(s.files[pr.stream.value.inode], t.files[pr.stream.value.inode]);
    }
    if pr.chosen < |s.files| {
      SizeGrows(s.files[pr.chosen], t.files[pr.chosen]);
    }
  }

  lemma {:induction false} LateFrame(s: State, t: State, pr: Process)
    requires AllLateOk(s, pr) && FilesGrow(s.files, t.files) && BaseFresh(s, t)
    ensures AllLateOk(t, pr)
  {
    forall f: nat
      ensures LateOk(t, pr, f)
    {
      var known := LateOk(s, pr, f);
    }
  }

  /** The other processes are not disturbed. */
  lemma {:induction false} OtherKept(l: Limits, s: State, p: nat, q: nat)
    requires ProcsOk(l, s) && Enabled(s, p) && q < |s.procs| && q != p
    ensures ProcOk(l, Step(l, s, p), q)
  {
    var t := Step(l, s, p);
    StepGrows(l, s, p);
    StepBaseFresh(l, s, p);
    assert ProcOk(l, s, q) && ProcOk(l, s, p);
    if Critical(s.procs[q].pc) && IsBase(s.names, s.procs[q].chosen) {
      StepKeepsBase(l, s, p, s.procs[q].chosen);
    }
    RotorFrame(l, s, t, s.procs[q]);
    LateFrame(s, t, s.procs[q]);
  }

  lemma {:induction false} AppendRotor(l: Limits, s: State, p: nat)
    requires ProcsOk(l, s) && Enabled(s, p) && s.procs[p].pc.Writing? && s.procs[p].stream.Some?
    ensures RotorOk(l, Append(s, p), Append(s, p).procs[p])
  {
  }

  lemma {:induction false} OpenRotor(l: Limits, s: State, p: nat)
    requires ProcsOk(l, s) && Enabled(s, p) && s.procs[p].stream.None?
             && (s.procs[p].pc.Opening? || s.procs[p].pc.Writing?)
    ensures RotorOk(l, Step(l, s, p), Step(l, s, p).procs[p])
  {
  }

  lemma {:induction false} OwnRotorKept(l: Limits, s: State, p: nat)
    requires ProcsOk(l, s) && Enabled(s, p)
    ensures RotorOk(l, Step(l, s, p), Step(l, s, p).procs[p])
  {
    hide AllLateOk, Size;
    assert ProcOk(l, s, p);
    var pr := s.procs[p];
    if pr.pc.Writing? && pr.stream.Some? {
      AppendRotor(l, s, p);
    } else if pr.stream.None? && (pr.pc.Opening? || pr.pc.Writing?) {
      OpenRotor(l, s, p);
    }
  }

  lemma {:induction false} OwnLateKept(l: Limits, s: State, p: nat)
    requires ProcsOk(l, s) && Enabled(s, p)
    ensures AllLateOk(Step(l, s, p), Step(l, s, p).procs[p])
  {
    var t, pr := Step(l, s, p), s.procs[p];
    StepGrows(l, s, p);
    StepBaseFresh(l, s, p);
    assert ProcOk(l, s, p);
    forall f: nat
      ensures LateOk(t, t.procs[p], f)
    {
      assert LateOk(s, pr, f);
    }
  }

  lemma {:induction false} OwnLockKept(l: Limits, s: State, p: nat)
    requires ProcsOk(l, s) && Enabled(s, p)
    ensures Critical(Step(l, s, p).procs[p].pc) <==> Step(l, s, p).lock == Some(p)
  {
    assert ProcOk(l, s, p);
  }

  // ---------- the directory stays in order ----------

  lemma {:induction false} SettledFrame(l: Limits, s: State, t: State)
    requires AllSettled(l, s) && t.names == s.names && |t.files| == |s.files|
    ensures AllSettled(l, t)
  {
    forall k: nat
      ensures SettledName(l, t, k)
    {
      var known := SettledName(l, s, k);
    }
  }

  /** Creating the log when it is missing. */
  lemma {:induction false} CreateKeeps(l: Limits, s: State, t: State)
    requires AllSettled(l, s) && 0 !in s.names
    requires t.names == s.names[0 := |s.files|] && |t.files| == |s.files| + 1
    ensures AllSettled(l, t)
  {
    forall k: nat
      ensures SettledName(l, t, k)
    {
      var known := SettledName(l, s, k);
    }
  }

  lemma {:induction false} RenamingStarts(l: Limits, s: State)
    requires AllSettled(l, s) && 0 in s.names && l.backupCount > 0
    ensures AllRenaming(l, s, l.backupCount - 1, true)
  {
    var known, i := SettledName(l, s, 0), l.backupCount - 1;
    forall k: nat
      ensures RenamingName(l, s, i, true, k)
    {
      var known := SettledName(l, s, k);
    }
  }

  lemma {:induction false} RemoveKeeps(l: Limits, s: State, t: State, i: nat)
    requires AllRenaming(l, s, i, true)
    requires t.names == RemoveBackup(s.names, i) && |t.files| == |s.files|
    ensures AllRenaming(l, t, i, false)
  {
    var here, above := RenamingName(l, s, i, true, i), RenamingName(l, s, i, true, i + 1);
    forall k: nat
      ensures RenamingName(l, t, i, false, k)
    {
      var known := RenamingName(l, s, i, true, k);
    }
  }

  lemma {:induction false} MoveKeeps(l: Limits, s: State, t: State, i: nat)
    requires AllRenaming(l, s, i, false) && 0 < i
    requires t.names == MoveBackup(s.names, i) && |t.files| == |s.files|
    ensures AllRenaming(l, t, i - 1, true)
  {
    var here, j := RenamingName(l, s, i, false, i), i - 1;
    forall k: nat
      ensures RenamingName(l, t, j, true, k)
    {
      var known := RenamingName(l, s, i, false, k);
    }
  }

  lemma {:induction false} MoveEnds(l: Limits, s: State, t: State)
    requires AllRenaming(l, s, 0, false)
    requires t.names == MoveBackup(s.names, 0) && |t.files| == |s.files|
    ensures AllSettled(l, t)
  {
    var here := RenamingName(l, s, 0, false, 0);
    forall k: nat
      ensures SettledName(l, t, k)
    {
      var known := RenamingName(l, s, 0, false, k);
    }
  }

  /** What a step does to the names and to the number of files. */
  lemma {:induction false} StepNames(l: Limits, s: State, p: nat)
    requires Enabled(s, p)
    ensures var t, pc := Step(l, s, p), s.procs[p].pc;
            && (pc.Removing? ==> t.names == RemoveBackup(s.names, pc.i) && |t.files| == |s.files|)
            && (pc.Moving? ==> t.names == MoveBackup(s.names, pc.i) && |t.files| == |s.files|)
            && (!pc.Removing? && !pc.Moving? ==>
                  || (t.names == s.names && |t.files| == |s.files|)
                  || (0 !in s.names && t.names == s.names[0 := |s.files|] && |t.files| == |s.files| + 1))
  {
  }

  lemma {:induction false} RenamingFrame(l: Limits, s: State, t: State, i: nat, removing: bool)
    requires AllRenaming(l, s, i, removing) && t.names == s.names && |t.files| == |s.files|
    ensures AllRenaming(l, t, i, removing)
  {
    forall k: nat
      ensures RenamingName(l, t, i, removing, k)
    {
      var known := RenamingName(l, s, i, removing, k);
    }
  }

  /** A step of a process that is not renaming leaves a directory that is not being renamed settled. */
  lemma {:induction false} QuietStepKeeps(l: Limits, s: State, p: nat)
    requires Enabled(s, p) && AllSettled(l, s) && !s.procs[p].pc.Removing? && !s.procs[p].pc.Moving?
    ensures AllSettled(l, Step(l, s, p))
  {
    var t := Step(l, s, p);
    StepNames(l, s, p);
    if t.names == s.names && |t.files| == |s.files| {
      SettledFrame(l, s, t);
    } else {
      CreateKeeps(l, s, t);
    }
  }

  lemma {:induction false} DirectoryKept(l: Limits, s: State, p: nat)
    requires SystemOk(l, s) && Enabled(s, p)
    ensures DirectoryOk(l, Step(l, s, p))
  {
    hide RotorOk, AllLateOk, AllSettled, AllRenaming, RemoveBackup, MoveBackup;
    var t, pc := Step(l, s, p), s.procs[p].pc;
    assert ProcOk(l, s, p);
    StepNames(l, s, p);
    if pc.Removing? {
      RemoveKeeps(l, s, t, pc.i);
    } else if pc.Moving? && pc.i > 0 {
      MoveKeeps(l, s, t, pc.i);
    } else if pc.Moving? {
      MoveEnds(l, s, t);
    } else if Renaming(s) {
      HolderHasBase(l, s);
      RenamingFrame(l, s, t, RenameAt(s), s.procs[s.lock.value].pc.Removing?);
    } else {
      QuietStepKeeps(l, s, p);
      if pc.Closing? && l.backupCount > 0 {
        ClosingHasBase(l, s, p);
        RenamingStarts(l, t);
      }
    }
  }

  lemma {:induction false} HolderHasBase(l: Limits, s: State)
    requires SystemOk(l, s) && Renaming(s)
    ensures 0 in s.names
  {
    assert ProcOk(l, s, s.lock.value);
  }

  lemma {:induction false} ClosingHasBase(l: Limits, s: State, p: nat)
    requires SystemOk(l, s) && Enabled(s, p) && s.procs[p].pc.Closing?
    ensures 0 in Step(l, s, p).names
  {
    assert ProcOk(l, s, p);
  }

  lemma {:induction false} StepKeepsProcs(l: Limits, s: State, p: nat)
    requires ProcsOk(l, s) && Enabled(s, p)
    ensures ProcsOk(l, Step(l, s, p))
  {
    hide RotorOk, AllLateOk, RemoveBackup, MoveBackup;
    var t := Step(l, s, p);
    OwnRotorKept(l, s, p);
    OwnLateKept(l, s, p);
    OwnLockKept(l, s, p);
    assert |t.procs| == |s.procs|;
    forall q: nat | q < |t.procs|
      ensures ProcOk(l, t, q)
    {
      if q != p {
        OtherKept(l, s, p, q);
      }
    }
  }

  lemma {:induction false} StepKeepsSystem(l: Limits, s: State, p: nat)
    requires SystemOk(l, s) && Enabled(s, p)
    ensures SystemOk(l, Step(l, s, p))
  {
    hide ProcsOk, DirectoryOk, Step;
    DirectoryKept(l, s, p);
    StepKeepsProcs(l, s, p);
  }

  lemma {:induction false} BeginKeepsProcs(l: Limits, s: State, p: nat, choice: Choice)
    requires ProcsOk(l, s) && p < |s.procs| && s.procs[p].pc.Idle?
    ensures ProcsOk(l, Begin(s, p, choice))
  {
    var t := Begin(s, p, choice);
    assert ProcOk(l, s, p);
    forall q: nat | q < |t.procs|
      ensures ProcOk(l, t, q)
    {
      assert ProcOk(l, s, q);
      forall f: nat
        ensures LateOk(t, t.procs[q], f)
      {
        assert LateOk(s, s.procs[q], f);
      }
    }
  }

  lemma {:induction false} BeginKeepsSystem(l: Limits, s: State, p: nat, choice: Choice)
    requires SystemOk(l, s) && p < |s.procs| && s.procs[p].pc.Idle?
    ensures SystemOk(l, Begin(s, p, choice))
  {
    BeginKeepsProcs(l, s, p, choice);
    BeginKeepsDirectory(l, s, p, choice);
  }

  lemma {:induction false} BeginKeepsDirectory(l: Limits, s: State, p: nat, choice: Choice)
    requires DirectoryOk(l, s) && p < |s.procs| && s.procs[p].pc.Idle?
    ensures DirectoryOk(l, Begin(s, p, choice))
  {
    var t := Begin(s, p, choice);
    if Renaming(s) {
      RenamingFrame(l, s, t, RenameAt(s), s.procs[s.lock.value].pc.Removing?);
    } else {
      SettledFrame(l, s, t);
    }
  }

  // ---------- where the records are ----------

  ghost predicate At(files: seq<seq<Record>>, uid: nat, f: nat, i: nat) {
    f < |files| && i < |files[f]| && files[f][i].uid == uid
  }

  ghost predicate Pending(s: State, uid: nat, q: nat) {
    q < |s.procs| && !s.procs[q].pc.Idle? && s.procs[q].pending.uid == uid
  }

  /** The record is in at most one place of one file, or on its way in at most one process. */
  ghost predicate AtMostOnce(s: State, uid: nat) {
    && (forall f, i, g, j :: At(s.files, uid, f, i) && At(s.files, uid, g, j) ==> f == g && i == j)
    && (forall q, r :: Pending(s, uid, q) && Pending(s, uid, r) ==> q == r)
    && (forall f, i, q :: !(At(s.files, uid, f, i) && Pending(s, uid, q)))
  }

  ghost predicate Somewhere(s: State, uid: nat) {
    (exists f, i :: At(s.files, uid, f, i)) || (exists q :: Pending(s, uid, q))
  }

  /** The record is in one place of one file, or on its way in one process. */
  ghost predicate InOnePlace(s: State, uid: nat) {
    AtMostOnce(s, uid) && Somewhere(s, uid)
  }

  /** The record has not been emitted yet. */
  ghost predicate Nowhere(s: State, uid: nat) {
    (forall f, i :: !At(s.files, uid, f, i)) && (forall q :: !Pending(s, uid, q))
  }

  ghost predicate RecordOnce(s: State, uid: nat) {
    if uid < s.next then AtMostOnce(s, uid) else Nowhere(s, uid)
  }

  ghost predicate RecordsOnce(s: State) {
    forall uid: nat :: RecordOnce(s, uid)
  }

  ghost predicate RecordOk(s: State, uid: nat) {
    RecordOnce(s, uid) && (uid < s.next ==> Somewhere(s, uid))
  }

  ghost predicate RecordsOk(s: State) {
    forall uid: nat :: RecordOk(s, uid)
  }

  /** Files and pending records are the same, but for empty files. */
  ghost predicate SameRecords(s: State, t: State) {
    && t.next == s.next && |t.procs| == |s.procs|
    && (t.files == s.files || t.files == s.files + [[]])
    && forall q: nat :: q < |s.procs| ==>
         (t.procs[q].pc.Idle? <==> s.procs[q].pc.Idle?) && t.procs[q].pending == s.procs[q].pending
  }

  lemma {:induction false} RecordsFrame(s: State, t: State, uid: nat)
    requires SameRecords(s, t) && RecordOnce(s, uid)
    ensures RecordOnce(t, uid) && (RecordOk(s, uid) ==> RecordOk(t, uid))
  {
    assert forall f, i :: At(t.files, uid, f, i) <==> At(s.files, uid, f, i);
    assert forall q :: Pending(t, uid, q) <==> Pending(s, uid, q);
  }

  lemma {:induction false} QuietStepSameRecords(l: Limits, s: State, p: nat)
    requires Enabled(s, p) && !(s.procs[p].pc.Writing? && s.procs[p].stream.Some?)
    ensures SameRecords(s, Step(l, s, p))
  {
  }

  lemma {:induction false} AppendKeepsRecord(s: State, p: nat, uid: nat)
    requires p < |s.procs| && s.procs[p].stream.Some? && s.procs[p].stream.value.inode < |s.files|
             && s.procs[p].pc.Writing?
    requires RecordOnce(s, uid)
    ensures RecordOnce(Append(s, p), uid) && (RecordOk(s, uid) ==> RecordOk(Append(s, p), uid))
  {
    var t, written, file := Append(s, p), s.procs[p].pending, s.procs[p].stream.value.inode;
    var place := |s.files[file]|;
    assert forall f, i :: At(t.files, uid, f, i)
                          <==> At(s.files, uid, f, i) || (uid == written.uid && f == file && i == place);
    assert forall q :: Pending(t, uid, q) <==> Pending(s, uid, q) && q != p;
    if uid == written.uid {
      assert Pending(s, uid, p) && At(t.files, uid, file, place);
    } else if q :| Pending(s, uid, q) {
      assert q != p && Pending(t, uid, q);
    } else if f, i :| At(s.files, uid, f, i) {
      assert At(t.files, uid, f, i);
    }
  }

  lemma {:induction false} EmitKeepsRecord(s: State, p: nat, size: nat, uid: nat)
    requires p < |s.procs| && s.procs[p].pc.Idle? && RecordOnce(s, uid)
    ensures var t := Begin(s, p, Emit(size)); RecordOnce(t, uid) && (RecordOk(s, uid) ==> RecordOk(t, uid))
  {
    var t := Begin(s, p, Emit(size));
    assert forall f, i :: At(t.files, uid, f, i) <==> At(s.files, uid, f, i);
    assert forall q :: Pending(t, uid, q) <==> Pending(s, uid, q) || (q == p && uid == s.next);
    if uid == s.next {
      assert Pending(t, uid, p);
    } else if q :| Pending(s, uid, q) {
      assert Pending(t, uid, q);
    } else if f, i :| At(s.files, uid, f, i) {
      assert At(t.files, uid, f, i);
    }
  }

  ghost predicate Inv(l: Limits, s: State) {
    SystemOk(l, s) && RecordsOk(s)
  }

  /** A directory as earlier runs left it, or an empty one, and no process at work. */
  ghost predicate Init(l: Limits, s: State) {
    && AllSettled(l, s) && s.lock.None? && RecordsOk(s)
    && forall q: nat :: q < |s.procs| ==>
         s.procs[q].pc.Idle? && s.procs[q].stream.None? && s.procs[q].late == multiset{}
  }

  lemma {:induction false} InitInv(l: Limits, s: State)
    requires Init(l, s)
    ensures Inv(l, s)
  {
  }

  /** Every step of every process keeps the invariant. */
  lemma {:induction false} NextKeepsInv(l: Limits, s: State, t: State)
    requires Inv(l, s) && Next(l, s, t)
    ensures Inv(l, t)
  {
    hide SystemOk, Step, Append, Begin, RecordOnce, Somewhere;
    RecordsOkOnce(s);
    if p: nat, choice :| p < |s.procs| && s.procs[p].pc.Idle? && t == Begin(s, p, choice) {
      BeginKeepsSystem(l, s, p, choice);
      BeginKeepsRecords(s, p, choice);
    } else {
      var p: nat :| Enabled(s, p) && t == Step(l, s, p);
      StepKeepsSystem(l, s, p);
      StepKeepsRecords(l, s, p);
    }
  }

  lemma {:induction false} RecordsOkOnce(s: State)
    requires RecordsOk(s)
    ensures RecordsOnce(s)
  {
    hide RecordOnce;
    assert forall uid: nat :: RecordOk(s, uid) ==> RecordOnce(s, uid);
  }

  lemma {:induction false} BeginKeepsRecords(s: State, p: nat, choice: Choice)
    requires RecordsOnce(s) && p < |s.procs| && s.procs[p].pc.Idle?
    ensures RecordsOnce(Begin(s, p, choice)) && (RecordsOk(s) ==> RecordsOk(Begin(s, p, choice)))
  {
    hide RecordOnce, RecordOk;
    var t := Begin(s, p, choice);
    forall uid: nat
      ensures RecordOnce(t, uid) && (RecordOk(s, uid) ==> RecordOk(t, uid))
    {
      assert RecordOnce(s, uid);
      match choice
      case Stop => RecordsFrame(s, t, uid);
      case Emit(size) => EmitKeepsRecord(s, p, size, uid);
    }
    assert RecordsOk(s) ==> forall uid: nat :: RecordOk(s, uid);
  }

  lemma {:induction false} StepKeepsRecords(l: Limits, s: State, p: nat)
    requires RecordsOnce(s) && Enabled(s, p)
    ensures RecordsOnce(Step(l, s, p)) && (RecordsOk(s) ==> RecordsOk(Step(l, s, p)))
  {
    hide RecordOnce, RecordOk, OpenBase;
    var t := Step(l, s, p);
    forall uid: nat
      ensures RecordOnce(t, uid) && (RecordOk(s, uid) ==> RecordOk(t, uid))
    {
      assert RecordOnce(s, uid);
      if s.procs[p].pc.Writing? && s.procs[p].stream.Some? {
        AppendKeepsRecord(s, p, uid);
      } else {
        QuietStepSameRecords(l, s, p);
        RecordsFrame(s, t, uid);
      }
    }
    assert RecordsOk(s) ==> forall uid: nat :: RecordOk(s, uid);
  }

  // ---------- processes that die ----------

  /** Process p dies, wherever it stands: its lock is released, and what it was emitting is lost. */
  function Crashed(s: State, p: nat): State
    requires p < |s.procs|
  {
    WithProc(s.(lock := if s.lock == Some(p) then None else s.lock), p, s.procs[p].(pc := Idle, stream := None))
  }

  ghost predicate NextOrCrash(l: Limits, s: State, t: State) {
    Next(l, s, t) || exists p: nat :: p < |s.procs| && t == Crashed(s, p)
  }

  /** Names that are in order of age, whatever numbers are missing. */
  ghost predicate NamesInOrder(l: Limits, names: map<nat, nat>, count: nat) {
    && (forall a :: a in names ==> a <= l.backupCount && names[a] < count)
    && (forall a, b :: a in names && b in names && a < b ==> names[b] < names[a])
  }

  ghost predicate RenamesWithin(l: Limits, s: State) {
    forall q: nat :: q < |s.procs| ==> PcWithin(l, s.procs[q].pc)
  }

  predicate PcWithin(l: Limits, pc: Pc) {
    pc.Removing? || pc.Moving? ==> pc.i < l.backupCount
  }

  ghost predicate InAgeOrder(l: Limits, s: State) {
    NamesInOrder(l, s.names, |s.files|) && RenamesWithin(l, s)
  }

  lemma {:induction false} RemoveKeepsOrder(l: Limits, names: map<nat, nat>, count: nat, i: nat)
    requires NamesInOrder(l, names, count)
    ensures NamesInOrder(l, RemoveBackup(names, i), count)
  {
  }

  lemma {:induction false} MoveKeepsOrder(l: Limits, names: map<nat, nat>, count: nat, i: nat)
    requires NamesInOrder(l, names, count) && i < l.backupCount
    ensures NamesInOrder(l, MoveBackup(names, i), count)
  {
  }

  lemma {:induction false} CreateKeepsOrder(l: Limits, names: map<nat, nat>, count: nat)
    requires NamesInOrder(l, names, count) && 0 !in names
    ensures NamesInOrder(l, names[0 := count], count + 1)
  {
  }

  lemma {:induction false} StepRenamesWithin(l: Limits, s: State, p: nat)
    requires RenamesWithin(l, s) && Enabled(s, p)
    ensures RenamesWithin(l, Step(l, s, p))
  {
    assert PcWithin(l, s.procs[p].pc);
  }

  lemma {:induction false} StepKeepsAge(l: Limits, s: State, p: nat)
    requires InAgeOrder(l, s) && Enabled(s, p)
    ensures InAgeOrder(l, Step(l, s, p))
  {
    hide Step, NamesInOrder, RenamesWithin, RemoveBackup, MoveBackup;
    StepRenamesWithin(l, s, p);
    StepNames(l, s, p);
    var pc := s.procs[p].pc;
    if pc.Removing? {
      RemoveKeepsOrder(l, s.names, |s.files|, pc.i);
    } else if pc.Moving? {
      PcOfWithin(l, s, p);
      MoveKeepsOrder(l, s.names, |s.files|, pc.i);
    } else if 0 !in s.names {
      CreateKeepsOrder(l, s.names, |s.files|);
    }
  }

  lemma {:induction false} PcOfWithin(l: Limits, s: State, p: nat)
    requires RenamesWithin(l, s) && p < |s.procs|
    ensures PcWithin(l, s.procs[p].pc)
  {
  }

  lemma {:induction false} NextKeepsAge(l: Limits, s: State, t: State)
    requires InAgeOrder(l, s) && NextOrCrash(l, s, t)
    ensures InAgeOrder(l, t)
  {
    if p: nat, choice :| p < |s.procs| && s.procs[p].pc.Idle? && t == Begin(s, p, choice) {
    } else if p: nat :| Enabled(s, p) && t == Step(l, s, p) {
      StepKeepsAge(l, s, p);
    } else {
      var p: nat :| p < |s.procs| && t == Crashed(s, p);
    }
  }

  /** What holds whatever dies: names in order of age, processes in order, no record twice. */
  ghost predicate Sound(l: Limits, s: State) {
    InAgeOrder(l, s) && ProcsOk(l, s) && RecordsOnce(s)
  }

  lemma {:induction false} CrashKeepsProcs(l: Limits, s: State, p: nat)
    requires ProcsOk(l, s) && p < |s.procs|
    ensures ProcsOk(l, Crashed(s, p))
  {
    var t := Crashed(s, p);
    forall q: nat | q < |t.procs|
      ensures ProcOk(l, t, q)
    {
      assert ProcOk(l, s, q) && ProcOk(l, s, p);
      forall f: nat
        ensures LateOk(t, t.procs[q], f)
      {
        assert LateOk(s, s.procs[q], f);
      }
    }
  }

  lemma {:induction false} CrashKeepsRecords(s: State, p: nat)
    requires RecordsOnce(s) && p < |s.procs|
    ensures RecordsOnce(Crashed(s, p))
  {
    var t := Crashed(s, p);
    forall uid: nat
      ensures RecordOnce(t, uid)
    {
      assert RecordOnce(s, uid);
      assert forall f, i :: At(t.files, uid, f, i) <==> At(s.files, uid, f, i);
      assert forall q :: Pending(t, uid, q) ==> Pending(s, uid, q);
    }
  }

  lemma {:induction false} CrashKeepsSound(l: Limits, s: State, p: nat)
    requires Sound(l, s) && p < |s.procs|
    ensures Sound(l, Crashed(s, p))
  {
    hide ProcsOk, RecordsOnce;
    CrashKeepsProcs(l, s, p);
    CrashKeepsRecords(s, p);
  }

  lemma {:induction false} StepKeepsSound(l: Limits, s: State, p: nat)
    requires Sound(l, s) && Enabled(s, p)
    ensures Sound(l, Step(l, s, p))
  {
    hide InAgeOrder, ProcsOk, RecordsOnce, Step;
    StepKeepsAge(l, s, p);
    StepKeepsProcs(l, s, p);
    StepKeepsRecords(l, s, p);
  }

  lemma {:induction false} BeginKeepsSound(l: Limits, s: State, p: nat, choice: Choice)
    requires Sound(l, s) && p < |s.procs| && s.procs[p].pc.Idle?
    ensures Sound(l, Begin(s, p, choice))
  {
    hide ProcsOk, RecordsOnce;
    BeginKeepsProcs(l, s, p, choice);
    BeginKeepsRecords(s, p, choice);
  }

  lemma {:induction false} NextKeepsSound(l: Limits, s: State, t: State)
    requires Sound(l, s) && NextOrCrash(l, s, t)
    ensures Sound(l, t)
  {
    hide Sound, Step, Begin, Crashed;
    if p: nat, choice :| p < |s.procs| && s.procs[p].pc.Idle? && t == Begin(s, p, choice) {
      BeginKeepsSound(l, s, p, choice);
    } else if p: nat :| Enabled(s, p) && t == Step(l, s, p) {
      StepKeepsSound(l, s, p);
    } else {
      var p: nat :| p < |s.procs| && t == Crashed(s, p);
      CrashKeepsSound(l, s, p);
    }
  }

  // ---------- whole runs ----------

  /** Any number of processes, their steps in any order. */
  ghost predicate IsRun(l: Limits, run: seq<State>) {
    run != [] && Init(l, run[0]) && forall i :: 0 <= i < |run| - 1 ==> Next(l, run[i], run[i + 1])
  }

  lemma {:induction false} RunKeepsInv(l: Limits, run: seq<State>, k: nat)
    requires IsRun(l, run) && k < |run|
    ensures Inv(l, run[k])
  {
    if k == 0 {
      InitInv(l, run[0]);
    } else {
      RunKeepsInv(l, run, k - 1);
      NextKeepsInv(l, run[k - 1], run[k]);
    }
  }

  /** A directory in order of age, with whatever numbers earlier deaths left out, and no process at work. */
  ghost predicate Start(l: Limits, s: State) {
    && NamesInOrder(l, s.names, |s.files|) && s.lock.None? && RecordsOnce(s)
    && forall q: nat :: q < |s.procs| ==>
         s.procs[q].pc.Idle? && s.procs[q].stream.None? && s.procs[q].late == multiset{}
  }

  /** A run in which processes may also die at any step. */
  ghost predicate IsFaultyRun(l: Limits, run: seq<State>) {
    run != [] && Start(l, run[0]) && forall i :: 0 <= i < |run| - 1 ==> NextOrCrash(l, run[i], run[i + 1])
  }

  lemma {:induction false} StartSound(l: Limits, s: State)
    requires Start(l, s)
    ensures Sound(l, s)
  {
    hide NamesInOrder, RecordsOnce;
  }

  lemma {:induction false} FaultyRunSound(l: Limits, run: seq<State>, k: nat)
    requires IsFaultyRun(l, run) && k < |run|
    ensures Sound(l, run[k])
  {
    hide Start, Sound, NextOrCrash;
    if k == 0 {
      StartSound(l, run[0]);
    } else {
      FaultyRunSound(l, run, k - 1);
      NextKeepsSound(l, run[k - 1], run[k]);
    }
  }

  lemma {:induction false} SettledInOrder(l: Limits, s: State)
    requires AllSettled(l, s)
    ensures NamesInOrder(l, s.names, |s.files|)
  {
    var base := SettledName(l, s, 0);
    forall a, b | a in s.names && b in s.names
      ensures a <= l.backupCount && s.names[a] < |s.files| && (a < b ==> s.names[b] < s.names[a])
    {
      var first, second := SettledName(l, s, a), SettledName(l, s, b);
    }
  }

  /** What holds of runs in which processes may die holds of those in which none does. */
  lemma {:induction false} RunIsFaulty(l: Limits, run: seq<State>)
    requires IsRun(l, run)
    ensures IsFaultyRun(l, run)
  {
    hide Next, RecordsOk, RecordsOnce, AllSettled, NamesInOrder;
    SettledInOrder(l, run[0]);
    RecordsOkOnce(run[0]);
  }

  lemma {:induction false} NextGrows(l: Limits, s: State, t: State)
    requires NextOrCrash(l, s, t)
    ensures FilesGrow(s.files, t.files) && BaseFresh(s, t)
  {
    if p: nat, choice :| p < |s.procs| && s.procs[p].pc.Idle? && t == Begin(s, p, choice) {
    } else if p: nat :| Enabled(s, p) && t == Step(l, s, p) {
      StepGrows(l, s, p);
      StepBaseFresh(l, s, p);
    } else {
      var p: nat :| p < |s.procs| && t == Crashed(s, p);
    }
  }

  lemma {:induction false} GrowsItself(s: State)
    ensures FilesGrow(s.files, s.files) && BaseFresh(s, s)
  {
  }

  lemma {:induction false} FilesGrowTransitive(a: seq<seq<Record>>, b: seq<seq<Record>>, c: seq<seq<Record>>)
    requires FilesGrow(a, b) && FilesGrow(b, c)
    ensures FilesGrow(a, c)
  {
    forall f | 0 <= f < |a|
      ensures a[f] <= c[f]
    {
      assert a[f] <= b[f] && b[f] <= c[f];
    }
  }

  lemma {:induction false} BaseFreshTransitive(s: State, t: State, u: State)
    requires BaseFresh(s, t) && BaseFresh(t, u) && FilesGrow(s.files, t.files)
    ensures BaseFresh(s, u)
  {
  }

  /** Files are only appended to, and a file that stopped being the log never is the log again. */
  lemma {:induction false} RunGrows(l: Limits, run: seq<State>, i: nat, j: nat)
    requires IsFaultyRun(l, run) && i <= j < |run|
    ensures FilesGrow(run[i].files, run[j].files) && BaseFresh(run[i], run[j])
    decreases j
  {
    hide Start, NextOrCrash, FilesGrow, BaseFresh;
    if i == j {
      GrowsItself(run[i]);
    } else {
      RunGrows(l, run, i, j - 1);
      NextGrows(l, run[j - 1], run[j]);
      FilesGrowTransitive(run[i].files, run[j - 1].files, run[j].files);
      BaseFreshTransitive(run[i], run[j - 1], run[j]);
    }
  }

  // ---------- what holds in every run ----------

  /** Backups are in strict order of age: a higher number is an older file. */
  lemma {:induction false} BackupsByAge(l: Limits, run: seq<State>, k: nat, a: nat, b: nat)
    requires IsRun(l, run) && k < |run| && a < b && a in run[k].names && b in run[k].names
    ensures b <= l.backupCount && run[k].names[b] < run[k].names[a] < |run[k].files|
  {
    var s := run[k];
    RunKeepsInv(l, run, k);
    if Renaming(s) {
      var i, removing := RenameAt(s), s.procs[s.lock.value].pc.Removing?;
      var first, second := RenamingName(l, s, i, removing, a), RenamingName(l, s, i, removing, b);
    } else {
      var first, second := SettledName(l, s, a), SettledName(l, s, b);
    }
  }

  /** A file with fewer than `backupCount` newer ones has a name, and one with more has none. */
  lemma {:induction false} KeptUntilAged(l: Limits, run: seq<State>, k: nat, f: nat)
    requires IsRun(l, run) && k < |run| && f < |run[k].files|
    ensures var newer := |run[k].files| - 1 - f;
            && (newer < l.backupCount ==> exists name: nat :: name in run[k].names && run[k].names[name] == f)
            && (newer > l.backupCount ==> forall name: nat :: name in run[k].names ==> run[k].names[name] != f)
  {
    var s := run[k];
    var newer: nat := |s.files| - 1 - f;
    RunKeepsInv(l, run, k);
    if Renaming(s) {
      var i, removing := RenameAt(s), s.procs[s.lock.value].pc.Removing?;
      var moved, unmoved := RenamingName(l, s, i, removing, newer + 1), RenamingName(l, s, i, removing, newer);
      forall name: nat | name in s.names
        ensures newer > l.backupCount ==> s.names[name] != f
      {
        var known := RenamingName(l, s, i, removing, name);
      }
    } else {
      var moved, unmoved, base := SettledName(l, s, newer + 1), SettledName(l, s, newer), SettledName(l, s, 0);
      forall name: nat | name in s.names
        ensures newer > l.backupCount ==> s.names[name] != f
      {
        var known := SettledName(l, s, name);
      }
    }
  }

  /** Every record emitted is in one place of one file or with one process; once in a file it stays there. */
  lemma {:induction false} RecordsKept(l: Limits, run: seq<State>, k: nat, uid: nat)
    requires IsRun(l, run) && k < |run| && uid < run[k].next
    ensures InOnePlace(run[k], uid)
    ensures forall m: nat, f: nat, i: nat :: k <= m < |run| && At(run[k].files, uid, f, i) ==>
              At(run[m].files, uid, f, i)
  {
    RunKeepsInv(l, run, k);
    assert RecordOk(run[k], uid);
    RunIsFaulty(l, run);
    NeverTwice(l, run, k, uid);
  }

  // ---------- what holds in every run, whatever dies ----------

  /** The log's name is taken away only by the process inside the lock, only from the very file it chose when
      that file was due, and the file becomes the first backup. */
  lemma {:induction false} RotatesOnlyDueLog(l: Limits, run: seq<State>, k: nat, f: nat) returns (p: nat)
    requires IsFaultyRun(l, run) && k + 1 < |run|
    requires IsBase(run[k].names, f) && !IsBase(run[k + 1].names, f)
    ensures var s, t := run[k], run[k + 1];
            && s.lock == Some(p) && p < |s.procs| && s.procs[p].pc == Moving(0)
            && s.procs[p].chosen == f && Due(l, s.files, f, s.procs[p].pending)
            && 0 !in t.names && 1 in t.names && t.names[1] == f
  {
    var s, t := run[k], run[k + 1];
    FaultyRunSound(l, run, k);
    p :| Enabled(s, p) && t == Step(l, s, p);
    if s.procs[p].pc != Moving(0) {
      StepKeepsBase(l, s, p, f);
    }
    assert ProcOk(l, s, p);
  }

  /** A process writes at most one record to a file after it was rotated away. */
  lemma {:induction false} LateAtMostOnce(l: Limits, run: seq<State>, k: nat, p: nat, f: nat)
    requires IsFaultyRun(l, run) && k < |run| && p < |run[k].procs|
    ensures run[k].procs[p].late[f] <= 1
  {
    FaultyRunSound(l, run, k);
    assert ProcOk(l, run[k], p);
    assert LateOk(run[k], run[k].procs[p], f);
  }

  /** At most one process is inside the lock. */
  lemma {:induction false} OneRotor(l: Limits, run: seq<State>, k: nat, p: nat, q: nat)
    requires IsFaultyRun(l, run) && k < |run| && p < |run[k].procs| && q < |run[k].procs|
    requires Critical(run[k].procs[p].pc) && Critical(run[k].procs[q].pc)
    ensures p == q
  {
    FaultyRunSound(l, run, k);
    assert ProcOk(l, run[k], p) && ProcOk(l, run[k], q);
  }

  /** No record is ever in two places, and once in a file it stays there. */
  lemma {:induction false} NeverTwice(l: Limits, run: seq<State>, k: nat, uid: nat)
    requires IsFaultyRun(l, run) && k < |run|
    ensures AtMostOnce(run[k], uid)
    ensures forall m: nat, f: nat, i: nat :: k <= m < |run| && At(run[k].files, uid, f, i) ==>
              At(run[m].files, uid, f, i)
  {
    FaultyRunSound(l, run, k);
    assert RecordOnce(run[k], uid);
    forall m: nat, f: nat, i: nat | k <= m < |run| && At(run[k].files, uid, f, i)
      ensures At(run[m].files, uid, f, i)
    {
      RunGrows(l, run, k, m);
      assert run[k].files[f] <= run[m].files[f];
    }
  }

  /** Backups stay in strict order of age even when processes die in the middle of a rotation and leave numbers
      out, from any directory in order of age on. */
  lemma {:induction false} AgeOrderSurvivesCrashes(l: Limits, run: seq<State>, k: nat)
    requires run != [] && InAgeOrder(l, run[0]) && k < |run|
    requires forall i :: 0 <= i < |run| - 1 ==> NextOrCrash(l, run[i], run[i + 1])
    ensures forall a, b :: a in run[k].names && b in run[k].names && a < b ==>
              b <= l.backupCount && run[k].names[b] < run[k].names[a] < |run[k].files|
    ensures InAgeOrder(l, run[k])
  {
    if k > 0 {
      hide InAgeOrder, NextOrCrash;
      AgeOrderSurvivesCrashes(l, run, k - 1);
      NextKeepsAge(l, run[k - 1], run[k]);
    }
    InAgeOrderOf(l, run[k]);
  }

  lemma {:induction false} InAgeOrderOf(l: Limits, s: State)
    requires InAgeOrder(l, s)
    ensures forall a, b :: a in s.names && b in s.names && a < b ==>
              b <= l.backupCount && s.names[b] < s.names[a] < |s.files|
  {
  }
}
