/**
  The storage id of a work root: one file that worker processes race to create.
  Writing the id line is one step; creating, writing, syncing, closing and removing the file are separate ones.
 */
module StorageId {
  import opened Text
  import opened Payloads

  type Byte = n: int | 0 <= n < 256

  const PREFIX := "msws_"
  const NEWLINE := "\n"
  const BUFFER_SIZE := 24

  // ---- The id: RFC 4648 section 5, unpadded ----

  predicate IsIdChar(c: char) {
    IsLower(c) || IsUpper(c) || IsDigit(c) || c == '-' || c == '_'
  }

  function Digit(n: int): (c: char)
    requires 0 <= n < 64
    ensures IsIdChar(c)
  {
    if n < 26 then ('A' as int + n) as char
    else if n < 52 then ('a' as int + n - 26) as char
    else if n < 62 then ('0' as int + n - 52) as char
    else if n == 62 then '-' else '_'
  }

  function DigitValue(c: char): (n: int)
    requires IsIdChar(c)
    ensures 0 <= n < 64
  {
    if IsUpper(c) then c as int - 'A' as int
    else if IsLower(c) then c as int - 'a' as int + 26
    else if IsDigit(c) then c as int - '0' as int + 52
    else if c == '-' then 62 else 63
  }

  function EncodeGroup(x: Byte, y: Byte, z: Byte): (s: string)
    ensures |s| == 4 && forall c :: c in s ==> IsIdChar(c)
  {
    [Digit(x / 4), Digit(x % 4 * 16 + y / 16), Digit(y % 16 * 4 + z / 64), Digit(z % 64)]
  }

  function DecodeGroup(s: string): (b: seq<Byte>)
    requires |s| == 4 && forall c :: c in s ==> IsIdChar(c)
    ensures |b| == 3
  {
    var v0, v1, v2, v3 := DigitValue(s[0]), DigitValue(s[1]), DigitValue(s[2]), DigitValue(s[3]);
    [v0 * 4 + v1 / 16, v1 % 16 * 16 + v2 / 4, v2 % 4 * 64 + v3]
  }

  function Encode(b: seq<Byte>): (s: string)
    requires |b| % 3 == 0
    ensures |s| == |b| / 3 * 4
    ensures forall c :: c in s ==> IsIdChar(c)
  {
    if b == [] then [] else EncodeGroup(b[0], b[1], b[2]) + Encode(b[3..])
  }

  function Decode(s: string): (b: seq<Byte>)
    requires |s| % 4 == 0 && forall c :: c in s ==> IsIdChar(c)
  {
    if s == [] then [] else DecodeGroup(s[..4]) + Decode(s[4..])
  }

  lemma DigitRoundTrip(n: int)
    requires 0 <= n < 64
    ensures DigitValue(Digit(n)) == n
  {
  }

  /** The four six-bit numbers of three bytes give the bytes back. */
  lemma Regroup(x: Byte, y: Byte, z: Byte)
    ensures var v0, v1, v2, v3 := x / 4, x % 4 * 16 + y / 16, y % 16 * 4 + z / 64, z % 64;
            && 0 <= v0 < 64 && 0 <= v1 < 64 && 0 <= v2 < 64
            && v0 * 4 + v1 / 16 == x && v1 % 16 * 16 + v2 / 4 == y && v2 % 4 * 64 + v3 == z
  {
    hide *;
  }

  lemma GroupRoundTrip(x: Byte, y: Byte, z: Byte)
    ensures DecodeGroup(EncodeGroup(x, y, z)) == [x, y, z]
  {
    hide IsIdChar, Digit, DigitValue;
    Regroup(x, y, z);
    DigitRoundTrip(x / 4);
    DigitRoundTrip(x % 4 * 16 + y / 16);
    DigitRoundTrip(y % 16 * 4 + z / 64);
    DigitRoundTrip(z % 64);
  }

  /** Different random buffers give different ids. */
  lemma {:induction false} EncodeRoundTrip(b: seq<Byte>)
    requires |b| % 3 == 0
    ensures Decode(Encode(b)) == b
  {
    hide IsIdChar, EncodeGroup, DecodeGroup;
    if b != [] {
      var s := Encode(b);
      assert s[..4] == EncodeGroup(b[0], b[1], b[2]) && s[4..] == Encode(b[3..]);
      GroupRoundTrip(b[0], b[1], b[2]);
      EncodeRoundTrip(b[3..]);
      assert b == [b[0], b[1], b[2]] + b[3..];
    }
  }

  predicate ValidWorkerStorageID(value: string) {
    && HasPrefix(value, PREFIX)
    && 24 <= |value| - |PREFIX| <= 128
    && forall i :: |PREFIX| <= i < |value| ==> IsIdChar(value[i])
  }

  function Generated(buffer: seq<Byte>): string
    requires |buffer| == BUFFER_SIZE
  {
    PREFIX + Encode(buffer)
  }

  /** What a reader makes of the file's text. */
  function IdIn(text: string): Option<string> {
    var id := TrimSpace(text);
    if ValidWorkerStorageID(id) then Some(id) else None
  }

  lemma TrimTrailingNewline(s: string)
    requires s != [] && !IsSpace(s[0]) && !IsSpace(s[|s| - 1])
    ensures TrimSpace(s + NEWLINE) == s
  {
    var line := s + NEWLINE;
    assert TrimLeft(line, IsSpace) == line;
    assert line[..|line| - 1] == s;
    assert TrimRight(line, IsSpace) == TrimRight(s, IsSpace) == s;
  }

  lemma GeneratedIsValid(buffer: seq<Byte>)
    requires |buffer| == BUFFER_SIZE
    ensures ValidWorkerStorageID(Generated(buffer))
  {
    hide IsIdChar, Encode;
    var encoded := Encode(buffer);
    forall i | |PREFIX| <= i < |Generated(buffer)| ensures IsIdChar(Generated(buffer)[i]) {
      assert Generated(buffer)[i] == encoded[i - |PREFIX|];
      assert encoded[i - |PREFIX|] in encoded;
    }
  }

  lemma ValidIdIsReadBack(id: string)
    requires ValidWorkerStorageID(id)
    ensures IdIn(id + NEWLINE) == Some(id)
  {
    assert id[0] == PREFIX[0];
    IdCharIsNoSpace(id[|id| - 1]);
    hide TrimLeft, TrimRight;
    TrimTrailingNewline(id);
  }

  /** Every generated id is accepted by its own reader, which gets back the very buffer it was made from. */
  lemma GeneratedIdIsReadBack(buffer: seq<Byte>)
    requires |buffer| == BUFFER_SIZE
    ensures IdIn(Generated(buffer) + NEWLINE) == Some(Generated(buffer))
    ensures |Generated(buffer)| == |PREFIX| + 32
    ensures Decode(Encode(buffer)) == buffer && Generated(buffer)[|PREFIX|..] == Encode(buffer)
  {
    hide IdIn, ValidWorkerStorageID, Encode, Decode;
    GeneratedIsValid(buffer);
    ValidIdIsReadBack(Generated(buffer));
    EncodeRoundTrip(buffer);
  }

  lemma IdCharIsNoSpace(c: char)
    requires IsIdChar(c)
    ensures !IsSpace(c)
  {
  }

  lemma EmptyFileHasNoId()
    ensures IdIn("") == None
  {
  }

  // ---- The file and the processes ----

  datatype File = Absent | NotRegular | Present(text: string)

  function IdOf(f: File): Option<string> {
    if f.Present? then IdIn(f.text) else None
  }

  /** Where a process is in `ensureWorkerStorageID`; `first` tells its two readings apart. */
  datatype Pc =
    | Starting
    | Looking(first: bool)
    | Reading(first: bool)
    | Generating
    | Creating(id: string)
    | Writing(id: string)
    | Syncing(id: string)
    | Closing(id: string)
    | Removing
    | Returned(id: string)
    | Failed
    | Crashed

  datatype State = State(file: File, processes: map<nat, Pc>)

  /** `Fail` is the failure of the call the process is about to make. */
  datatype Step =
    | Spawn(p: nat)
    | Succeed(p: nat, buffer: seq<Byte>)
    | Fail(p: nat)
    | Crash(p: nat)

  predicate Enabled(s: State, step: Step) {
    match step
    case Spawn(p) => p !in s.processes
    case Succeed(p, buffer) =>
      p in s.processes && !Ended(s.processes[p]) && (s.processes[p].Generating? ==> |buffer| == BUFFER_SIZE)
    case Fail(p) => p in s.processes && !Ended(s.processes[p])
    case Crash(p) => p in s.processes && !Ended(s.processes[p])
  }

  predicate Ended(pc: Pc) {
    pc.Returned? || pc.Failed? || pc.Crashed?
  }

  /** The file and the process after a call that the system did not fail. */
  function Advance(file: File, pc: Pc, buffer: seq<Byte>): (File, Pc)
    requires !Ended(pc) && (pc.Generating? ==> |buffer| == BUFFER_SIZE)
  {
    match pc
    case Starting => (file, Looking(true))
    case Looking(first) =>
      (file, match file
             case Absent => if first then Generating else Failed
             case NotRegular => Failed
             case Present(_) => Reading(first))
    case Reading(first) =>
      (file, if file.Absent? && first then Generating
             else if IdOf(file).Some? then Returned(IdOf(file).value)
             else Failed)
    case Generating => (file, Creating(Generated(buffer)))
    case Creating(id) => if file.Absent? then (Present(""), Writing(id)) else (file, Looking(false))
    case Writing(id) => (Present(id + NEWLINE), Syncing(id))
    case Syncing(id) => (file, Closing(id))
    case Closing(id) => (file, Returned(id))
    case Removing => (Absent, Failed)
  }

  /** A failed write, sync or close leads to the removal of the file; every other failure just ends the call. */
  function AfterFailure(pc: Pc): Pc {
    if pc.Writing? || pc.Syncing? || pc.Closing? then Removing else Failed
  }

  function Apply(s: State, step: Step): State
    requires Enabled(s, step)
  {
    match step
    case Spawn(p) => State(s.file, s.processes[p := Starting])
    case Succeed(p, buffer) =>
      var (file, pc) := Advance(s.file, s.processes[p], buffer);
      State(file, s.processes[p := pc])
    case Fail(p) => State(s.file, s.processes[p := AfterFailure(s.processes[p])])
    case Crash(p) => State(s.file, s.processes[p := Crashed])
  }

  ghost predicate IsRun(states: seq<State>, steps: seq<Step>) {
    && |states| == |steps| + 1
    && states[0].processes == map[]
    && forall i :: 0 <= i < |steps| ==> Enabled(states[i], steps[i]) && states[i + 1] == Apply(states[i], steps[i])
  }

  /** Which of the calls that come after the id line became visible may fail. */
  datatype LateFailures = LateFailures(sync: bool, close: bool)

  const NO_LATE_FAILURE := LateFailures(false, false)

  predicate Permits(allowed: LateFailures, s: State, step: Step) {
    step.Fail? && step.p in s.processes ==>
      && (s.processes[step.p].Syncing? ==> allowed.sync)
      && (s.processes[step.p].Closing? ==> allowed.close)
  }

  ghost predicate IsRunWith(allowed: LateFailures, states: seq<State>, steps: seq<Step>) {
    IsRun(states, steps) && forall k :: 0 <= k < |steps| ==> Permits(allowed, states[k], steps[k])
  }

  /** The process that created the file and has not returned or removed it yet. */
  predicate Owner(pc: Pc) {
    pc.Writing? || pc.Syncing? || pc.Closing? || pc.Removing?
  }

  predicate Claims(pc: Pc) {
    pc.Syncing? || pc.Closing? || pc.Returned?
  }

  /** What a process relies on: an id about to be written reads back, and a claimed id is the one in the file. */
  ghost predicate Local(file: File, pc: Pc) {
    && (pc.Creating? || pc.Writing? ==> IdIn(pc.id + NEWLINE) == Some(pc.id))
    && (pc.Writing? || pc.Removing? ==> file == Present(""))
    && (Claims(pc) ==> IdOf(file) == Some(pc.id))
  }

  ghost predicate Inv(s: State) {
    && (forall p :: p in s.processes ==> Local(s.file, s.processes[p]))
    && (forall p, q |
          p in s.processes && q in s.processes && Owner(s.processes[p]) && Owner(s.processes[q]) :: p == q)
  }

  /** No process other than `p` owns the file or claims what is in it. */
  lemma OthersStandBy(s: State, p: nat)
    requires Inv(s) && p in s.processes
    requires s.processes[p].Writing? || s.processes[p].Removing? || (s.processes[p].Creating? && s.file.Absent?)
    ensures forall q :: q in s.processes && q != p ==> !Owner(s.processes[q]) && !Claims(s.processes[q])
  {
    EmptyFileHasNoId();
    forall q | q in s.processes && q != p ensures !Owner(s.processes[q]) && !Claims(s.processes[q]) {
      assert Local(s.file, s.processes[q]) && Local(s.file, s.processes[p]);
    }
  }

  lemma StepKeepsInv(s: State, step: Step)
    requires Inv(s) && Enabled(s, step) && Permits(NO_LATE_FAILURE, s, step)
    ensures Inv(Apply(s, step))
  {
    hide IdIn, Generated;
    if step.Succeed? {
      SuccessKeepsInv(s, step.p, step.buffer);
    }
  }

  lemma SuccessKeepsInv(s: State, p: nat, buffer: seq<Byte>)
    requires Inv(s) && Enabled(s, Succeed(p, buffer))
    ensures Inv(Apply(s, Succeed(p, buffer)))
  {
    hide IdIn, Generated, IdOf;
    var pc := s.processes[p];
    var (file, next) := Advance(s.file, pc, buffer);
    AdvanceKeepsLocal(s.file, pc, buffer);
    if pc.Writing? || pc.Removing? || (pc.Creating? && s.file.Absent?) {
      OthersStandBy(s, p);
    }
  }

  lemma AdvanceKeepsLocal(file: File, pc: Pc, buffer: seq<Byte>)
    requires Local(file, pc) && !Ended(pc) && (pc.Generating? ==> |buffer| == BUFFER_SIZE)
    ensures var (file', pc') := Advance(file, pc, buffer); Local(file', pc')
  {
    hide IdIn, Generated;
    if pc.Generating? {
      GeneratedIdIsReadBack(buffer);
    }
  }

  lemma {:induction false} RunKeepsInv(states: seq<State>, steps: seq<Step>, n: nat)
    requires IsRun(states, steps) && n < |states|
    requires forall i :: 0 <= i < n ==> Permits(NO_LATE_FAILURE, states[i], steps[i])
    ensures Inv(states[n])
  {
    if n > 0 {
      RunKeepsInv(states, steps, n - 1);
      StepKeepsInv(states[n - 1], steps[n - 1]);
    }
  }

  predicate HasReturned(s: State, p: nat, id: string) {
    p in s.processes && s.processes[p] == Returned(id)
  }

  lemma {:induction false} ReturnedStays(states: seq<State>, steps: seq<Step>, i: nat, j: nat, p: nat, id: string)
    requires IsRun(states, steps) && i <= j < |states| && HasReturned(states[i], p, id)
    ensures HasReturned(states[j], p, id)
  {
    if i < j {
      ReturnedStays(states, steps, i, j - 1, p, id);
    }
  }

  /**
    Any number of processes, each crashing or failing anywhere, never return two different ids, at whatever times,
    and a returned id is valid, as long as no sync or close of the file fails.
   */
  lemma WorkersAgreeOnStorageId(
    states: seq<State>, steps: seq<Step>, i: nat, p: nat, x: string, j: nat, q: nat, y: string)
    requires IsRun(states, steps) && i <= j < |states|
    requires forall k :: 0 <= k < j ==> Permits(NO_LATE_FAILURE, states[k], steps[k])
    requires HasReturned(states[i], p, x) && HasReturned(states[j], q, y)
    ensures x == y && ValidWorkerStorageID(x)
  {
    ReturnedStays(states, steps, i, j, p, x);
    RunKeepsInv(states, steps, j);
  }

  // ---- When agreement fails ----

  lemma Extend(allowed: LateFailures, states: seq<State>, steps: seq<Step>, step: Step) returns (states': seq<State>)
    requires IsRunWith(allowed, states, steps)
    requires Enabled(states[|steps|], step) && Permits(allowed, states[|steps|], step)
    ensures IsRunWith(allowed, states', steps + [step]) && states'[|steps| + 1] == Apply(states[|steps|], step)
  {
    states' := states + [Apply(states[|steps|], step)];
  }

  /** `n` calls of one process in a row, none of them failing. */
  function Calls(p: nat, buffer: seq<Byte>, n: nat): seq<Step> {
    seq(n, _ => Succeed(p, buffer))
  }

  function AfterCalls(s: State, p: nat, buffer: seq<Byte>, n: nat): State
    requires |buffer| == BUFFER_SIZE && p in s.processes
    decreases n
  {
    if n == 0 || Ended(s.processes[p]) then s else AfterCalls(Apply(s, Succeed(p, buffer)), p, buffer, n - 1)
  }

  predicate StaysOpen(s: State, p: nat, buffer: seq<Byte>, n: nat)
    requires |buffer| == BUFFER_SIZE && p in s.processes
    decreases n
  {
    n == 0 || (!Ended(s.processes[p]) && StaysOpen(Apply(s, Succeed(p, buffer)), p, buffer, n - 1))
  }

  lemma {:induction false} ExtendCalls(
    allowed: LateFailures, states: seq<State>, steps: seq<Step>, p: nat, buffer: seq<Byte>, n: nat)
    returns (states': seq<State>)
    requires |buffer| == BUFFER_SIZE && IsRunWith(allowed, states, steps)
    requires p in states[|steps|].processes && StaysOpen(states[|steps|], p, buffer, n)
    ensures IsRunWith(allowed, states', steps + Calls(p, buffer, n))
    ensures states'[|states'| - 1] == AfterCalls(states[|steps|], p, buffer, n)
    decreases n
  {
    if n == 0 {
      states' := states;
      assert steps + Calls(p, buffer, 0) == steps;
    } else {
      hide IsRunWith;
      var step := Succeed(p, buffer);
      var extended := Extend(allowed, states, steps, step);
      WithIsRun(allowed, extended, steps + [step]);
      states' := ExtendCalls(allowed, extended, steps + [step], p, buffer, n - 1);
      assert steps + [step] + Calls(p, buffer, n - 1) == steps + Calls(p, buffer, n);
    }
  }

  lemma WithIsRun(allowed: LateFailures, states: seq<State>, steps: seq<Step>)
    requires IsRunWith(allowed, states, steps)
    ensures IsRun(states, steps) && |states| == |steps| + 1
  {
  }

  /** A process that finds no file writes its own id, then syncs it, closes the file and returns it. */
  lemma CreatesAlone(s: State, p: nat, buffer: seq<Byte>)
    requires |buffer| == BUFFER_SIZE && s.file == Absent && p in s.processes && s.processes[p] == Starting
    ensures StaysOpen(s, p, buffer, 5) && StaysOpen(s, p, buffer, 6) && StaysOpen(s, p, buffer, 7)
    ensures var id := Generated(buffer);
            && AfterCalls(s, p, buffer, 5) == State(Present(id + NEWLINE), s.processes[p := Syncing(id)])
            && AfterCalls(s, p, buffer, 6) == State(Present(id + NEWLINE), s.processes[p := Closing(id)])
            && AfterCalls(s, p, buffer, 7) == State(Present(id + NEWLINE), s.processes[p := Returned(id)])
  {
    hide IdIn, Generated;
    var step := Succeed(p, buffer);
    var s1 := Apply(s, step);
    var s2 := Apply(s1, step);
    var s3 := Apply(s2, step);
    var s4 := Apply(s3, step);
    var writing := State(Present(""), s.processes[p := Writing(Generated(buffer))]);
    assert s4 == writing;
    WritesAlone(writing, p, buffer);
    hide Apply;
    forall n | 1 <= n <= 3
      ensures StaysOpen(s, p, buffer, n + 4) && AfterCalls(s, p, buffer, n + 4) == AfterCalls(s4, p, buffer, n)
    {
      assert StaysOpen(s3, p, buffer, n + 1) && StaysOpen(s2, p, buffer, n + 2) && StaysOpen(s1, p, buffer, n + 3);
      assert AfterCalls(s3, p, buffer, n + 1) == AfterCalls(s2, p, buffer, n + 2) == AfterCalls(s1, p, buffer, n + 3);
    }
  }

  lemma WritesAlone(s: State, p: nat, buffer: seq<Byte>)
    requires |buffer| == BUFFER_SIZE && p in s.processes && s.processes[p].Writing?
    ensures StaysOpen(s, p, buffer, 1) && StaysOpen(s, p, buffer, 2) && StaysOpen(s, p, buffer, 3)
    ensures var id := s.processes[p].id;
            && AfterCalls(s, p, buffer, 1) == State(Present(id + NEWLINE), s.processes[p := Syncing(id)])
            && AfterCalls(s, p, buffer, 2) == State(Present(id + NEWLINE), s.processes[p := Closing(id)])
            && AfterCalls(s, p, buffer, 3) == State(Present(id + NEWLINE), s.processes[p := Returned(id)])
  {
    hide IdIn, Generated;
    var step, id := Succeed(p, buffer), s.processes[p].id;
    var s1 := Apply(s, step);
    var s2 := Apply(s1, step);
    var s3 := Apply(s2, step);
    assert s1 == State(Present(id + NEWLINE), s.processes[p := Syncing(id)]);
    assert s2 == State(Present(id + NEWLINE), s.processes[p := Closing(id)]);
    assert s3 == State(Present(id + NEWLINE), s.processes[p := Returned(id)]);
    assert StaysOpen(s3, p, buffer, 0) && StaysOpen(s2, p, buffer, 1) && StaysOpen(s1, p, buffer, 2);
    assert AfterCalls(s1, p, buffer, 1) == AfterCalls(s2, p, buffer, 0) == s2;
    assert AfterCalls(s1, p, buffer, 2) == AfterCalls(s2, p, buffer, 1) == s3;
  }

  /** A process that finds an id returns it. */
  lemma AdoptsId(s: State, p: nat, buffer: seq<Byte>, id: string)
    requires |buffer| == BUFFER_SIZE && IdOf(s.file) == Some(id) && p in s.processes && s.processes[p] == Starting
    ensures StaysOpen(s, p, buffer, 3)
    ensures AfterCalls(s, p, buffer, 3) == State(s.file, s.processes[p := Returned(id)])
  {
    hide IdIn, Generated;
    var s1 := Apply(s, Succeed(p, buffer));
    var s2 := Apply(s1, Succeed(p, buffer));
    var s3 := Apply(s2, Succeed(p, buffer));
    assert s3 == State(s.file, s.processes[p := Returned(id)]);
    assert StaysOpen(s3, p, buffer, 0) && StaysOpen(s2, p, buffer, 1) && StaysOpen(s1, p, buffer, 2);
    assert AfterCalls(s1, p, buffer, 2) == AfterCalls(s2, p, buffer, 1) == s3;
  }

  /** The calls of a process before the late one that is going to fail. */
  function CallsBefore(close: bool): nat { if close then 6 else 5 }

  function LatePc(close: bool, id: string): Pc { if close then Closing(id) else Syncing(id) }

  lemma FirstProcessWrites(allowed: LateFailures, close: bool, a: seq<Byte>)
    returns (states: seq<State>, steps: seq<Step>)
    requires |a| == BUFFER_SIZE
    ensures IsRunWith(allowed, states, steps) && steps == [Spawn(0)] + Calls(0, a, CallsBefore(close))
    ensures states[|steps|] == State(Present(Generated(a) + NEWLINE), map[0 := LatePc(close, Generated(a))])
  {
    hide IdIn, Generated, ValidWorkerStorageID, AfterCalls, StaysOpen, Calls;
    states, steps := [State(Absent, map[])], [];
    states := Extend(allowed, states, steps, Spawn(0));
    steps := [Spawn(0)];
    CreatesAlone(states[1], 0, a);
    states := ExtendCalls(allowed, states, steps, 0, a, CallsBefore(close));
    steps := steps + Calls(0, a, CallsBefore(close));
  }

  /** One process has written its id, and another one has read it before the first one is done. */
  lemma SecondProcessAdopts(allowed: LateFailures, close: bool, a: seq<Byte>)
    returns (states: seq<State>, steps: seq<Step>)
    requires |a| == BUFFER_SIZE
    ensures IsRunWith(allowed, states, steps)
    ensures steps == [Spawn(0)] + Calls(0, a, CallsBefore(close)) + [Spawn(1)] + Calls(1, a, 3)
    ensures var id := Generated(a);
            states[|steps|] == State(Present(id + NEWLINE), map[0 := LatePc(close, id), 1 := Returned(id)])
  {
    hide IdIn, Generated, ValidWorkerStorageID, AfterCalls, StaysOpen, Calls;
    GeneratedIdIsReadBack(a);
    states, steps := FirstProcessWrites(allowed, close, a);
    states := Extend(allowed, states, steps, Spawn(1));
    steps := steps + [Spawn(1)];
    AdoptsId(states[|steps|], 1, a, Generated(a));
    states := ExtendCalls(allowed, states, steps, 1, a, 3);
    steps := steps + Calls(1, a, 3);
  }

  /** Then the late call of the writer fails and the file is gone. */
  lemma LateFailureLosesTheFile(allowed: LateFailures, close: bool, a: seq<Byte>)
    returns (states: seq<State>, steps: seq<Step>)
    requires |a| == BUFFER_SIZE && if close then allowed.close else allowed.sync
    ensures IsRunWith(allowed, states, steps)
    ensures steps == [Spawn(0)] + Calls(0, a, CallsBefore(close)) + [Spawn(1)] + Calls(1, a, 3)
                     + [Fail(0)] + Calls(0, a, 1)
    ensures states[|steps|] == State(Absent, map[0 := Failed, 1 := Returned(Generated(a))])
  {
    hide IdIn, Generated, ValidWorkerStorageID, AfterCalls, StaysOpen, Calls;
    states, steps := SecondProcessAdopts(allowed, close, a);
    states := Extend(allowed, states, steps, Fail(0));
    steps := steps + [Fail(0)];
    RemovesFile(states[|steps|], 0, a);
    states := ExtendCalls(allowed, states, steps, 0, a, 1);
    steps := steps + Calls(0, a, 1);
  }

  lemma RemovesFile(s: State, p: nat, buffer: seq<Byte>)
    requires |buffer| == BUFFER_SIZE && p in s.processes && s.processes[p] == Removing
    ensures StaysOpen(s, p, buffer, 1)
    ensures AfterCalls(s, p, buffer, 1) == State(Absent, s.processes[p := Failed])
  {
    var next := Apply(s, Succeed(p, buffer));
    assert StaysOpen(next, p, buffer, 0) && AfterCalls(next, p, buffer, 0) == next;
  }

  /** One failed sync or close, and nothing else going wrong, lets two processes return the ids of any two buffers. */
  lemma LateFailureBreaksAgreement(allowed: LateFailures, close: bool, a: seq<Byte>, b: seq<Byte>)
    returns (states: seq<State>, steps: seq<Step>)
    requires |a| == |b| == BUFFER_SIZE && if close then allowed.close else allowed.sync
    ensures IsRunWith(allowed, states, steps)
    ensures steps == [Spawn(0)] + Calls(0, a, CallsBefore(close)) + [Spawn(1)] + Calls(1, a, 3)
                     + [Fail(0)] + Calls(0, a, 1) + [Spawn(2)] + Calls(2, b, 7)
    ensures states[|steps|] == State(
              Present(Generated(b) + NEWLINE),
              map[0 := Failed, 1 := Returned(Generated(a)), 2 := Returned(Generated(b))])
  {
    hide IdIn, Generated, ValidWorkerStorageID, AfterCalls, StaysOpen, Calls;
    states, steps := LateFailureLosesTheFile(allowed, close, a);
    states := Extend(allowed, states, steps, Spawn(2));
    steps := steps + [Spawn(2)];
    CreatesAlone(states[|steps|], 2, b);
    states := ExtendCalls(allowed, states, steps, 2, b, 7);
    steps := steps + Calls(2, b, 7);
  }

  /** In every run with these failures, all ids returned at whatever times are one. */
  ghost predicate Agrees(allowed: LateFailures) {
    forall states, steps, i: nat, p: nat, x, j: nat, q: nat, y |
      && IsRunWith(allowed, states, steps) && i <= j < |states|
      && HasReturned(states[i], p, x) && HasReturned(states[j], q, y) ::
      x == y
  }

  lemma TwoIds() returns (a: seq<Byte>, b: seq<Byte>)
    ensures |a| == |b| == BUFFER_SIZE && Generated(a) != Generated(b)
  {
    a, b := seq(BUFFER_SIZE, _ => 0), seq(BUFFER_SIZE, _ => 1);
    assert a[0] != b[0];
    hide Encode, Decode;
    EncodeRoundTrip(a);
    EncodeRoundTrip(b);
    assert Generated(a)[|PREFIX|..] == Encode(a) && Generated(b)[|PREFIX|..] == Encode(b);
  }

  /**
    Racing workers always agree on the storage id if and only if neither the sync nor the close of the file can fail.
   */
  lemma WorkersAgreeExactly(allowed: LateFailures)
    ensures Agrees(allowed) <==> !allowed.sync && !allowed.close
  {
    hide IsRun, Generated, ValidWorkerStorageID;
    if !allowed.sync && !allowed.close {
      forall states, steps, i: nat, p: nat, x, j: nat, q: nat, y |
        IsRunWith(allowed, states, steps) && i <= j < |states|
        && HasReturned(states[i], p, x) && HasReturned(states[j], q, y)
        ensures x == y
      {
        WithIsRun(allowed, states, steps);
        WorkersAgreeOnStorageId(states, steps, i, p, x, j, q, y);
      }
    } else {
      var a, b := TwoIds();
      var states, steps := LateFailureBreaksAgreement(allowed, allowed.close, a, b);
      var n := |steps|;
      WithIsRun(allowed, states, steps);
      assert HasReturned(states[n], 1, Generated(a)) && HasReturned(states[n], 2, Generated(b));
    }
  }

  // ---- One process alone ----

  datatype EnsureFaults = EnsureFaults(
    directory: bool, read: bool, random: bool, create: bool, write: bool, sync: bool, close: bool, remove: bool)

  class StateDirectory {
    var file: File

    method ReadWorkerStorageID(fails: bool) returns (id: Option<string>)
      ensures id.Some? ==> file.Present? && id.value == TrimSpace(file.text) && ValidWorkerStorageID(id.value)
      ensures !fails && file.Present? && ValidWorkerStorageID(TrimSpace(file.text)) ==> id.Some?
      ensures fails ==> id.None?
    {
      if fails || !file.Present? {
        return None;
      }
      id := IdIn(file.text);
    }

    /** A process alone returns the id in the file, or leaves the one it generates there; nothing else is returned. */
    method EnsureWorkerStorageID(buffer: seq<Byte>, f: EnsureFaults) returns (id: Option<string>)
      requires |buffer| == BUFFER_SIZE
      modifies this
      ensures !old(file).Absent? ==> file == old(file) && id == if f.directory || f.read then None else IdOf(file)
      ensures old(file).Absent? ==>
                var made := !f.directory && !f.random && !f.create;
                var kept := made && !f.write && !f.sync && !f.close;
                && (id.Some? <==> kept)
                && (kept ==> id == Some(Generated(buffer)))
                && (file != Absent ==> file == Present(if f.write then "" else Generated(buffer) + NEWLINE))
                && (file != Absent <==> kept || (made && f.remove))
      ensures id.Some? ==> IdOf(file) == id
    {
      if f.directory {
        return None;
      }
      if !file.Absent? {
        id := ReadWorkerStorageID(f.read);
        return;
      }
      if f.random || f.create {
        return None;
      }
      var storageID := Generated(buffer);
      file := Present("");
      var written := false;
      if !f.write {
        file := Present(storageID + NEWLINE);
        GeneratedIdIsReadBack(buffer);
        written := !f.sync && !f.close;
      }
      if !written {
        if !f.remove {
          file := Absent;
        }
        return None;
      }
      return Some(storageID);
    }
  }
}
