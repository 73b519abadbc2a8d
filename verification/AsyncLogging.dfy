/**
  The double-buffered logger of muduo-vip/muduo/base/AsyncLogging.cc.  Any number of
  threads append lines to the current buffer under a mutex; the logging thread swaps
  the filled buffers out under the same mutex, writes them without it, and recycles
  two of them.  Each critical section, and each stretch of the logging thread outside
  of it, is one step; steps of different threads interleave freely.
 */
module AsyncLogging {
  import opened Options
  import opened Sequences

  type Line = string

  /** A `FixedBuffer`, by the lines it holds. */
  type Buffer = seq<Line>

  /** What the log file receives: lines, and a notice of `count` buffers dropped. */
  datatype Item = Logged(line: Line) | Dropped(count: nat)

  /** Where the logging thread is: at its loop test, before the swap, after it, after the writing, or gone. */
  datatype Pc = Testing | Waiting | Collected | Written | Stopped

  datatype State = State(
    current: Buffer,              // currentBuffer_
    next: Option<Buffer>,         // nextBuffer_
    buffers: seq<Buffer>,         // buffers_
    spare1: Option<Buffer>,       // newBuffer1
    spare2: Option<Buffer>,       // newBuffer2
    toWrite: seq<Buffer>,         // buffersToWrite
    running: bool,
    output: seq<Item>,
    pc: Pc,
    // history
    accepted: seq<Line>,          // the lines appended, but for those no buffer can hold
    batches: seq<seq<Buffer>>)    // what each swap took out

  const INITIAL: State := State([], Some([]), [], Some([]), Some([]), [], true, [], Testing, [], [])

  const BUFFER_SIZE: nat := 4_000_000
  const BATCH_LIMIT: nat := 25

  function Length(b: Buffer): nat {
    if b == [] then 0 else Length(b[..|b| - 1]) + |b[|b| - 1]|
  }

  /** FixedBuffer::append(): a line that does not fit is ignored. */
  function Appended(b: Buffer, line: Line): Buffer {
    if BUFFER_SIZE - Length(b) > |line| then b + [line] else b
  }

  datatype Step = Append(line: Line) | Stop | Test | Collect | Write | Recycle

  predicate Enabled(s: State, step: Step) {
    match step
    case Append(_) => true
    case Stop => true
    case Test => s.pc.Testing?
    case Collect => s.pc.Waiting?  // whether or not stop() has come since the test
    case Write => s.pc.Collected?
    case Recycle => s.pc.Written?
  }

  function DoAppend(s: State, line: Line): State {
    var s' :=
      if BUFFER_SIZE - Length(s.current) > |line| then
        s.(current := Appended(s.current, line))
      else
        s.(buffers := s.buffers + [s.current],
           current := Appended(if s.next.Some? then s.next.value else [], line),
           next := None);
    s'.(accepted := if |line| < BUFFER_SIZE then s.accepted + [line] else s.accepted)
  }

  function DoTest(s: State): State {
    s.(pc := if s.running then Waiting else Stopped)
  }

  function DoCollect(s: State): State
    requires s.spare1.Some?
  {
    var taken := s.buffers + [s.current];
    s.(toWrite := taken, buffers := [],
       current := s.spare1.value, spare1 := None,
       next := if s.next.None? then s.spare2 else s.next,
       spare2 := if s.next.None? then None else s.spare2,
       pc := Collected, batches := s.batches + [taken])
  }

  /** The buffers of a batch that are written. */
  function Kept(batch: seq<Buffer>): seq<Buffer> {
    if |batch| > BATCH_LIMIT then batch[..2] else batch
  }

  /** What a batch leaves in the log file. */
  function Report(batch: seq<Buffer>): seq<Item> {
    Notice(batch) + Items(Concat(Kept(batch)))
  }

  function Notice(batch: seq<Buffer>): seq<Item> {
    if |batch| > BATCH_LIMIT then [Dropped(|batch| - 2)] else []
  }

  function Items(lines: seq<Line>): (r: seq<Item>)
    ensures |r| == |lines| && forall i :: 0 <= i < |r| ==> r[i] == Logged(lines[i])
  {
    seq(|lines|, i requires 0 <= i < |lines| => Logged(lines[i]))
  }

  function DoWrite(s: State): State {
    s.(output := s.output + Report(s.toWrite),
       toWrite := if |Kept(s.toWrite)| > 2 then Kept(s.toWrite)[..2] else Kept(s.toWrite),
       pc := Written)
  }

  /** The spares used up are taken back from the buffers written, emptied. */
  function DoRecycle(s: State): State {
    s.(spare1 := Some([]), spare2 := Some([]), toWrite := [], pc := Testing)
  }

  function Do(s: State, step: Step): State
    requires Enabled(s, step) && Inv(s)
  {
    match step
    case Append(line) => DoAppend(s, line)
    case Stop => s.(running := false)
    case Test => DoTest(s)
    case Collect => DoCollect(s)
    case Write => DoWrite(s)
    case Recycle => DoRecycle(s)
  }

  /** A run: steps in any order; one that is not enabled is skipped. */
  function After(s: State, steps: seq<Step>): State {
    if steps == [] then s else
      var r, step := After(s, steps[..|steps| - 1]), steps[|steps| - 1];
      if Inv(r) && Enabled(r, step) then Do(r, step) else r
  }

  // ----- what every step keeps -----

  function FlatBatches(bs: seq<seq<Buffer>>): seq<Line> {
    if bs == [] then [] else FlatBatches(bs[..|bs| - 1]) + Concat(bs[|bs| - 1])
  }

  function Reports(bs: seq<seq<Buffer>>): seq<Item> {
    if bs == [] then [] else Reports(bs[..|bs| - 1]) + Report(bs[|bs| - 1])
  }

  /** Every line accepted is in a batch already taken out, in a queued buffer or in the current one, in order. */
  predicate Conserved(s: State) {
    s.accepted == FlatBatches(s.batches) + Concat(s.buffers) + s.current
  }

  /** The log file holds the reports of the batches written, in order. */
  predicate Reported(s: State) {
    if s.pc.Collected? then
      s.batches != [] && s.toWrite == s.batches[|s.batches| - 1] && s.output == Reports(s.batches[..|s.batches| - 1])
    else s.output == Reports(s.batches)
  }

  /** The spare buffers: empty where there are any, and enough written ones where there are none. */
  predicate Stocked(s: State) {
    && (if s.next.Some? then s.next.value == [] else s.buffers != [])
    && match s.pc
       case Collected =>
         s.spare1.None? && s.toWrite != [] && (s.spare2 == Some([]) || (s.spare2.None? && |s.toWrite| >= 2))
       case Written =>
         s.spare1.None? && s.toWrite != [] && (s.spare2 == Some([]) || (s.spare2.None? && |s.toWrite| >= 2))
       case _ => s.spare1 == Some([]) && s.spare2 == Some([]) && s.toWrite == []
  }

  predicate Inv(s: State) {
    Conserved(s) && Reported(s) && Stocked(s)
  }

  lemma BatchAppend(bs: seq<seq<Buffer>>, b: seq<Buffer>)
    ensures FlatBatches(bs + [b]) == FlatBatches(bs) + Concat(b)
    ensures Reports(bs + [b]) == Reports(bs) + Report(b)
  {
    WithoutLast(bs, b);
  }

  /** A line shorter than a buffer always finds room. */
  lemma AppendConserves(s: State, line: Line)
    requires Conserved(s) && (s.next.Some? ==> s.next.value == [])
    ensures Conserved(DoAppend(s, line))
  {
    var base := FlatBatches(s.batches) + Concat(s.buffers);
    if BUFFER_SIZE - Length(s.current) > |line| {
      Assoc(base, s.current, [line]);
    } else {
      ConcatAppend(s.buffers, s.current);
      Assoc(FlatBatches(s.batches), Concat(s.buffers), s.current);
    }
  }

  lemma AppendReported(s: State, line: Line)
    requires Reported(s)
    ensures Reported(DoAppend(s, line))
  {
    SameReported(s, DoAppend(s, line));
  }

  lemma SameReported(s: State, r: State)
    requires r.pc == s.pc && r.batches == s.batches && r.toWrite == s.toWrite && r.output == s.output
    ensures Reported(r) == Reported(s)
  {
  }

  lemma AppendStocked(s: State, line: Line)
    requires Stocked(s)
    ensures Stocked(DoAppend(s, line))
  {
  }

  lemma AppendKeeps(s: State, line: Line)
    requires Inv(s)
    ensures Inv(DoAppend(s, line))
  {
    AppendConserves(s, line);
    AppendReported(s, line);
    AppendStocked(s, line);
  }

  lemma CollectConserves(s: State)
    requires Conserved(s) && s.spare1 == Some([])
    ensures Conserved(DoCollect(s))
  {
    var taken := s.buffers + [s.current];
    ConcatAppend(s.buffers, s.current);
    BatchAppend(s.batches, taken);
    Assoc(FlatBatches(s.batches), Concat(s.buffers), s.current);
    assert Concat<Line>([]) == [];
  }

  lemma CollectReported(s: State)
    requires Reported(s) && s.pc.Waiting? && s.spare1.Some?
    ensures Reported(DoCollect(s))
  {
    WithoutLast(s.batches, s.buffers + [s.current]);
  }

  lemma CollectKeeps(s: State)
    requires Inv(s) && s.pc.Waiting?
    ensures Inv(DoCollect(s))
  {
    CollectConserves(s);
    CollectReported(s);
  }

  lemma WriteReported(s: State)
    requires Reported(s) && s.pc.Collected?
    ensures Reported(DoWrite(s))
  {
    BatchAppend(s.batches[..|s.batches| - 1], s.toWrite);
    FrontAndLast(s.batches);
  }

  lemma WriteStocked(s: State)
    requires Stocked(s) && s.pc.Collected?
    ensures Stocked(DoWrite(s))
  {
  }

  lemma WriteKeeps(s: State)
    requires Inv(s) && s.pc.Collected?
    ensures Inv(DoWrite(s))
  {
    WriteReported(s);
    WriteStocked(s);
  }

  lemma StepKeeps(s: State, step: Step)
    requires Inv(s) && Enabled(s, step)
    ensures Inv(Do(s, step))
  {
    match step {
      case Append(line) => AppendKeeps(s, line);
      case Collect => CollectKeeps(s);
      case Write => WriteKeeps(s);
      case _ =>
    }
  }

  lemma {:induction false} EveryRunKeeps(s: State, steps: seq<Step>)
    requires Inv(s)
    ensures Inv(After(s, steps))
  {
    if steps != [] {
      EveryRunKeeps(s, steps[..|steps| - 1]);
      var r, step := After(s, steps[..|steps| - 1]), steps[|steps| - 1];
      if Enabled(r, step) {
        StepKeeps(r, step);
      }
    }
  }

  // ----- the promises, over every interleaving -----

  /** The lines of the log file, without the notices. */
  function LinesOf(items: seq<Item>): seq<Line> {
    if items == [] then []
    else LinesOf(items[..|items| - 1]) +
         match items[|items| - 1] { case Logged(line) => [line] case Dropped(_) => [] }
  }

  lemma {:induction false} LinesOfAppend(a: seq<Item>, b: seq<Item>)
    ensures LinesOf(a + b) == LinesOf(a) + LinesOf(b)
    decreases |b|
  {
    if b == [] {
      assert a + b == a;
    } else {
      assert (a + b)[..|a + b| - 1] == a + b[..|b| - 1];
      LinesOfAppend(a, b[..|b| - 1]);
    }
  }

  lemma {:induction false} LinesOfItems(lines: seq<Line>)
    ensures LinesOf(Items(lines)) == lines
  {
    if lines != [] {
      var front := lines[..|lines| - 1];
      LinesOfItems(front);
      assert Items(lines)[..|lines| - 1] == Items(front);
    }
  }

  /** What is written of a batch. */
  function KeptLines(bs: seq<seq<Buffer>>): seq<Line> {
    if bs == [] then [] else KeptLines(bs[..|bs| - 1]) + Concat(Kept(bs[|bs| - 1]))
  }

  lemma ReportLines(batch: seq<Buffer>)
    ensures LinesOf(Report(batch)) == Concat(Kept(batch))
  {
    var notice := Notice(batch);
    LinesOfAppend(notice, Items(Concat(Kept(batch))));
    LinesOfItems(Concat(Kept(batch)));
    assert LinesOf(notice) == [] by {
      assert notice != [] ==> notice[..0] == [];
    }
  }

  lemma {:induction false} ReportedLines(bs: seq<seq<Buffer>>)
    ensures LinesOf(Reports(bs)) == KeptLines(bs)
  {
    if bs != [] {
      var front, last := bs[..|bs| - 1], bs[|bs| - 1];
      ReportedLines(front);
      LinesOfAppend(Reports(front), Report(last));
      ReportLines(last);
    }
  }

  /** How many lines of a batch, and of all batches, are dropped. */
  function LostOf(batch: seq<Buffer>): nat {
    if |batch| > BATCH_LIMIT then |Concat(batch[2..])| else 0
  }

  function Lost(bs: seq<seq<Buffer>>): nat {
    if bs == [] then 0 else Lost(bs[..|bs| - 1]) + LostOf(bs[|bs| - 1])
  }

  lemma KeptAndLost(batch: seq<Buffer>)
    ensures |Concat(Kept(batch))| + LostOf(batch) == |Concat(batch)|
    ensures LostOf(batch) == 0 ==> Concat(Kept(batch)) == Concat(batch)
  {
    if |batch| > BATCH_LIMIT {
      assert batch == batch[..2] + batch[2..];
      ConcatOfConcat(batch[..2], batch[2..]);
    }
  }

  /** The lines of the batches are those written and those dropped. */
  lemma {:induction false} BatchesSplit(bs: seq<seq<Buffer>>)
    ensures |KeptLines(bs)| + Lost(bs) == |FlatBatches(bs)|
    ensures Lost(bs) == 0 ==> KeptLines(bs) == FlatBatches(bs)
  {
    if bs != [] {
      BatchesSplit(bs[..|bs| - 1]);
      KeptAndLost(bs[|bs| - 1]);
    }
  }

  predicate NoneTooLarge(bs: seq<seq<Buffer>>) {
    forall i :: 0 <= i < |bs| ==> |bs[i]| <= BATCH_LIMIT
  }

  lemma {:induction false} NothingDropped(bs: seq<seq<Buffer>>)
    requires NoneTooLarge(bs)
    ensures Lost(bs) == 0 && KeptLines(bs) == FlatBatches(bs)
  {
    if bs != [] {
      NothingDropped(bs[..|bs| - 1]);
    }
  }

  /** The batches whose report is in the log file. */
  function WrittenBatches(s: State): seq<seq<Buffer>> {
    if s.pc.Collected? && s.batches != [] then s.batches[..|s.batches| - 1] else s.batches
  }

  /** The batch being written. */
  function InFlight(s: State): seq<Buffer> {
    if s.pc.Collected? then s.toWrite else []
  }

  lemma StateConserves(s: State)
    requires Conserved(s) && Reported(s)
    ensures LinesOf(s.output) == KeptLines(WrittenBatches(s))
    ensures s.accepted == FlatBatches(WrittenBatches(s)) + Concat(InFlight(s)) + Concat(s.buffers) + s.current
  {
    ReportedLines(WrittenBatches(s));
    if s.pc.Collected? {
      BatchAppend(WrittenBatches(s), s.toWrite);
      FrontAndLast(s.batches);
    } else {
      assert Concat<Line>([]) == [];
      assert FlatBatches(s.batches) + [] == FlatBatches(s.batches);
    }
  }

  /**
    In every interleaving, the batches written, the batch being written, the queued
    buffers and the current one together hold all the lines accepted, in order, and the
    log file has of each batch written all lines, but for exactly the buffers beyond the
    first two of a batch of more than 25.
   */
  lemma LinesConserved(steps: seq<Step>)
    ensures var s := After(INITIAL, steps);
            && s.accepted == FlatBatches(WrittenBatches(s)) + Concat(InFlight(s)) + Concat(s.buffers) + s.current
            && LinesOf(s.output) == KeptLines(WrittenBatches(s))
  {
    EveryRunKeeps(INITIAL, steps);
    StateConserves(After(INITIAL, steps));
  }

  /** If no batch was too large, the log file holds a prefix of the lines accepted. */
  lemma PrefixWritten(s: State)
    requires Conserved(s) && Reported(s) && NoneTooLarge(s.batches)
    ensures LinesOf(s.output) <= s.accepted
  {
    StateConserves(s);
    NothingDropped(WrittenBatches(s));
    PrefixOfThree(FlatBatches(WrittenBatches(s)), Concat(InFlight(s)), Concat(s.buffers), s.current);
  }

  lemma PrefixOfThree(w: seq<Line>, a: seq<Line>, b: seq<Line>, c: seq<Line>)
    ensures w <= w + a + b + c
  {
  }

  /** Recycling never runs out: a spare is missing only when enough buffers have been written. */
  lemma RecyclingFindsBuffers(steps: seq<Step>)
    ensures var s := After(INITIAL, steps);
            && (s.pc.Testing? ==> s.spare1 == Some([]) && s.spare2 == Some([]) && s.toWrite == [])
            && (s.pc.Written? ==>
                  |s.toWrite| >= (if s.spare1.None? then 1 else 0) + (if s.spare2.None? then 1 else 0))
            && (s.next.None? ==> s.buffers != [])
  {
    EveryRunKeeps(INITIAL, steps);
  }

  // ----- what a logger that has stopped leaves behind -----

  /** The step `i` of a run took place. */
  predicate Happened(steps: seq<Step>, i: nat)
    requires i < |steps|
  {
    var r := After(INITIAL, steps[..i]);
    Inv(r) && Enabled(r, steps[i])
  }

  ghost predicate NoCollectFrom(steps: seq<Step>, i: nat) {
    forall j :: i <= j < |steps| ==> !(steps[j].Collect? && Happened(steps, j))
  }

  predicate Accepts(step: Step) {
    step.Append? && |step.line| < BUFFER_SIZE
  }

  /** Some line that a buffer can hold was appended after the last swap of the run. */
  ghost predicate AppendedLate(steps: seq<Step>) {
    exists i: nat :: i < |steps| && Accepts(steps[i]) && NoCollectFrom(steps, i)
  }

  lemma HappenedBefore(front: seq<Step>, last: Step, i: nat)
    requires i < |front|
    ensures Happened(front + [last], i) <==> Happened(front, i)
  {
    assert (front + [last])[..i] == front[..i];
  }

  lemma AppendedLateLast(front: seq<Step>, last: Step)
    ensures AppendedLate(front + [last]) <==>
            Accepts(last) || (AppendedLate(front) && !(last.Collect? && Happened(front + [last], |front|)))
  {
    var steps := front + [last];
    if Accepts(last) {
      assert Accepts(steps[|front|]) && NoCollectFrom(steps, |front|);
    } else if AppendedLate(front) && !(last.Collect? && Happened(steps, |front|)) {
      var i: nat :| i < |front| && Accepts(front[i]) && NoCollectFrom(front, i);
      forall j | i <= j < |steps| ensures !(steps[j].Collect? && Happened(steps, j)) {
        if j < |front| {
          HappenedBefore(front, last, j);
        }
      }
      assert Accepts(steps[i]) && NoCollectFrom(steps, i);
    }
    if AppendedLate(steps) && !Accepts(last) {
      var i: nat :| i < |steps| && Accepts(steps[i]) && NoCollectFrom(steps, i);
      assert steps[|front|] == last && Accepts(front[i]);
      forall j | i <= j < |front| ensures !(front[j].Collect? && Happened(front, j)) {
        HappenedBefore(front, last, j);
        assert steps[j] == front[j];
      }
      assert NoCollectFrom(front, i);
    }
  }

  /** The lines in the buffers of append(). */
  function Unswapped(s: State): seq<Line> {
    Concat(s.buffers) + s.current
  }

  lemma AppendFills(s: State, line: Line)
    requires s.next.Some? ==> s.next.value == []
    ensures Unswapped(DoAppend(s, line)) != [] <==> Unswapped(s) != [] || |line| < BUFFER_SIZE
  {
    if BUFFER_SIZE - Length(s.current) <= |line| {
      ConcatAppend(s.buffers, s.current);
    }
  }

  lemma StepFills(s: State, step: Step)
    requires Inv(s) && Enabled(s, step)
    ensures Unswapped(Do(s, step)) != [] <==> Accepts(step) || (Unswapped(s) != [] && !step.Collect?)
  {
    if step.Append? {
      AppendFills(s, step.line);
    } else if step.Collect? {
      assert Do(s, step).buffers == [] && Do(s, step).current == [];
    }
  }

  /** The buffers of append() hold a line exactly when one was appended after the last swap. */
  lemma {:induction false} LeftInBuffers(steps: seq<Step>)
    ensures Unswapped(After(INITIAL, steps)) != [] <==> AppendedLate(steps)
  {
    if steps != [] {
      var front, last := steps[..|steps| - 1], steps[|steps| - 1];
      LeftInBuffers(front);
      EveryRunKeeps(INITIAL, front);
      LastFills(INITIAL, steps, front, last);
      AppendedLateLast(front, last);
    }
  }

  lemma LastFills(s: State, steps: seq<Step>, front: seq<Step>, last: Step)
    requires steps != [] && front == steps[..|steps| - 1] && last == steps[|steps| - 1]
    ensures steps == front + [last]
    ensures var a := After(s, front);
            Inv(a) ==> (Unswapped(After(s, steps)) != [] <==>
                        Accepts(last) || (Unswapped(a) != [] && !(last.Collect? && Enabled(a, last))))
  {
    if Inv(After(s, front)) && Enabled(After(s, front), last) {
      StepFills(After(s, front), last);
    }
  }

  lemma CompleteState(s: State)
    requires Conserved(s) && Reported(s) && !s.pc.Collected?
    ensures LinesOf(s.output) == s.accepted <==> Unswapped(s) == [] && Lost(s.batches) == 0
  {
    StateConserves(s);
    BatchesSplit(s.batches);
    var w := FlatBatches(s.batches);
    assert w + Concat(InFlight(s)) == w;
    assert |s.accepted| == |w| + |Unswapped(s)|;
    assert Unswapped(s) == [] ==> Concat(s.buffers) == [] && s.current == [];
  }

  /**
    Once the thread is gone, the log file is complete exactly when no line was appended
    after the last swap and none was in a buffer dropped from a batch of more than 25.
   */
  lemma StoppedIsComplete(steps: seq<Step>)
    requires After(INITIAL, steps).pc.Stopped?
    ensures var s := After(INITIAL, steps);
            && (LinesOf(s.output) == s.accepted <==> !AppendedLate(steps) && Lost(s.batches) == 0)
            && (NoneTooLarge(s.batches) ==> (LinesOf(s.output) == s.accepted <==> !AppendedLate(steps)))
  {
    var s := After(INITIAL, steps);
    EveryRunKeeps(INITIAL, steps);
    CompleteState(s);
    LeftInBuffers(steps);
    if NoneTooLarge(s.batches) {
      NothingDropped(s.batches);
    }
  }

  // ----- the thread goes on until it is stopped, and lines get out -----

  predicate IsStop(step: Step) {
    step.Stop?
  }

  ghost predicate StopCame(steps: seq<Step>) {
    exists i :: 0 <= i < |steps| && IsStop(steps[i])
  }

  lemma StopCameLast(front: seq<Step>, last: Step)
    ensures StopCame(front + [last]) <==> StopCame(front) || last.Stop?
  {
    var steps := front + [last];
    if StopCame(front) {
      var i :| 0 <= i < |front| && IsStop(front[i]);
      assert IsStop(steps[i]);
    }
    if last.Stop? {
      assert IsStop(steps[|front|]);
    }
    if StopCame(steps) && !last.Stop? {
      var i :| 0 <= i < |steps| && IsStop(steps[i]);
      assert steps[|front|] == last && IsStop(front[i]);
    }
  }

  ghost predicate Told(s: State, steps: seq<Step>) {
    (s.running <==> !StopCame(steps)) && (s.pc.Stopped? ==> StopCame(steps))
  }

  lemma StopTold(a: State, front: seq<Step>, last: Step, b: State, steps: seq<Step>)
    requires steps != [] && front == steps[..|steps| - 1] && last == steps[|steps| - 1]
    requires Told(a, front) && StopsAs(a, last, b)
    ensures Told(b, steps)
  {
    assert steps == front + [last];
    StopCameLast(front, last);
  }

  lemma {:induction false} RunStops(s: State, steps: seq<Step>)
    requires Inv(s) && s.running && !s.pc.Stopped?
    ensures Told(After(s, steps), steps)
  {
    if steps != [] {
      var front, last := steps[..|steps| - 1], steps[|steps| - 1];
      RunStops(s, front);
      EveryRunKeeps(s, front);
      LastStops(s, steps, front, last);
      StopTold(After(s, front), front, last, After(s, steps), steps);
    }
  }

  lemma LastStops(s: State, steps: seq<Step>, front: seq<Step>, last: Step)
    requires steps != [] && front == steps[..|steps| - 1] && last == steps[|steps| - 1]
    ensures Inv(After(s, front)) ==> StopsAs(After(s, front), last, After(s, steps))
  {
    if Inv(After(s, front)) {
      StepStops(After(s, front), last);
    }
  }

  /** Over every run, running_ is cleared exactly by stop(), and the thread leaves only after it. */
  lemma StoppedWasAsked(steps: seq<Step>)
    ensures var s := After(INITIAL, steps);
            (s.running <==> !StopCame(steps)) && (s.pc.Stopped? ==> StopCame(steps))
  {
    RunStops(INITIAL, steps);
  }

  predicate StopsAs(a: State, step: Step, b: State) {
    b.running == (a.running && !step.Stop?) && (b.pc.Stopped? ==> a.pc.Stopped? || !a.running)
  }

  lemma StepStops(s: State, step: Step)
    ensures Inv(s) ==> StopsAs(s, step, if Enabled(s, step) then Do(s, step) else s)
  {
  }

  /** At its test the thread goes on exactly when stop() has not come. */
  lemma TestGoesOn(steps: seq<Step>)
    requires After(INITIAL, steps).pc.Testing?
    ensures After(INITIAL, steps + [Test]).pc == if StopCame(steps) then Stopped else Waiting
  {
    StoppedWasAsked(steps);
    EveryRunKeeps(INITIAL, steps);
    OneMore(INITIAL, steps, Test);
  }

  /** One swap and one write empty the buffers of append(). */
  lemma WrittenOut(s: State)
    requires Inv(s) && s.pc.Waiting?
    ensures Inv(DoCollect(s)) && Inv(DoWrite(DoCollect(s)))
    ensures var t := DoWrite(DoCollect(s));
            && t.pc.Written? && t.accepted == s.accepted && Unswapped(t) == []
            && (LinesOf(t.output) == s.accepted <==> Lost(t.batches) == 0)
  {
    CollectKeeps(s);
    WriteKeeps(DoCollect(s));
    assert Concat<Line>([]) == [];
    CompleteState(DoWrite(DoCollect(s)));
  }

  /**
    Lines get out: in a run without stop() that is at the loop test, the next turn of the
    thread writes everything accepted by then, but for what a batch too large drops.
   */
  lemma LinesGetOut(steps: seq<Step>)
    requires After(INITIAL, steps).pc.Testing? && !StopCame(steps)
    ensures var s, t := After(INITIAL, steps), After(INITIAL, steps + [Test] + [Collect] + [Write]);
            && t.pc.Written? && t.accepted == s.accepted && Unswapped(t) == []
            && (LinesOf(t.output) == s.accepted <==> Lost(t.batches) == 0)
            && (NoneTooLarge(t.batches) ==> LinesOf(t.output) == s.accepted)
  {
    var s := After(INITIAL, steps);
    TestGoesOn(steps);
    EveryRunKeeps(INITIAL, steps);
    OneMore(INITIAL, steps, Test);
    EveryRunKeeps(INITIAL, steps + [Test]);
    var w := After(INITIAL, steps + [Test]);
    OneMore(INITIAL, steps + [Test], Collect);
    WrittenOut(w);
    OneMore(INITIAL, steps + [Test] + [Collect], Write);
    var t := DoWrite(DoCollect(w));
    if NoneTooLarge(t.batches) {
      NothingDropped(t.batches);
    }
  }

  // ----- how full the buffers are -----

  lemma LengthAppend(b: Buffer, line: Line)
    ensures Length(b + [line]) == Length(b) + |line|
  {
    WithoutLast(b, line);
  }

  predicate AllFit(bs: seq<Buffer>) {
    forall i :: 0 <= i < |bs| ==> Length(bs[i]) < BUFFER_SIZE
  }

  /** A buffer is followed by another only when the first line of that did not fit. */
  predicate Filled(bs: seq<Buffer>) {
    forall i :: 0 < i < |bs| ==> bs[i] != [] && Length(bs[i - 1]) + |bs[i][0]| >= BUFFER_SIZE
  }

  lemma AppendFits(s: State, line: Line)
    requires AllFit(s.buffers + [s.current]) && (s.next.Some? ==> s.next.value == [])
    ensures var r := DoAppend(s, line); AllFit(r.buffers + [r.current])
  {
    var r := DoAppend(s, line);
    LengthAppend(s.current, line);
    LengthAppend([], line);
    assert s.buffers + [s.current] == (s.buffers + [s.current])[..|s.buffers| + 1];
    forall i | 0 <= i < |r.buffers + [r.current]|
      ensures Length((r.buffers + [r.current])[i]) < BUFFER_SIZE
    {
      if i < |s.buffers| + 1 {
        assert Length((s.buffers + [s.current])[i]) < BUFFER_SIZE;
      }
    }
  }

  /** No buffer overflows, in any run. */
  lemma {:induction false} BuffersFit(steps: seq<Step>)
    ensures var s := After(INITIAL, steps); AllFit(s.buffers + [s.current])
  {
    if steps != [] {
      var front, last := steps[..|steps| - 1], steps[|steps| - 1];
      BuffersFit(front);
      EveryRunKeeps(INITIAL, front);
      var r := After(INITIAL, front);
      if Enabled(r, last) {
        StepFits(r, last);
      }
    }
  }

  lemma StepFits(s: State, step: Step)
    requires Inv(s) && Enabled(s, step) && AllFit(s.buffers + [s.current])
    ensures var r := Do(s, step); AllFit(r.buffers + [r.current])
  {
    if step.Append? {
      AppendFits(s, step.line);
    }
  }

  lemma AppendFilled(s: State, line: Line)
    requires |line| < BUFFER_SIZE && (s.next.Some? ==> s.next.value == [])
    requires Filled(s.buffers + [s.current])
    ensures var r := DoAppend(s, line); Filled(r.buffers + [r.current])
  {
    var r := DoAppend(s, line);
    var was, now := s.buffers + [s.current], r.buffers + [r.current];
    if BUFFER_SIZE - Length(s.current) > |line| {
      assert forall i :: 0 <= i < |s.buffers| ==> now[i] == was[i];
      assert s.current != [] ==> r.current[0] == s.current[0];
      assert |s.buffers| > 0 ==> was[|s.buffers|] == s.current;
    } else {
      assert r.current == [line];
      assert forall i :: 0 <= i < |was| ==> now[i] == was[i];
    }
  }

  /** While every line is shorter than a buffer, no buffer is queued before it is full. */
  lemma {:induction false} BuffersFilled(steps: seq<Step>)
    requires forall i :: 0 <= i < |steps| && steps[i].Append? ==> Accepts(steps[i])
    ensures var s := After(INITIAL, steps); Filled(s.buffers + [s.current])
  {
    if steps != [] {
      var front, last := steps[..|steps| - 1], steps[|steps| - 1];
      BuffersFilled(front);
      EveryRunKeeps(INITIAL, front);
      assert last.Append? ==> Accepts(steps[|front|]);
      var r := After(INITIAL, front);
      if Enabled(r, last) {
        StepFilled(r, last);
      }
    }
  }

  lemma StepFilled(s: State, step: Step)
    requires Inv(s) && Enabled(s, step) && (step.Append? ==> Accepts(step)) && Filled(s.buffers + [s.current])
    ensures var r := Do(s, step); Filled(r.buffers + [r.current])
  {
    if step.Append? {
      AppendFilled(s, step.line);
    }
  }

  /** The notice of a batch too large counts the buffers that are not written. */
  lemma NoticeCounts(batch: seq<Buffer>)
    requires |batch| > BATCH_LIMIT
    ensures exists n :: Notice(batch) == [Dropped(n)] && |Kept(batch)| + n == |batch| && Kept(batch) == batch[..2]
  {
    assert Notice(batch) == [Dropped(|batch| - 2)];
  }

  lemma OneMore(s: State, steps: seq<Step>, step: Step)
    requires Inv(After(s, steps)) && Enabled(After(s, steps), step)
    ensures After(s, steps + [step]) == Do(After(s, steps), step)
  {
    WithoutLast(steps, step);
  }

  /** And that is not promised: a logger that stops may leave accepted lines unwritten. */
  lemma StoppingCanLeaveLines(line: Line)
    requires |line| < BUFFER_SIZE
    ensures var s := After(INITIAL, [] + [Append(line)] + [Stop] + [Test]);
            s.pc.Stopped? && s.accepted == [line] && s.output == []
  {
    EveryRunKeeps(INITIAL, []);
    OneMore(INITIAL, [], Append(line));
    EveryRunKeeps(INITIAL, [] + [Append(line)]);
    OneMore(INITIAL, [] + [Append(line)], Stop);
    EveryRunKeeps(INITIAL, [] + [Append(line)] + [Stop]);
    OneMore(INITIAL, [] + [Append(line)] + [Stop], Test);
  }

  // ----- the class -----

  class AsyncLogging {
    var currentBuffer: Buffer
    var nextBuffer: Option<Buffer>
    var buffers: seq<Buffer>
    var running: bool
    var output: seq<Item>
    // locals of threadFunc()
    var newBuffer1: Option<Buffer>
    var newBuffer2: Option<Buffer>
    var buffersToWrite: seq<Buffer>
    // history
    ghost var pc: Pc
    ghost var accepted: seq<Line>
    ghost var batches: seq<seq<Buffer>>

    ghost function Value(): State
      reads this
    {
      State(currentBuffer, nextBuffer, buffers, newBuffer1, newBuffer2, buffersToWrite, running, output,
            pc, accepted, batches)
    }

    constructor ()
      ensures Value() == INITIAL && Inv(Value())
    {
      currentBuffer, nextBuffer, buffers, running, output := [], Some([]), [], true, [];
      newBuffer1, newBuffer2, buffersToWrite := Some([]), Some([]), [];
      pc, accepted, batches := Testing, [], [];
    }

    /** append(), under the mutex. */
    method Append(logline: Line)
      modifies this
      ensures Value() == DoAppend(old(Value()), logline)
    {
      if BUFFER_SIZE - Length(currentBuffer) > |logline| {
        currentBuffer := Appended(currentBuffer, logline);
      } else {
        buffers := buffers + [currentBuffer];
        if nextBuffer.Some? {
          currentBuffer := nextBuffer.value;
          nextBuffer := None;
        } else {
          currentBuffer := [];
        }
        currentBuffer := Appended(currentBuffer, logline);
      }
      accepted := if |logline| < BUFFER_SIZE then accepted + [logline] else accepted;
    }

    method Stop()
      modifies this
      ensures Value() == old(Value()).(running := false)
    {
      running := false;
    }

    /** The loop test of threadFunc(). */
    method TestRunning() returns (again: bool)
      requires pc.Testing?
      modifies `pc
      ensures Value() == DoTest(old(Value())) && again == pc.Waiting?
    {
      again := running;
      pc := if running then Waiting else Stopped;
    }

    /** The critical section of threadFunc(); stop() may have come since the loop test. */
    method CollectBatch()
      requires Stocked(Value()) && pc.Waiting?
      modifies this
      ensures Value() == DoCollect(old(Value()))
    {
      assert newBuffer1.Some? && Length(newBuffer1.value) == 0;
      assert newBuffer2.Some? && Length(newBuffer2.value) == 0;
      assert buffersToWrite == [];
      buffers := buffers + [currentBuffer];
      currentBuffer := newBuffer1.value;
      newBuffer1 := None;
      buffersToWrite, buffers := buffers, buffersToWrite;
      if nextBuffer.None? {
        nextBuffer := newBuffer2;
        newBuffer2 := None;
      }
      pc, batches := Collected, batches + [buffersToWrite];
      assert buffersToWrite != [];
    }

    /** The loop that hands each buffer to the log file. */
    method WriteBuffers()
      modifies `output
      ensures output == old(output) + Items(Concat(buffersToWrite))
    {
      assert output == output + [];
      for i := 0 to |buffersToWrite|
        invariant output == old(output) + Items(Concat(buffersToWrite[..i]))
      {
        WriteOneMore(buffersToWrite, i, old(output));
        output := output + Items(buffersToWrite[i]);
      }
      assert buffersToWrite[..|buffersToWrite|] == buffersToWrite;
    }

    /** A batch too large is cut down to two buffers, with a notice. */
    method DropExcess()
      modifies `output, `buffersToWrite
      ensures buffersToWrite == Kept(old(buffersToWrite))
      ensures output == old(output) + Notice(old(buffersToWrite))
    {
      if |buffersToWrite| > BATCH_LIMIT {
        output := output + [Dropped(|buffersToWrite| - 2)];
        buffersToWrite := buffersToWrite[..2];
      }
    }

    /** Everything up to the recycling, without the mutex. */
    method WriteBatch()
      requires pc.Collected?
      modifies this
      ensures Value() == DoWrite(old(Value()))
    {
      DropExcess();
      WriteBuffers();
      Assoc(old(output), Notice(old(buffersToWrite)), Items(Concat(buffersToWrite)));
      if |buffersToWrite| > 2 {
        buffersToWrite := buffersToWrite[..2];
      }
      pc := Written;
    }

    /** Refill the spares from the buffers written. */
    method RecycleBuffers()
      requires Stocked(Value()) && pc.Written?
      modifies this
      ensures Value() == DoRecycle(old(Value()))
    {
      if newBuffer1.None? {
        assert buffersToWrite != [];
        newBuffer1 := Some(buffersToWrite[|buffersToWrite| - 1]);
        buffersToWrite := buffersToWrite[..|buffersToWrite| - 1];
        newBuffer1 := Some([]);
      }
      if newBuffer2.None? {
        assert buffersToWrite != [];
        newBuffer2 := Some(buffersToWrite[|buffersToWrite| - 1]);
        buffersToWrite := buffersToWrite[..|buffersToWrite| - 1];
        newBuffer2 := Some([]);
      }
      buffersToWrite := [];
      pc := Testing;
    }
  }

  lemma ItemsAppend(a: seq<Line>, b: seq<Line>)
    ensures Items(a + b) == Items(a) + Items(b)
  {
  }

  lemma WriteOneMore(bs: seq<Buffer>, i: nat, before: seq<Item>)
    requires i < |bs|
    ensures before + Items(Concat(bs[..i])) + Items(bs[i]) == before + Items(Concat(bs[..i + 1]))
  {
    assert bs[..i + 1] == bs[..i] + [bs[i]];
    ConcatAppend(bs[..i], bs[i]);
    ItemsAppend(Concat(bs[..i]), bs[i]);
    Assoc(before, Items(Concat(bs[..i])), Items(bs[i]));
  }
}
