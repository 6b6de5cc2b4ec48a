/** The sorting threads and the main thread as a transition system.

    Every step is one that the others can observe: a section under the map mutex, a
    read of the chunk into a private buffer, a copy back, an update of the table by
    worker 0, or the opening of a barrier. Arriving at a barrier is folded into the
    step before it. A barrier opens when as many threads wait at it as it was
    initialised for, wherever in the program they wait. */
module WorkerProtocol {
  import opened Records
  import opened RunMerging
  import opened Runs
  import opened BlockTable

  /** `input` is the file's data, cut into the chunks that main maps one by one. */
  datatype Config = Config(threads: nat, blocks: nat, input: RunList)

  /** Where a worker is. `active` is its local copy of the number of active blocks. */
  datatype Pc =
    | AtStart                                     // waits at the control barrier for a chunk
    | Check
    | ClaimBlock
    | Sorting(block: nat)
    | BlockSorted(block: nat)
    | AtSorted                                    // waits at the workers barrier
    | ReadActive
    | LateReset(active: nat)
    | AtReset(active: nat)                        // waits at the workers barrier
    | ClaimPair(active: nat)
    | MergePair(early: bool, active: nat, pair: nat)
    | CopyPair(early: bool, active: nat, pair: nat, lo: nat, tmp: seq<Record>)
    | PairDone(active: nat, pair: nat)
    | AtMerged(early: bool, active: nat)          // waits at the workers barrier
    | Finish(early: bool, active: nat)
    | AtRoundEnd(early: bool)                     // waits at the workers barrier
    | AtEnd                                       // waits at the control barrier
    | Exited

  datatype MainPc =
    | Prepare
    | AtChunkStart    // waits at the control barrier
    | AtChunkEnd      // waits at the control barrier
    | Collect
    | AtShutdown      // waits at the control barrier
    | Joining
    | Aborted         // a chunk with fewer records than blocks: exit(EXIT_FAILURE)

  datatype Stage = Idle | SortStage | RoundStage | LateStage | FinishStage(early: bool) | Shutdown

  /** The shared context, the program counters, and auxiliary history: the stage the
      workers are in, what the current chunk was, its blocks once sorted, the runs at
      the start of the current round, the pairs already merged in it, which worker
      last claimed each entry of the table, and how many rounds the chunk has had. */
  datatype State = State(
    main: MainPc,
    todo: RunList,
    results: RunList,
    buf: seq<Record>,
    table: seq<Block>,
    active: nat,
    phase: nat,
    done: bool,
    workers: seq<Pc>,
    stage: Stage,
    origins: RunList,
    original: seq<Record>,
    sortedBlocks: RunList,
    runs: RunList,
    merged: set<nat>,
    owner: seq<nat>,
    rounds: nat)

  datatype Step =
    | MainStep
    | OpenControl
    | OpenWorkers
    | Work(thread: nat, sorted: seq<Record>)   // `sorted` is what `qsort` returns, if it is called

  predicate ValidConfig(c: Config) {
    c.threads > 0 && c.blocks > 0 && forall i :: 0 <= i < |c.input| ==> c.input[i] != []
  }

  function Start(c: Config): State {
    State(Prepare, c.input, [], [], seq(c.blocks, i => Block(FREE, 0, 0)), 0, 0, false,
          seq(c.threads, t => AtStart), Idle, [], [], [], [], {}, seq(c.blocks, i => 0), 0)
  }

  predicate WellFormed(c: Config, s: State) {
    |s.workers| == c.threads && |s.table| == |s.owner| == c.blocks && s.active <= c.blocks
  }

  predicate WaitsAtControl(pc: Pc) {
    pc.AtStart? || pc.AtEnd?
  }

  predicate WaitsAtWorkers(pc: Pc) {
    pc.AtSorted? || pc.AtReset? || pc.AtMerged? || pc.AtRoundEnd?
  }

  predicate Waits(pc: Pc) {
    WaitsAtControl(pc) || WaitsAtWorkers(pc)
  }

  /** Where a released worker goes on. */
  function Released(pc: Pc): Pc {
    match pc
    case AtStart => Check
    case AtEnd => AtStart
    case AtSorted => ReadActive
    case AtReset(a) => ClaimPair(a)
    case AtMerged(e, a) => Finish(e, a)
    case AtRoundEnd(_) => ReadActive
    case _ => pc
  }

  function StageAfter(pc: Pc): Stage {
    match pc
    case AtReset(_) => LateStage
    case AtMerged(e, _) => FinishStage(e)
    case _ => RoundStage
  }

  /** The range of the chunk that block `b` describes lies inside the chunk. */
  predicate BlockInside(s: State, b: nat) {
    b < |s.table| && s.table[b].offset + s.table[b].size <= |s.buf|
  }

  predicate PairInside(s: State, p: nat) {
    && 2 * p + 1 < |s.table|
    && s.table[2 * p].offset + s.table[2 * p].size + s.table[2 * p + 1].size <= |s.buf|
  }

  predicate CanWork(c: Config, s: State, t: nat, sorted: seq<Record>) {
    && t < |s.workers|
    && match s.workers[t]
       case Sorting(b) =>
         && BlockInside(s, b)
         && Sorted(sorted)
         && |sorted| == s.table[b].size
         && Permutation(sorted, s.buf[s.table[b].offset..s.table[b].offset + s.table[b].size])
       case BlockSorted(b) => b < |s.table|
       case MergePair(_, a, p) => p < a / 2 ==> PairInside(s, p)
       case CopyPair(_, _, _, lo, tmp) => lo + |tmp| <= |s.buf|
       case PairDone(_, p) => p < |s.table|
       case ClaimPair(a) => a / 2 <= |s.table|
       case LateReset(a) => a / 2 <= |s.table|
       case Finish(_, a) => a <= |s.table|
       case _ => !Waits(s.workers[t]) && s.workers[t] != Exited
  }

  predicate CanStep(c: Config, s: State, step: Step) {
    && WellFormed(c, s)
    && s.main != Aborted
    && match step
       case MainStep => s.main == Prepare || s.main == Collect
       case OpenControl =>
         && (s.main == AtChunkStart || s.main == AtChunkEnd || s.main == AtShutdown)
         && forall t :: 0 <= t < |s.workers| ==> WaitsAtControl(s.workers[t])
       case OpenWorkers =>
         && c.threads > 0
         && forall t :: 0 <= t < |s.workers| ==> WaitsAtWorkers(s.workers[t])
       case Work(t, sorted) => CanWork(c, s, t, sorted)
  }

  function Go(s: State, t: nat, pc: Pc): (s': State)
    requires t < |s.workers|
  {
    s.(workers := s.workers[t := pc])
  }

  /** What `merge_two_runs` leaves in its buffer when it is called for pair `p`. */
  function MergedPair(s: State, p: nat): seq<Record>
    requires PairInside(s, p)
  {
    var lo, l, r := s.table[2 * p].offset, s.table[2 * p].size, s.table[2 * p + 1].size;
    Merge(s.buf[lo..lo + l], s.buf[lo + l..lo + l + r])
  }

  function ApplyWork(c: Config, s: State, t: nat, sorted: seq<Record>): State
    requires WellFormed(c, s) && CanWork(c, s, t, sorted)
  {
    match s.workers[t]
    case Check =>
      Go(s, t, if s.phase == 2 || s.done then Exited else if s.phase == 1 then ClaimBlock else AtStart)
    case ClaimBlock =>
      var b := FirstFree(s.table, s.active);
      if b < 0 then Go(s, t, AtSorted)
      else Go(s.(table := SetState(s.table, b, BUSY), owner := s.owner[b := t]), t, Sorting(b))
    case Sorting(b) =>
      Go(s.(buf := Splice(s.buf, s.table[b].offset, sorted),
            runs := if b < |s.runs| then s.runs[b := sorted] else s.runs), t, BlockSorted(b))
    case BlockSorted(b) =>
      Go(s.(table := SetState(s.table, b, DONE)), t, ClaimBlock)
    case ReadActive =>
      var a := s.active;
      Go(s, t, if a <= 1 then AtEnd else if a / 2 >= c.threads then MergePair(true, a, t) else LateReset(a))
    case LateReset(a) =>
      Go(if t == 0 then s.(table := FreeFirst(s.table, a / 2)) else s, t, AtReset(a))
    case ClaimPair(a) =>
      var p := FirstFree(s.table, a / 2);
      if p < 0 then Go(s, t, AtMerged(false, a))
      else Go(s.(table := SetState(s.table, p, BUSY), owner := s.owner[p := t]), t, MergePair(false, a, p))
    case MergePair(early, a, p) =>
      if p < a / 2 then Go(s, t, CopyPair(early, a, p, s.table[2 * p].offset, MergedPair(s, p)))
      else Go(s, t, if early then AtMerged(true, a) else ClaimPair(a))
    case CopyPair(early, a, p, lo, tmp) =>
      Go(s.(buf := Splice(s.buf, lo, tmp), merged := s.merged + {p}), t,
         if early then AtMerged(true, a) else PairDone(a, p))
    case PairDone(a, p) =>
      Go(s.(table := SetState(s.table, p, DONE)), t, ClaimPair(a))
    case Finish(early, a) =>
      Go(if t == 0 then
           s.(table := Compact(s.table, a), active := (a + 1) / 2, runs := Pairs(s.runs, s.merged), merged := {},
             rounds := s.rounds + 1)
         else s, t, AtRoundEnd(early))
    case _ => s
  }

  function ApplyMain(c: Config, s: State): State
    requires WellFormed(c, s) && c.blocks > 0
  {
    if s.main == Prepare then
      if s.todo == [] then s.(phase := 2, done := true, main := AtShutdown)
      else if |s.todo[0]| < c.blocks then s.(main := Aborted)
      else
        var chunk := s.todo[0];
        s.(main := AtChunkStart, todo := s.todo[1..], buf := chunk, phase := 1,
           table := InitTable(|chunk|, c.blocks), active := c.blocks,
           original := chunk, runs := Blocks(chunk, c.blocks), merged := {})
    else
      s.(main := Prepare, results := s.results + [s.buf], origins := s.origins + [s.original],
         buf := [], phase := 0)
  }

  function ReleaseAll(workers: seq<Pc>): (released: seq<Pc>)
    ensures |released| == |workers|
  {
    seq(|workers|, t requires 0 <= t < |workers| => Released(workers[t]))
  }

  function Apply(c: Config, s: State, step: Step): State
    requires c.blocks > 0 && CanStep(c, s, step)
  {
    match step
    case MainStep => ApplyMain(c, s)
    case OpenControl =>
      var main := if s.main == AtChunkStart then AtChunkEnd else if s.main == AtChunkEnd then Collect else Joining;
      var stage := if s.main == AtChunkStart then SortStage else if s.main == AtChunkEnd then Idle else Shutdown;
      s.(main := main, stage := stage, workers := ReleaseAll(s.workers))
    case OpenWorkers =>
      var s1 := if s.workers[0] == AtSorted then s.(sortedBlocks := s.runs, rounds := 0) else s;
      s1.(stage := StageAfter(s.workers[0]), workers := ReleaseAll(s.workers))
    case Work(t, sorted) => ApplyWork(c, s, t, sorted)
  }

  /** The steps can be taken one after the other. */
  predicate Feasible(c: Config, s: State, steps: seq<Step>)
    requires c.blocks > 0
    decreases |steps|
  {
    steps == [] || (CanStep(c, s, steps[0]) && Feasible(c, Apply(c, s, steps[0]), steps[1..]))
  }

  function Execute(c: Config, s: State, steps: seq<Step>): State
    requires c.blocks > 0 && Feasible(c, s, steps)
    decreases |steps|
  {
    if steps == [] then s else Execute(c, Apply(c, s, steps[0]), steps[1..])
  }

  /** Main has shut the workers down and all of them are gone. */
  predicate Finished(s: State) {
    s.main == Joining && forall t :: 0 <= t < |s.workers| ==> s.workers[t] == Exited
  }
}
