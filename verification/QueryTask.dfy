/** The protocol by which worker threads answer a query.  They claim partitions from an atomic
    counter, merge the results they computed, and hand them in under a mutex; whoever hands in
    the last one, or fails, sends the reply.  Every atomic access and every step under the mutex
    is one transition, so a run is any interleaving of them. */
module QueryTask {
  import opened Types
  import opened MergeTree
  import opened WorkerStack
  import opened Seqs
  import opened Indices

  /** What the protocol depends on: the number of rows each partition yields, whether this is a
      select without order, its limit plus offset, the offset, whether there is a final pass, the
      partitions whose computation panics, and whether merging results may panic. */
  datatype Query = Query(lens: seq<nat>, unordered: bool, limit: nat, offset: nat, finalPass: bool, panics: set<nat>, mergesPanic: bool)

  datatype Reply = Empty | Answer(result: Shape) | Failure

  /** Where a worker is in `run`, with its local variables. */
  datatype Worker =
    | Idle
    | Claiming(stack: seq<Shape>, rows: nat)
    | Computing(stack: seq<Shape>, rows: nat, id: nat)
    | Checking(stack: seq<Shape>, rows: nat)
    | Flushing(stack: seq<Shape>, rows: nat)
    | Waiting(result: Shape, rows: nat)        // push_result, before the mutex
    | Pushing(result: Shape, rows: nat)        // push_result, mutex held
    | Combining                                // the reply is due, mutex held
    | Sending(result: Shape)
    | Storing(result: Shape)                   // sent, `completed` not stored yet
    | Failing                                  // fail_with, before the mutex
    | Refusing                                 // fail_with, mutex held
    | Marking                                  // fail_with_no_lock: store `completed`
    | Blocking                                 // store `batch_index`
    | Reporting                                // send the error
    | Dead(held: seq<nat>)                     // panicked, with the partitions it had

  datatype State = State(batchIndex: nat, completed: bool, holder: Option<nat>, poisoned: bool,
                         partials: seq<Shape>, completedBatches: nat, rowsCollected: nat,
                         replies: seq<Reply>, workers: seq<Worker>)

  /** How the next operation of a worker turns out. */
  datatype Outcome = Good | Bad | Panic

  predicate SufficientRows(q: Query, rows: nat) {
    q.unordered && q.limit < rows
  }

  /** Preparing the output may panic: the final pass on an error, the conversion to rows if the
      offset is larger than the number of rows. */
  predicate OutputMayPanic(q: Query) {
    q.finalPass || q.offset > 0
  }

  /** Some panic is possible. */
  predicate MayPanic(q: Query) {
    q.panics != {} || q.mergesPanic || OutputMayPanic(q)
  }

  /** A new task, with any number of workers.  A query over no partitions is answered at once. */
  ghost predicate Init(q: Query, s: State) {
    && s.batchIndex == 0 && !s.completed && s.holder == None && !s.poisoned
    && s.partials == [] && s.completedBatches == 0 && s.rowsCollected == 0
    && s.replies == (if |q.lens| == 0 then [Empty] else [])
    && forall w :: 0 <= w < |s.workers| ==> s.workers[w] == Idle
  }

  predicate Enabled(q: Query, s: State, w: nat, o: Outcome) {
    w < |s.workers| &&
    match s.workers[w]
    case Computing(stack, _, id) => if id in q.panics then o == Panic else o != Panic || (q.mergesPanic && stack != [])
    case Flushing(stack, _) => o == Good || (o == Bad && |stack| > 1) || (o == Panic && q.mergesPanic && |stack| > 1)
    case Waiting(_, _) => o == Good && s.holder == None
    case Failing => o == Good && s.holder == None
    case Combining => o == Good || (o == Bad && |s.partials| > 1) || (o == Panic && (OutputMayPanic(q) || (q.mergesPanic && |s.partials| > 1)))
    case Dead(_) => false
    case _ => o == Good
  }

  /** Takes the mutex; a worker that finds it poisoned panics with what it has. */
  function Acquire(s: State, w: nat, next: Worker, held: seq<nat>): State
    requires w < |s.workers|
  {
    if s.poisoned then s.(workers := s.workers[w := Dead(held)])
    else s.(holder := Some(w), workers := s.workers[w := next])
  }

  function Release(s: State, w: nat): State
    requires w < |s.workers|
  {
    s.(holder := None, workers := s.workers[w := Idle])
  }

  function Move(s: State, w: nat, next: Worker): State
    requires w < |s.workers|
  {
    s.(workers := s.workers[w := next])
  }

  /** A worker after it has computed the result of a partition and merged it into its stack. */
  function Computed(q: Query, stack: seq<Shape>, rows: nat, id: nat, o: Outcome): Worker {
    match o
    case Panic => Dead(AllLeaves(stack) + [id])
    case Bad => Failing
    case Good => Checking(Merged(stack, Leaf(id)), rows + if id < |q.lens| then q.lens[id] else 0)
  }

  /** A worker after it has combined the results of its stack. */
  function Flushed(stack: seq<Shape>, rows: nat, o: Outcome): Worker {
    if stack == [] then Idle
    else
      match o
      case Panic => Dead(AllLeaves(stack))
      case Bad => Failing
      case Good => Waiting(Folded(stack), rows)
  }

  function Next(q: Query, s: State, w: nat, o: Outcome): (t: State)
    requires Enabled(q, s, w, o)
    ensures |t.workers| == |s.workers|
  {
    match s.workers[w]
    case Idle => Move(s, w, Claiming([], 0))
    case Claiming(stack, rows) =>
      var id := s.batchIndex;
      Move(s, w, if id < |q.lens| then Computing(stack, rows, id) else Flushing(stack, rows)).(batchIndex := id + 1)
    case Computing(stack, rows, id) => Move(s, w, Computed(q, stack, rows, id, o))
    case Checking(stack, rows) =>
      Move(s, w, if s.completed then Idle else if SufficientRows(q, rows) then Flushing(stack, rows) else Claiming(stack, rows))
    case Flushing(stack, rows) => Move(s, w, Flushed(stack, rows, o))
    case Waiting(result, rows) => Acquire(s, w, Pushing(result, rows), Leaves(result))
    case Pushing(result, rows) =>
      if s.completed then Release(s, w)
      else
        var t := s.(completedBatches := s.completedBatches + BatchCount(result),
                    rowsCollected := s.rowsCollected + rows,
                    partials := s.partials + [result]);
        if t.completedBatches == |q.lens| || SufficientRows(q, t.rowsCollected) then Move(t, w, Combining) else Release(t, w)
    case Combining =>
      var t := s.(partials := []);
      if o == Panic || s.partials == [] then Move(t, w, Dead(AllLeaves(s.partials))).(holder := None, poisoned := true)
      else if o == Bad then Move(t, w, Marking)
      else Move(t, w, Sending(Folded(s.partials)))
    case Sending(result) => Move(s, w, Storing(result)).(replies := s.replies + [Answer(result)])
    case Storing(_) => Release(s, w).(completed := true)
    case Failing => Acquire(s, w, Refusing, [])
    case Refusing => if s.completed then Release(s, w) else Move(s, w, Marking)
    case Marking => Move(s, w, Blocking).(completed := true)
    case Blocking => Move(s, w, Reporting).(batchIndex := |q.lens|)
    case Reporting => Release(s, w).(replies := s.replies + [Failure])
    case Dead(_) => s
  }

  /** A run: any interleaving of the steps of the workers. */
  ghost predicate Step(q: Query, s: State, t: State) {
    exists w, o :: Enabled(q, s, w, o) && t == Next(q, s, w, o)
  }

  ghost predicate Run(q: Query, tr: seq<State>) {
    && tr != [] && Init(q, tr[0])
    && forall i :: 0 < i < |tr| ==> Step(q, tr[i - 1], tr[i])
  }

  // ---------------------------------------------------------------- the mutex and the reply

  predicate Locked(x: Worker) {
    x.Pushing? || x.Combining? || x.Sending? || x.Storing? || x.Refusing? || x.Marking? || x.Blocking? || x.Reporting?
  }

  /** Exactly the holder of the mutex is in a critical section. */
  ghost predicate Exclusive(s: State) {
    && (s.holder.Some? ==> s.holder.value < |s.workers|)
    && forall w :: 0 <= w < |s.workers| ==> (Locked(s.workers[w]) <==> s.holder == Some(w))
  }

  /** The worker in the critical section. */
  ghost function Holder(s: State): Worker {
    if s.holder.Some? && s.holder.value < |s.workers| then s.workers[s.holder.value] else Idle
  }

  /** `completed` and the reply go together, but for the moments between the two stores. */
  ghost predicate OneReply(s: State) {
    && |s.replies| <= 1
    && (if s.completed then s.replies == [] <==> (Holder(s).Blocking? || Holder(s).Reporting?)
        else s.replies != [] <==> Holder(s).Storing?)
    && (s.completed ==> !Holder(s).Combining? && !Holder(s).Sending? && !Holder(s).Storing? && !Holder(s).Marking?)
    && (!s.completed ==> !Holder(s).Blocking? && !Holder(s).Reporting?)
    && (s.poisoned ==> s.holder == None && !s.completed)
  }

  /** A step takes or releases the mutex for the worker that moves only. */
  lemma HolderStep(q: Query, s: State, w: nat, o: Outcome)
    requires Enabled(q, s, w, o) && (Locked(s.workers[w]) <==> s.holder == Some(w))
    ensures var t := Next(q, s, w, o);
            && |t.workers| == |s.workers| && (Locked(t.workers[w]) <==> t.holder == Some(w))
            && (t.holder == s.holder || (s.holder == None && t.holder == Some(w)) || (s.holder == Some(w) && t.holder == None))
  {
  }

  lemma ExclusiveKept(q: Query, s: State, w: nat, o: Outcome)
    requires Exclusive(s) && Enabled(q, s, w, o)
    ensures Exclusive(Next(q, s, w, o))
  {
    OneMoves(q, s, w, o);
    HolderStep(q, s, w, o);
  }

  lemma OneReplyKept(q: Query, s: State, w: nat, o: Outcome)
    requires Exclusive(s) && OneReply(s) && Enabled(q, s, w, o)
    ensures OneReply(Next(q, s, w, o))
  {
    ExclusiveKept(q, s, w, o);
    var t := Next(q, s, w, o);
    assert Locked(s.workers[w]) ==> Holder(s) == s.workers[w];
    assert !Locked(s.workers[w]) ==> Holder(t) == Holder(s) || (s.holder == None && t.holder == Some(w));
  }

  // ---------------------------------------------------------------- who holds which partition

  /** How often partition `id` went into the given results. */
  ghost function Uses(list: seq<Shape>, id: nat): nat {
    multiset(AllLeaves(list))[id]
  }

  ghost function Use(s: Shape, id: nat): nat {
    multiset(Leaves(s))[id]
  }

  lemma UsesSnoc(list: seq<Shape>, s: Shape, id: nat)
    ensures Uses(list + [s], id) == Uses(list, id) + Use(s, id)
  {
    AllLeavesSnoc(list, s);
  }

  lemma UseFolded(list: seq<Shape>, id: nat)
    requires list != []
    ensures Use(Folded(list), id) == Uses(list, id)
  {
    FoldedLeaves(list);
  }

  /** The partitions whose rows a worker has. */
  ghost function Hands(x: Worker): seq<nat> {
    match x
    case Claiming(stack, _) => AllLeaves(stack)
    case Computing(stack, _, i) => AllLeaves(stack) + [i]
    case Checking(stack, _) => AllLeaves(stack)
    case Flushing(stack, _) => AllLeaves(stack)
    case Waiting(result, _) => Leaves(result)
    case Pushing(result, _) => Leaves(result)
    case Sending(result) => Leaves(result)
    case Storing(result) => Leaves(result)
    case Dead(held) => held
    case _ => []
  }

  /** How often a worker has the rows of partition `id`. */
  ghost function Held(x: Worker, id: nat): nat {
    multiset(Hands(x))[id]
  }

  ghost function AllHeld(ws: seq<Worker>, id: nat): nat {
    if ws == [] then 0 else Held(ws[0], id) + AllHeld(ws[1..], id)
  }

  lemma {:induction false} HeldUpdate(ws: seq<Worker>, w: nat, x: Worker, id: nat)
    requires w < |ws|
    ensures AllHeld(ws[w := x], id) == AllHeld(ws, id) - Held(ws[w], id) + Held(x, id)
  {
    var us := ws[w := x];
    if w == 0 {
      assert us[1..] == ws[1..];
    } else {
      assert us[1..] == ws[1..][w - 1 := x];
      HeldUpdate(ws[1..], w - 1, x, id);
    }
  }

  /** How often partition `id` is in the workers' hands or handed in. */
  ghost function Owned(s: State, id: nat): nat {
    AllHeld(s.workers, id) + Uses(s.partials, id)
  }

  /** The rows that the given partitions yield. */
  ghost function Collected(q: Query, ids: seq<nat>): nat {
    if ids == [] then 0 else (if ids[0] < |q.lens| then q.lens[ids[0]] else 0) + Collected(q, ids[1..])
  }

  lemma {:induction false} CollectedAppend(q: Query, x: seq<nat>, y: seq<nat>)
    ensures Collected(q, x + y) == Collected(q, x) + Collected(q, y)
  {
    if x == [] {
      assert x + y == y;
    } else {
      ConsAppend(x, y);
      CollectedAppend(q, x[1..], y);
    }
  }

  /** None of the partitions panics. */
  ghost predicate Sane(q: Query, ids: seq<nat>) {
    forall i :: 0 <= i < |ids| ==> ids[i] !in q.panics
  }

  lemma SaneAppend(q: Query, x: seq<nat>, y: seq<nat>)
    ensures Sane(q, x + y) <==> Sane(q, x) && Sane(q, y)
  {
    var z := x + y;
    assert (forall i :: 0 <= i < |x| ==> z[i] == x[i]) && (forall i :: 0 <= i < |y| ==> z[|x| + i] == y[i]);
  }

  /** A worker's stack is ordered by level, its row count is that of its partitions, and none of them
      panics. */
  ghost predicate WorkerOk(q: Query, x: Worker) {
    && (x.Claiming? || x.Computing? || x.Checking? || x.Flushing? ==>
          LevelStack(x.stack) && x.rows == Collected(q, AllLeaves(x.stack)) && Sane(q, AllLeaves(x.stack)))
    && (x.Waiting? || x.Pushing? ==> x.rows == Collected(q, Leaves(x.result)) && Sane(q, Leaves(x.result)))
    && (x.Computing? ==> x.id < |q.lens|)
    && (x.Dead? ==> MayPanic(q))
  }

  ghost predicate WorkersOk(q: Query, s: State) {
    forall w :: 0 <= w < |s.workers| ==> WorkerOk(q, s.workers[w])
  }

  /** Merging the result of partition `id` into a stack adds just that partition. */
  lemma MergedLeaf(q: Query, stack: seq<Shape>, id: nat)
    requires LevelStack(stack) && id < |q.lens|
    ensures var m := Merged(stack, Leaf(id));
            && LevelStack(m) && AllLeaves(m) == AllLeaves(stack) + [id]
            && Collected(q, AllLeaves(m)) == Collected(q, AllLeaves(stack)) + q.lens[id]
  {
    MergedKeeps(stack, Leaf(id));
    CollectedAppend(q, AllLeaves(stack), [id]);
    assert [id][1..] == [];
  }

  lemma ComputedOk(q: Query, s: State, w: nat, o: Outcome)
    requires Enabled(q, s, w, o) && WorkerOk(q, s.workers[w]) && s.workers[w].Computing?
    ensures WorkerOk(q, Next(q, s, w, o).workers[w])
  {
    var x, y := s.workers[w], Next(q, s, w, o).workers[w];
    MergedLeaf(q, x.stack, x.id);
    SaneAppend(q, AllLeaves(x.stack), [x.id]);
    assert y.Failing? || y.Dead? || y == Checking(Merged(x.stack, Leaf(x.id)), x.rows + q.lens[x.id]);
  }

  lemma FlushedOk(q: Query, s: State, w: nat, o: Outcome)
    requires Enabled(q, s, w, o) && WorkerOk(q, s.workers[w]) && s.workers[w].Flushing?
    ensures WorkerOk(q, Next(q, s, w, o).workers[w])
  {
    var x, y := s.workers[w], Next(q, s, w, o).workers[w];
    if x.stack != [] { FoldedLeaves(x.stack); }
    assert y.Idle? || y.Failing? || y.Dead? || (x.stack != [] && y == Waiting(Folded(x.stack), x.rows));
  }

  lemma WorkerOkKept(q: Query, s: State, w: nat, o: Outcome)
    requires Enabled(q, s, w, o) && WorkerOk(q, s.workers[w]) && PartialsOk(q, s) && Exclusive(s) && OneReply(s)
    ensures WorkerOk(q, Next(q, s, w, o).workers[w])
  {
    assert Locked(s.workers[w]) ==> Holder(s) == s.workers[w];
    if s.workers[w].Computing? {
      ComputedOk(q, s, w, o);
    } else if s.workers[w].Flushing? {
      FlushedOk(q, s, w, o);
    }
  }

  lemma WorkersOkKept(q: Query, s: State, w: nat, o: Outcome)
    requires WorkersOk(q, s) && Enabled(q, s, w, o) && PartialsOk(q, s) && Exclusive(s) && OneReply(s)
    ensures WorkersOk(q, Next(q, s, w, o))
  {
    WorkerOkKept(q, s, w, o);
    OneMoves(q, s, w, o);
  }

  /** None of the partitions handed in panics; the mutex is poisoned, or the results handed in are
      missing when they are to be combined, only if a panic is possible. */
  ghost predicate PartialsOk(q: Query, s: State) {
    && Sane(q, AllLeaves(s.partials)) && (s.poisoned ==> MayPanic(q))
    && (Open(s) && Holder(s).Combining? ==> s.partials != [])
  }

  predicate GivingUp(x: Worker) {
    x.Failing? || x.Refusing? || x.Marking?
  }

  /** The query is still open. */
  predicate Open(s: State) {
    !s.completed && !s.poisoned
  }

  /** The worker that moves and the results handed in have as many uses of partition `id` as
      before, plus the one just claimed, minus those lost by an error. */
  ghost predicate Balanced(q: Query, s: State, t: State, w: nat, id: nat)
    requires w < |s.workers| == |t.workers|
  {
    var before, after := Held(s.workers[w], id) + Uses(s.partials, id), Held(t.workers[w], id) + Uses(t.partials, id);
    if s.workers[w].Claiming? && s.batchIndex == id < |q.lens| then after == before + 1
    else if GivingUp(t.workers[w]) then after <= before
    else after == before
  }

  lemma BalancedCompute(q: Query, s: State, w: nat, o: Outcome, id: nat)
    requires Enabled(q, s, w, o) && s.workers[w].Computing? && LevelStack(s.workers[w].stack)
    ensures Balanced(q, s, Next(q, s, w, o), w, id)
  {
    var x := s.workers[w];
    HandsComputed(q, x.stack, x.rows, x.id, o);
    MoveBalanced(q, s, w, Computed(q, x.stack, x.rows, x.id, o), id);
  }

  /** Whether it computes the partition or panics, a worker has it beside its stack. */
  lemma HandsComputed(q: Query, stack: seq<Shape>, rows: nat, i: nat, o: Outcome)
    requires LevelStack(stack)
    ensures var y := Computed(q, stack, rows, i, o);
            if o == Bad then y == Failing else !GivingUp(y) && Hands(y) == AllLeaves(stack) + [i]
  {
    MergedHands(stack, i);
  }

  lemma MergedHands(stack: seq<Shape>, i: nat)
    requires LevelStack(stack)
    ensures AllLeaves(Merged(stack, Leaf(i))) == AllLeaves(stack) + [i]
  {
    var leaf := Leaf(i);
    MergedKeeps(stack, leaf);
    assert Leaves(leaf) == [i];
  }

  lemma BalancedFlush(q: Query, s: State, w: nat, o: Outcome, id: nat)
    requires Enabled(q, s, w, o) && s.workers[w].Flushing?
    ensures Balanced(q, s, Next(q, s, w, o), w, id)
  {
    var x := s.workers[w];
    HandsFlushed(x.stack, x.rows, o);
    MoveBalanced(q, s, w, Flushed(x.stack, x.rows, o), id);
  }

  lemma HandsFlushed(stack: seq<Shape>, rows: nat, o: Outcome)
    ensures var y := Flushed(stack, rows, o);
            y == Failing || (!GivingUp(y) && Hands(y) == AllLeaves(stack))
  {
    if stack != [] { FoldedLeaves(stack); }
  }

  lemma MoveBalanced(q: Query, s: State, w: nat, y: Worker, id: nat)
    requires w < |s.workers| && !s.workers[w].Claiming?
    requires y == Failing || (!GivingUp(y) && Hands(y) == Hands(s.workers[w]))
    ensures Balanced(q, s, Move(s, w, y), w, id)
  {
  }

  lemma NoUses(id: nat)
    ensures Uses([], id) == 0
  {
  }

  lemma BalancedPush(q: Query, s: State, w: nat, o: Outcome, id: nat)
    requires Enabled(q, s, w, o) && s.workers[w].Pushing? && !s.completed
    ensures Balanced(q, s, Next(q, s, w, o), w, id)
  {
    var x, t := s.workers[w], Next(q, s, w, o);
    UsesSnoc(s.partials, x.result, id);
    assert t.partials == s.partials + [x.result] && (t.workers[w].Idle? || t.workers[w].Combining?);
  }

  lemma BalancedCombine(q: Query, s: State, w: nat, o: Outcome, id: nat)
    requires Enabled(q, s, w, o) && s.workers[w].Combining?
    requires !Next(q, s, w, o).poisoned
    ensures Balanced(q, s, Next(q, s, w, o), w, id)
  {
    CombineMoves(q, s, w, o);
    NoUses(id);
    UseFolded(s.partials, id);
    HeldNothing(s.workers[w], id);
    if o == Bad {
      HeldNothing(Marking, id);
    } else {
      assert Held(Sending(Folded(s.partials)), id) == Use(Folded(s.partials), id);
    }
  }

  lemma HeldNothing(x: Worker, id: nat)
    requires Hands(x) == []
    ensures Held(x, id) == 0
  {
  }

  lemma CombineMoves(q: Query, s: State, w: nat, o: Outcome)
    requires Enabled(q, s, w, o) && s.workers[w].Combining? && !Next(q, s, w, o).poisoned
    ensures var t := Next(q, s, w, o);
            s.partials != [] && t.partials == [] && w < |t.workers| && t.workers[w] == if o == Bad then Marking else Sending(Folded(s.partials))
  {
  }

  /** A worker that keeps its stack, or its result. */
  predicate SameHands(x: Worker, y: Worker) {
    || ((x.Claiming? || x.Checking?) && (y.Claiming? || y.Flushing?) && x.stack == y.stack)
    || ((x.Waiting? || x.Pushing? || x.Sending?) && (y.Pushing? || y.Storing?) && x.result == y.result)
    || (EmptyHanded(x) && (EmptyHanded(y) || y == Claiming([], 0)))
  }

  predicate EmptyHanded(x: Worker) {
    x.Idle? || x.Failing? || x.Refusing? || x.Marking? || x.Blocking? || x.Reporting?
  }

  /** All other steps: the worker keeps what it has, but for a partition just claimed. */
  lemma OtherStep(q: Query, s: State, w: nat, o: Outcome)
    requires Enabled(q, s, w, o) && Open(s) && !s.workers[w].Computing? && !s.workers[w].Flushing?
    requires !s.workers[w].Pushing? && !s.workers[w].Combining? && !s.workers[w].Storing?
    ensures var x, y := s.workers[w], Next(q, s, w, o).workers[w];
            && Next(q, s, w, o).partials == s.partials
            && if x.Claiming? && s.batchIndex < |q.lens| then y == Computing(x.stack, x.rows, s.batchIndex) else SameHands(x, y) && !y.Dead?
  {
  }

  lemma BalancedOther(q: Query, s: State, w: nat, o: Outcome, id: nat)
    requires Enabled(q, s, w, o) && Open(s) && !s.workers[w].Computing? && !s.workers[w].Flushing?
    requires !s.workers[w].Pushing? && !s.workers[w].Combining? && !s.workers[w].Storing?
    ensures Balanced(q, s, Next(q, s, w, o), w, id)
  {
    OtherStep(q, s, w, o);
    var x, t := s.workers[w], Next(q, s, w, o);
    if x.Claiming? && s.batchIndex < |q.lens| {
      CountSnoc(AllLeaves(x.stack), s.batchIndex, id);
    } else {
      SameHandsHold(x, t.workers[w]);
    }
  }

  lemma CountSnoc(x: seq<nat>, i: nat, id: nat)
    ensures multiset(x + [i])[id] == multiset(x)[id] + if i == id then 1 else 0
  {
  }

  lemma SameHandsHold(x: Worker, y: Worker)
    requires SameHands(x, y)
    ensures Hands(x) == Hands(y)
  {
  }

  lemma BalancedStep(q: Query, s: State, w: nat, o: Outcome, id: nat)
    requires WorkersOk(q, s) && Enabled(q, s, w, o)
    requires var t := Next(q, s, w, o); Open(s) && Open(t)
    ensures Balanced(q, s, Next(q, s, w, o), w, id)
  {
    var x := s.workers[w];
    if x.Computing? {
      BalancedCompute(q, s, w, o, id);
    } else if x.Flushing? {
      BalancedFlush(q, s, w, o, id);
    } else if x.Pushing? {
      BalancedPush(q, s, w, o, id);
    } else if x.Combining? {
      BalancedCombine(q, s, w, o, id);
    } else {
      BalancedOther(q, s, w, o, id);
    }
  }

  /** While the query is open, partitions only enter by being claimed and only get lost by an
      error. */
  lemma OwnedStep(q: Query, s: State, w: nat, o: Outcome, id: nat)
    requires WorkersOk(q, s) && Enabled(q, s, w, o)
    requires var t := Next(q, s, w, o); Open(s) && Open(t)
    ensures var t := Next(q, s, w, o);
            if s.workers[w].Claiming? && s.batchIndex == id < |q.lens| then Owned(t, id) == Owned(s, id) + 1
            else if GivingUp(t.workers[w]) then Owned(t, id) <= Owned(s, id)
            else Owned(t, id) == Owned(s, id)
  {
    OneMoves(q, s, w, o);
    HeldUpdate(s.workers, w, Next(q, s, w, o).workers[w], id);
    BalancedStep(q, s, w, o, id);
  }

  lemma OneMoves(q: Query, s: State, w: nat, o: Outcome)
    requires Enabled(q, s, w, o)
    ensures var t := Next(q, s, w, o);
            w < |t.workers| && t.workers == s.workers[w := t.workers[w]] && (s.completed ==> t.completed) && (s.poisoned ==> t.poisoned)
    ensures var t := Next(q, s, w, o);
            !s.workers[w].Blocking? ==> t.batchIndex == s.batchIndex + if s.workers[w].Claiming? then 1 else 0
  {
  }

  /** No partition is claimed or merged twice. */
  ghost predicate Accounted(q: Query, s: State) {
    forall id: nat :: Owned(s, id) <= if id < |q.lens| && id < s.batchIndex then 1 else 0
  }

  /** No claimed partition gets lost, unless a worker is about to report an error. */
  ghost predicate NoneLost(q: Query, s: State) {
    || (exists w :: 0 <= w < |s.workers| && GivingUp(s.workers[w]))
    || forall id: nat :: id < |q.lens| && id < s.batchIndex ==> Owned(s, id) > 0
  }

  lemma AccountedKept(q: Query, s: State, w: nat, o: Outcome)
    requires WorkersOk(q, s) && Enabled(q, s, w, o) && Accounted(q, s)
    requires var t := Next(q, s, w, o); Open(s) && Open(t)
    ensures Accounted(q, Next(q, s, w, o))
  {
    var t := Next(q, s, w, o);
    OneMoves(q, s, w, o);
    forall id: nat ensures Owned(t, id) <= if id < |q.lens| && id < t.batchIndex then 1 else 0 {
      assert Owned(s, id) <= if id < |q.lens| && id < s.batchIndex then 1 else 0;
      OwnedStep(q, s, w, o, id);
    }
  }

  /** A worker about to report an error keeps at it while the query is open. */
  lemma GivingUpStays(q: Query, s: State, w: nat, o: Outcome, v: nat)
    requires Enabled(q, s, w, o) && v < |s.workers| && GivingUp(s.workers[v])
    requires var t := Next(q, s, w, o); Open(s) && Open(t)
    ensures var t := Next(q, s, w, o); v < |t.workers| && GivingUp(t.workers[v])
  {
  }

  lemma NoneLostKept(q: Query, s: State, w: nat, o: Outcome)
    requires WorkersOk(q, s) && Enabled(q, s, w, o) && NoneLost(q, s) && Exclusive(s) && OneReply(s)
    requires var t := Next(q, s, w, o); Open(s) && Open(t)
    ensures NoneLost(q, Next(q, s, w, o))
  {
    OneMoves(q, s, w, o);
    var t := Next(q, s, w, o);
    if v :| 0 <= v < |s.workers| && GivingUp(s.workers[v]) {
      GivingUpStays(q, s, w, o, v);
    } else if !GivingUp(t.workers[w]) {
      assert Locked(s.workers[w]) ==> s.workers[w] == Holder(s);
      forall id: nat | id < |q.lens| && id < t.batchIndex ensures Owned(t, id) > 0 {
        assert id < s.batchIndex ==> Owned(s, id) > 0;
        OwnedStep(q, s, w, o, id);
      }
    }
  }

  // ---------------------------------------------------------------- when the reply is due

  /** The condition under which `push_result` replies. */
  predicate Due(q: Query, batches: nat, rows: nat) {
    batches == |q.lens| || SufficientRows(q, rows)
  }

  /** The counters agree with the results handed in; a reply is due only while it is being
      prepared. */
  ghost predicate Counted(q: Query, s: State) {
    var x := Holder(s);
    x.Sending? || x.Storing? || x.Marking? ||
    (&& s.completedBatches == |AllLeaves(s.partials)|
     && s.rowsCollected == Collected(q, AllLeaves(s.partials))
     && (if x.Combining? then s.partials != [] && Due(q, s.completedBatches, s.rowsCollected)
         else s.completedBatches < |q.lens| && !SufficientRows(q, s.rowsCollected)))
  }

  /** A result that may be sent. */
  ghost predicate Answers(q: Query, r: Shape) {
    Distinct(|q.lens|, Leaves(r)) && Sane(q, Leaves(r)) && Due(q, BatchCount(r), Collected(q, Leaves(r)))
  }

  ghost predicate RepliesOk(q: Query, s: State) {
    && (Holder(s).Sending? || Holder(s).Storing? ==> Answers(q, Holder(s).result))
    && forall i :: 0 <= i < |s.replies| ==> s.replies[i] != Empty && (s.replies[i].Answer? ==> Answers(q, s.replies[i].result))
  }

  lemma PartialsDistinct(q: Query, s: State)
    requires Accounted(q, s)
    ensures Distinct(|q.lens|, AllLeaves(s.partials))
  {
    forall id: nat ensures multiset(AllLeaves(s.partials))[id] <= if id < |q.lens| then 1 else 0 {
      assert Owned(s, id) <= if id < |q.lens| && id < s.batchIndex then 1 else 0;
    }
    DistinctFromCounts(|q.lens|, AllLeaves(s.partials));
  }

  lemma CountedPush(q: Query, s: State, w: nat, o: Outcome)
    requires WorkersOk(q, s) && Enabled(q, s, w, o) && Accounted(q, s) && Counted(q, s) && Exclusive(s)
    requires s.workers[w].Pushing? && Open(s)
    ensures Counted(q, Next(q, s, w, o))
  {
    var x, t := s.workers[w], Next(q, s, w, o);
    ExclusiveKept(q, s, w, o);
    AccountedKept(q, s, w, o);
    assert t.partials == s.partials + [x.result];
    AllLeavesSnoc(s.partials, x.result);
    CollectedAppend(q, AllLeaves(s.partials), Leaves(x.result));
    CountLeaves(x.result);
    PartialsDistinct(q, t);
    Pigeonhole(|q.lens|, AllLeaves(t.partials));
  }

  lemma CountedKept(q: Query, s: State, w: nat, o: Outcome)
    requires WorkersOk(q, s) && Enabled(q, s, w, o) && Accounted(q, s) && Counted(q, s) && Exclusive(s)
    requires var t := Next(q, s, w, o); Open(s) && Open(t)
    ensures Counted(q, Next(q, s, w, o))
  {
    var t := Next(q, s, w, o);
    if s.workers[w].Pushing? {
      CountedPush(q, s, w, o);
    } else {
      ExclusiveKept(q, s, w, o);
      assert Locked(s.workers[w]) ==> Holder(s) == s.workers[w];
      assert !Locked(s.workers[w]) ==> Holder(t) == Holder(s) || (s.holder == None && t.holder == Some(w));
    }
  }

  lemma RepliesOkKept(q: Query, s: State, w: nat, o: Outcome)
    requires Enabled(q, s, w, o) && Exclusive(s) && RepliesOk(q, s) && Sane(q, AllLeaves(s.partials))
    requires Open(s) ==> Accounted(q, s) && Counted(q, s)
    requires OneReply(s)
    ensures RepliesOk(q, Next(q, s, w, o))
  {
    var t := Next(q, s, w, o);
    ExclusiveKept(q, s, w, o);
    assert Locked(s.workers[w]) ==> Holder(s) == s.workers[w];
    assert !Locked(s.workers[w]) ==> Holder(t) == Holder(s) || (s.holder == None && t.holder == Some(w));
    if s.workers[w].Combining? && Holder(t).Sending? {
      PartialsDistinct(q, s);
      FoldedLeaves(s.partials);
      CountLeaves(Folded(s.partials));
    }
  }

  // ---------------------------------------------------------------- the invariant

  ghost predicate Inv(q: Query, s: State) {
    && Exclusive(s) && OneReply(s) && WorkersOk(q, s) && RepliesOk(q, s)
    && PartialsOk(q, s) && (s.poisoned ==> OutputMayPanic(q) || q.mergesPanic)
    && (Open(s) ==> Accounted(q, s) && NoneLost(q, s) && Counted(q, s))
  }

  /** Only a panic under the mutex poisons it: in combining the results handed in, in the final pass
      or in the conversion to rows. */
  lemma PoisonKept(q: Query, s: State, w: nat, o: Outcome)
    requires Exclusive(s) && OneReply(s) && Enabled(q, s, w, o) && (s.poisoned ==> OutputMayPanic(q) || q.mergesPanic)
    requires Open(s) ==> Counted(q, s)
    ensures Next(q, s, w, o).poisoned ==> OutputMayPanic(q) || q.mergesPanic
    ensures Next(q, s, w, o).poisoned && !s.poisoned ==> s.workers[w].Combining? && o == Panic
  {
    assert Locked(s.workers[w]) ==> Holder(s) == s.workers[w];
  }

  lemma PartialsOkKept(q: Query, s: State, w: nat, o: Outcome)
    requires Inv(q, s) && Enabled(q, s, w, o)
    ensures PartialsOk(q, Next(q, s, w, o))
  {
    var x, t := s.workers[w], Next(q, s, w, o);
    PoisonKept(q, s, w, o);
    if x.Pushing? {
      AllLeavesSnoc(s.partials, x.result);
      SaneAppend(q, AllLeaves(s.partials), Leaves(x.result));
    }
    if Open(t) { CountedKept(q, s, w, o); }
  }

  lemma InvKept(q: Query, s: State, w: nat, o: Outcome)
    requires Inv(q, s) && Enabled(q, s, w, o)
    ensures Inv(q, Next(q, s, w, o))
  {
    ExclusiveKept(q, s, w, o);
    OneReplyKept(q, s, w, o);
    WorkersOkKept(q, s, w, o);
    RepliesOkKept(q, s, w, o);
    OneMoves(q, s, w, o);
    PoisonKept(q, s, w, o);
    PartialsOkKept(q, s, w, o);
    if Open(Next(q, s, w, o)) {
      AccountedKept(q, s, w, o);
      NoneLostKept(q, s, w, o);
      CountedKept(q, s, w, o);
    }
  }

  lemma {:induction false} NothingHeld(ws: seq<Worker>, id: nat)
    requires forall w :: 0 <= w < |ws| ==> ws[w] == Idle
    ensures AllHeld(ws, id) == 0
  {
    if ws != [] {
      NothingHeld(ws[1..], id);
    }
  }

  lemma InvInit(q: Query, s: State)
    requires Init(q, s) && |q.lens| > 0
    ensures Inv(q, s)
  {
    forall id: nat ensures Owned(s, id) == 0 {
      NothingHeld(s.workers, id);
    }
  }

  lemma {:induction false} InvReached(q: Query, tr: seq<State>, i: nat)
    requires Run(q, tr) && |q.lens| > 0 && i < |tr|
    ensures Inv(q, tr[i])
  {
    if i == 0 {
      InvInit(q, tr[0]);
    } else {
      InvReached(q, tr, i - 1);
      assert Step(q, tr[i - 1], tr[i]);
      var w: nat, o :| Enabled(q, tr[i - 1], w, o) && tr[i] == Next(q, tr[i - 1], w, o);
      InvKept(q, tr[i - 1], w, o);
    }
  }

  // ---------------------------------------------------------------- no partitions at all

  ghost predicate NothingToDo(s: State) {
    && s.replies == [Empty] && s.holder == None
    && forall w :: 0 <= w < |s.workers| ==>
         s.workers[w].Idle? || ((s.workers[w].Claiming? || s.workers[w].Flushing?) && s.workers[w].stack == [])
  }

  lemma {:induction false} EmptyReached(q: Query, tr: seq<State>, i: nat)
    requires Run(q, tr) && |q.lens| == 0 && i < |tr|
    ensures NothingToDo(tr[i])
  {
    if i > 0 {
      EmptyReached(q, tr, i - 1);
      assert Step(q, tr[i - 1], tr[i]);
    }
  }

  // ---------------------------------------------------------------- what every run satisfies

  ghost function Last(tr: seq<State>): State
    requires tr != []
  {
    tr[|tr| - 1]
  }

  /** At most one reply is ever sent. */
  lemma AtMostOneReply(q: Query, tr: seq<State>)
    requires Run(q, tr)
    ensures |Last(tr).replies| <= 1
  {
    if |q.lens| == 0 {
      EmptyReached(q, tr, |tr| - 1);
    } else {
      InvReached(q, tr, |tr| - 1);
    }
  }

  /** An answer merges no partition twice, and all of them unless a select without order has
      more rows than its limit. */
  lemma AnswerComplete(q: Query, tr: seq<State>, r: Shape)
    requires Run(q, tr) && Answer(r) in Last(tr).replies
    ensures Distinct(|q.lens|, Leaves(r))
    ensures OneEach(|q.lens|, r) || SufficientRows(q, Collected(q, Leaves(r)))
    ensures BatchCount(r) == |q.lens| ==> OneEach(|q.lens|, r)
    ensures Sane(q, Leaves(r))
  {
    if |q.lens| == 0 {
      EmptyReached(q, tr, |tr| - 1);
    } else {
      InvReached(q, tr, |tr| - 1);
      CountLeaves(r);
      Pigeonhole(|q.lens|, Leaves(r));
    }
  }

  /** Every worker has returned, and none will start again: `Task::completed` holds. */
  ghost predicate Quiescent(q: Query, s: State) {
    && (s.completed || s.batchIndex >= |q.lens|)
    && forall w :: 0 <= w < |s.workers| ==> s.workers[w].Idle? || s.workers[w].Dead?
  }

  /** A worker has died with some partition. */
  ghost predicate DiedHolding(s: State) {
    exists w :: 0 <= w < |s.workers| && s.workers[w].Dead? && s.workers[w].held != []
  }

  lemma {:induction false} AtRestHoldNothing(ws: seq<Worker>, id: nat)
    requires forall w :: 0 <= w < |ws| ==> ws[w].Idle? || ws[w] == Dead([])
    ensures AllHeld(ws, id) == 0
  {
    if ws != [] {
      AtRestHoldNothing(ws[1..], id);
    }
  }

  lemma AtRestOwned(s: State, id: nat)
    requires forall w :: 0 <= w < |s.workers| ==> s.workers[w].Idle? || s.workers[w] == Dead([])
    requires id !in AllLeaves(s.partials)
    ensures Owned(s, id) == 0
  {
    AtRestHoldNothing(s.workers, id);
  }

  /** When all have returned, no reply has been sent if and only if the mutex is poisoned, or the query
      is not completed and a worker has died with a partition it had claimed. */
  lemma ReplySent(q: Query, tr: seq<State>)
    requires Run(q, tr) && Quiescent(q, Last(tr))
    ensures |q.lens| > 0 ==> (Last(tr).replies == [] <==> Last(tr).poisoned || (!Last(tr).completed && DiedHolding(Last(tr))))
    ensures Last(tr).replies == [] ==> MayPanic(q)
  {
    var s := Last(tr);
    if |q.lens| == 0 {
      EmptyReached(q, tr, |tr| - 1);
    } else {
      InvReached(q, tr, |tr| - 1);
      assert Open(s) ==> Accounted(q, s) && forall id: nat :: id < |q.lens| ==> Owned(s, id) > 0;
      if Open(s) && !DiedHolding(s) {
        PartialsDistinct(q, s);
        var x := Missing(|q.lens|, AllLeaves(s.partials));
        AtRestOwned(s, x);
      }
      if DiedHolding(s) {
        var w :| 0 <= w < |s.workers| && s.workers[w].Dead? && s.workers[w].held != [];
        assert WorkerOk(q, s.workers[w]);
      }
    }
  }

  /** Without panics the reply is always sent. */
  lemma CalmReplySent(q: Query, tr: seq<State>)
    requires Run(q, tr) && Quiescent(q, Last(tr)) && !MayPanic(q)
    ensures |Last(tr).replies| == 1
  {
    ReplySent(q, tr);
    AtMostOneReply(q, tr);
  }

  /** A query that needs all partitions is answered only if the computation of none of them panics. */
  lemma AnswerSane(q: Query, tr: seq<State>, r: Shape, id: nat)
    requires Run(q, tr) && Answer(r) in Last(tr).replies && !q.unordered && id < |q.lens|
    ensures id !in q.panics
  {
    AnswerComplete(q, tr, r);
    assert Ids(|q.lens|)[id] == id;
    assert id in multiset(Ids(|q.lens|)) && id in multiset(Leaves(r));
    var i :| 0 <= i < |Leaves(r)| && Leaves(r)[i] == id;
  }

  // ---------------------------------------------------------------- progress

  /** Unless all have returned, some worker can go on. */
  lemma NoDeadlock(q: Query, tr: seq<State>, v: nat) returns (w: nat, o: Outcome)
    requires Run(q, tr) && v < |Last(tr).workers| && !Last(tr).workers[v].Idle? && !Last(tr).workers[v].Dead?
    ensures w < |Last(tr).workers| && !Last(tr).workers[w].Idle? && Enabled(q, Last(tr), w, o)
  {
    var s := Last(tr);
    if |q.lens| == 0 {
      EmptyReached(q, tr, |tr| - 1);
      w := v;
    } else {
      InvReached(q, tr, |tr| - 1);
      w := if s.holder.Some? then s.holder.value else v;
    }
    o := if s.workers[w].Computing? && s.workers[w].id in q.panics then Panic else Good;
  }

  /** How many steps a worker may still take without claiming a partition. */
  ghost function Rank(x: Worker): nat {
    match x
    case Idle => 0
    case Dead(_) => 0
    case Storing(_) => 1
    case Sending(_) => 2
    case Reporting => 1
    case Blocking => 2
    case Marking => 3
    case Combining => 4
    case Pushing(_, _) => 5
    case Waiting(_, _) => 6
    case Refusing => 4
    case Failing => 5
    case Flushing(_, _) => 7
    case Claiming(_, _) => 8
    case Checking(_, _) => 9
    case Computing(_, _, _) => 10
  }

  ghost function Ranks(ws: seq<Worker>): nat {
    if ws == [] then 0 else Rank(ws[0]) + Ranks(ws[1..])
  }

  lemma {:induction false} RanksUpdate(ws: seq<Worker>, w: nat, x: Worker)
    requires w < |ws|
    ensures Ranks(ws[w := x]) == Ranks(ws) - Rank(ws[w]) + Rank(x)
  {
    var us := ws[w := x];
    if w == 0 {
      assert us[1..] == ws[1..];
    } else {
      assert us[1..] == ws[1..][w - 1 := x];
      RanksUpdate(ws[1..], w - 1, x);
    }
  }

  /** The work left: unclaimed partitions, and what the workers have begun. */
  ghost function Work(q: Query, s: State): nat {
    3 * (|q.lens| - Min(s.batchIndex, |q.lens|)) + Ranks(s.workers)
  }

  lemma RankStep(q: Query, s: State, w: nat, o: Outcome)
    requires Enabled(q, s, w, o)
    ensures var x, y := s.workers[w], Next(q, s, w, o).workers[w];
            if x.Idle? then Rank(y) == 8 else if x.Claiming? && s.batchIndex < |q.lens| then Rank(y) == 10 else Rank(y) < Rank(x)
  {
  }

  lemma WorkStep(q: Query, s: State, w: nat, o: Outcome)
    requires Enabled(q, s, w, o)
    ensures if s.workers[w].Idle? then Work(q, Next(q, s, w, o)) == Work(q, s) + 8 else Work(q, Next(q, s, w, o)) < Work(q, s)
  {
    OneMoves(q, s, w, o);
    RankStep(q, s, w, o);
    RanksUpdate(s.workers, w, Next(q, s, w, o).workers[w]);
    assert s.workers[w].Blocking? ==> Next(q, s, w, o).batchIndex == |q.lens|;
  }

  /** How many of the first `i` steps of a run start a worker. */
  ghost function Starts(tr: seq<State>, i: nat): nat
    requires i < |tr|
  {
    if i == 0 then 0 else Starts(tr, i - 1) + if IsStart(tr[i - 1], tr[i]) then 1 else 0
  }

  ghost predicate IsStart(s: State, t: State) {
    exists w :: 0 <= w < |s.workers| && w < |t.workers| && s.workers[w].Idle? && t.workers[w].Claiming?
  }

  lemma {:induction false} NoRanks(ws: seq<Worker>)
    requires forall w :: 0 <= w < |ws| ==> ws[w] == Idle
    ensures Ranks(ws) == 0
  {
    if ws != [] {
      NoRanks(ws[1..]);
    }
  }

  lemma StepWorks(q: Query, s: State, t: State)
    requires Step(q, s, t)
    ensures Work(q, t) + 1 <= Work(q, s) + if IsStart(s, t) then 9 else 0
  {
    var w: nat, o :| Enabled(q, s, w, o) && t == Next(q, s, w, o);
    WorkStep(q, s, w, o);
    OneMoves(q, s, w, o);
    assert s.workers[w].Idle? ==> t.workers[w].Claiming?;
  }

  /** No run is longer than the partitions and the starts of workers account for. */
  lemma {:induction false} RunsEnd(q: Query, tr: seq<State>, i: nat)
    requires Run(q, tr) && i < |tr|
    ensures i + Work(q, tr[i]) <= 3 * |q.lens| + 9 * Starts(tr, i)
  {
    if i == 0 {
      NoRanks(tr[0].workers);
    } else {
      var j: nat := i - 1;
      RunsEnd(q, tr, j);
      assert Step(q, tr[i - 1], tr[i]);
      StepWorks(q, tr[j], tr[i]);
    }
  }
}
