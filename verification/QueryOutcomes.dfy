/** Which reply a query gets.  Runs are labelled with the worker of every step and how its operation
    turned out; the outcomes decide whether the reply is a result or an error. */
module QueryOutcomes {
  import opened Types
  import opened MergeTree
  import opened WorkerStack
  import opened Seqs
  import opened Indices
  import opened QueryTask

  /** Which worker takes a step, and how its operation turns out. */
  datatype Label = Label(worker: nat, outcome: Outcome)

  ghost predicate StepAt(q: Query, s: State, x: Label, t: State) {
    Enabled(q, s, x.worker, x.outcome) && t == Next(q, s, x.worker, x.outcome)
  }

  /** A run and the labels of its steps. */
  ghost predicate Labelled(q: Query, tr: seq<State>, steps: seq<Label>) {
    && |tr| == |steps| + 1 && Init(q, tr[0])
    && forall i :: 0 <= i < |steps| ==> StepAt(q, tr[i], steps[i], tr[i + 1])
  }

  lemma LabelledRuns(q: Query, tr: seq<State>, steps: seq<Label>)
    requires Labelled(q, tr, steps)
    ensures Run(q, tr)
  {
    forall i | 0 < i < |tr| ensures Step(q, tr[i - 1], tr[i]) {
      assert StepAt(q, tr[i - 1], steps[i - 1], tr[i - 1 + 1]);
    }
  }

  /** Every run has labels. */
  lemma {:induction false} RunsLabelled(q: Query, tr: seq<State>) returns (steps: seq<Label>)
    requires Run(q, tr)
    ensures Labelled(q, tr, steps)
    decreases |tr|
  {
    if |tr| == 1 {
      steps := [];
    } else {
      var n := |tr| - 1;
      var before := RunsLabelled(q, tr[..n]);
      assert Step(q, tr[n - 1], tr[n]);
      var w: nat, o :| Enabled(q, tr[n - 1], w, o) && tr[n] == Next(q, tr[n - 1], w, o);
      steps := before + [Label(w, o)];
      forall i | 0 <= i < |steps| ensures StepAt(q, tr[i], steps[i], tr[i + 1]) {
        if i < n - 1 { assert StepAt(q, tr[..n][i], before[i], tr[..n][i + 1]); }
      }
    }
  }

  /** Every operation of the first `n` steps turns out well. */
  ghost predicate AllGood(steps: seq<Label>, n: nat)
    requires n <= |steps|
  {
    forall i :: 0 <= i < n ==> steps[i].outcome == Good
  }

  /** An operation of the first `n` steps fails. */
  ghost predicate SomeBad(steps: seq<Label>, n: nat)
    requires n <= |steps|
  {
    exists i :: 0 <= i < n && steps[i].outcome == Bad
  }

  // ---------------------------------------------------------------- errors come from failures

  /** The worker is on its way to report an error. */
  predicate Erring(x: Worker) {
    x.Failing? || x.Refusing? || x.Marking? || x.Blocking? || x.Reporting?
  }

  ghost predicate SomeErring(s: State) {
    Failure in s.replies || exists w :: 0 <= w < |s.workers| && Erring(s.workers[w])
  }

  /** Only a failed operation sends a worker that way. */
  lemma ErringStep(q: Query, s: State, w: nat, o: Outcome)
    requires Enabled(q, s, w, o)
    ensures Erring(Next(q, s, w, o).workers[w]) ==> Erring(s.workers[w]) || o == Bad
    ensures Failure in Next(q, s, w, o).replies ==> Failure in s.replies || Erring(s.workers[w])
  {
  }

  lemma {:induction false} ErringReached(q: Query, tr: seq<State>, steps: seq<Label>, n: nat)
    requires Labelled(q, tr, steps) && n <= |steps| && SomeErring(tr[n])
    ensures SomeBad(steps, n)
  {
    if n > 0 {
      var s, x := tr[n - 1], steps[n - 1];
      assert StepAt(q, s, x, tr[n - 1 + 1]);
      OneMoves(q, s, x.worker, x.outcome);
      ErringStep(q, s, x.worker, x.outcome);
      if x.outcome != Bad {
        if Failure in tr[n].replies {
          assert SomeErring(s);
        } else {
          var w :| 0 <= w < |tr[n].workers| && Erring(tr[n].workers[w]);
          assert Erring(s.workers[w]);
        }
        ErringReached(q, tr, steps, n - 1);
      }
    }
  }

  /** An error is sent only if some operation has failed. */
  lemma FailureNeedsBad(q: Query, tr: seq<State>, steps: seq<Label>)
    requires Labelled(q, tr, steps) && Failure in Last(tr).replies
    ensures SomeBad(steps, |steps|)
  {
    ErringReached(q, tr, steps, |steps|);
  }

  // ---------------------------------------------------------------- a calm run is answered

  /** No worker has died. */
  ghost predicate Calm(s: State) {
    !s.poisoned && forall w :: 0 <= w < |s.workers| ==> !s.workers[w].Dead?
  }

  lemma CalmStep(q: Query, s: State, w: nat)
    requires Inv(q, s) && Calm(s) && Enabled(q, s, w, Good)
    ensures Calm(Next(q, s, w, Good))
  {
    PoisonKept(q, s, w, Good);
    OneMoves(q, s, w, Good);
  }

  lemma {:induction false} CalmReached(q: Query, tr: seq<State>, steps: seq<Label>, n: nat)
    requires Labelled(q, tr, steps) && n <= |steps| && AllGood(steps, n) && |q.lens| > 0
    ensures Calm(tr[n])
  {
    if n > 0 {
      CalmReached(q, tr, steps, n - 1);
      LabelledRuns(q, tr, steps);
      InvReached(q, tr, n - 1);
      assert StepAt(q, tr[n - 1], steps[n - 1], tr[n - 1 + 1]);
      CalmStep(q, tr[n - 1], steps[n - 1].worker);
    }
  }

  /** If no operation fails or panics, the reply is the result, of every partition once or of sufficient
      rows. */
  lemma GoodAnswered(q: Query, tr: seq<State>, steps: seq<Label>) returns (r: Shape)
    requires Labelled(q, tr, steps) && Quiescent(q, Last(tr)) && AllGood(steps, |steps|) && |q.lens| > 0
    ensures Last(tr).replies == [Answer(r)]
    ensures OneEach(|q.lens|, r) || SufficientRows(q, Collected(q, Leaves(r)))
  {
    var s := Last(tr);
    LabelledRuns(q, tr, steps);
    CalmReached(q, tr, steps, |steps|);
    ReplySent(q, tr);
    AtMostOneReply(q, tr);
    InvReached(q, tr, |tr| - 1);
    if s.replies[0] == Failure { FailureNeedsBad(q, tr, steps); }
    assert s.replies[0].Answer?;
    r := s.replies[0].result;
    AnswerComplete(q, tr, r);
  }

  lemma InvAt(q: Query, tr: seq<State>, steps: seq<Label>, i: nat)
    requires Labelled(q, tr, steps) && |q.lens| > 0 && i < |steps|
    ensures Inv(q, tr[i]) && StepAt(q, tr[i], steps[i], tr[i + 1])
  {
    LabelledRuns(q, tr, steps);
    InvReached(q, tr, i);
  }

  // ---------------------------------------------------------------- a failure under the mutex

  /** The mutex is held for the report of an error, or the error has been sent. */
  ghost predicate Refused(s: State) {
    s.replies == [Failure] || (s.replies == [] && (Holder(s).Marking? || Holder(s).Blocking? || Holder(s).Reporting?))
  }

  lemma RefusedKept(q: Query, s: State, w: nat, o: Outcome)
    requires Inv(q, s) && Refused(s) && Enabled(q, s, w, o)
    ensures Refused(Next(q, s, w, o))
  {
    InvKept(q, s, w, o);
    assert Locked(s.workers[w]) ==> Holder(s) == s.workers[w];
    assert !Locked(s.workers[w]) && s.holder.Some? ==> Holder(Next(q, s, w, o)) == Holder(s);
  }

  lemma BadRefuses(q: Query, s: State, w: nat)
    requires Inv(q, s) && Enabled(q, s, w, Bad) && s.workers[w].Combining?
    ensures Refused(Next(q, s, w, Bad))
  {
    assert Holder(s) == s.workers[w];
  }

  /** Combining the results handed in fails at step `k`. */
  ghost predicate CombineFails(tr: seq<State>, steps: seq<Label>, k: nat)
    requires |tr| == |steps| + 1
  {
    k < |steps| && steps[k].outcome == Bad && steps[k].worker < |tr[k].workers| && tr[k].workers[steps[k].worker].Combining?
  }

  lemma {:induction false} RefusedReached(q: Query, tr: seq<State>, steps: seq<Label>, k: nat, n: nat)
    requires Labelled(q, tr, steps) && |q.lens| > 0 && k < n <= |steps| && CombineFails(tr, steps, k)
    ensures Refused(tr[n])
    decreases n
  {
    var i: nat := n - 1;
    var x := steps[i];
    InvAt(q, tr, steps, i);
    if k == i {
      BadRefuses(q, tr[i], x.worker);
    } else {
      RefusedReached(q, tr, steps, k, i);
      RefusedKept(q, tr[i], x.worker, x.outcome);
    }
  }

  /** If combining the results handed in fails, no answer is ever sent, and in the end the error is. */
  lemma BadCombineFails(q: Query, tr: seq<State>, steps: seq<Label>, k: nat)
    requires Labelled(q, tr, steps) && |q.lens| > 0 && CombineFails(tr, steps, k)
    ensures forall r :: Answer(r) !in Last(tr).replies
    ensures Quiescent(q, Last(tr)) ==> Last(tr).replies == [Failure]
  {
    RefusedReached(q, tr, steps, k, |steps|);
    LabelledRuns(q, tr, steps);
    InvReached(q, tr, |tr| - 1);
  }

  // ---------------------------------------------------------------- queries that need all partitions

  /** The answer is neither sent nor about to be. */
  ghost predicate NoAnswer(s: State) {
    !Holder(s).Sending? && !Holder(s).Storing? && forall i :: 0 <= i < |s.replies| ==> !s.replies[i].Answer?
  }

  /** Partition `id` has been claimed and will not be handed in: nobody has it, or a dead worker. */
  ghost predicate Gone(s: State, id: nat) {
    id < s.batchIndex && (Owned(s, id) == 0 || exists w: nat :: DiedWith(s, w, id))
  }

  ghost predicate DiedWith(s: State, w: nat, id: nat) {
    w < |s.workers| && s.workers[w].Dead? && id in s.workers[w].held
  }

  /** The answer cannot be sent any more. */
  ghost predicate Spoiled(q: Query, s: State) {
    NoAnswer(s) && (!Open(s) || Holder(s).Marking? || exists id: nat :: id < |q.lens| && Gone(s, id))
  }

  lemma {:induction false} HeldByOne(ws: seq<Worker>, w: nat, id: nat)
    requires w < |ws|
    ensures AllHeld(ws, id) >= Held(ws[w], id)
  {
    if w > 0 { HeldByOne(ws[1..], w - 1, id); }
  }

  /** A partition of a worker has been claimed, and nobody else has it. */
  lemma HandOwned(q: Query, s: State, w: nat, id: nat)
    requires Accounted(q, s) && w < |s.workers| && id in Hands(s.workers[w])
    ensures id < |q.lens| && id < s.batchIndex && Owned(s, id) == Held(s.workers[w], id) == 1
  {
    HeldByOne(s.workers, w, id);
    assert id in multiset(Hands(s.workers[w]));
    assert Owned(s, id) <= if id < |q.lens| && id < s.batchIndex then 1 else 0;
  }

  /** What is gone has not been handed in. */
  lemma GoneNotIn(q: Query, s: State, id: nat)
    requires Accounted(q, s) && Gone(s, id)
    ensures Uses(s.partials, id) == 0
  {
    if Owned(s, id) > 0 {
      var w: nat :| DiedWith(s, w, id);
      HandOwned(q, s, w, id);
      HeldByOne(s.workers, w, id);
    }
  }

  /** When the reply of a query that needs all partitions is due, all have been handed in. */
  lemma DueHasAll(q: Query, s: State, id: nat)
    requires Inv(q, s) && !q.unordered && Open(s) && Holder(s).Combining? && id < |q.lens|
    ensures id in AllLeaves(s.partials)
  {
    PartialsDistinct(q, s);
    Pigeonhole(|q.lens|, AllLeaves(s.partials));
    assert Ids(|q.lens|)[id] == id;
    assert id in multiset(Ids(|q.lens|)) && id in multiset(AllLeaves(s.partials));
  }

  lemma DueUsed(q: Query, s: State, id: nat)
    requires Inv(q, s) && !q.unordered && Open(s) && Holder(s).Combining? && id < |q.lens|
    ensures Uses(s.partials, id) > 0
  {
    DueHasAll(q, s, id);
    assert id in multiset(AllLeaves(s.partials));
  }

  lemma GoneNotDue(q: Query, s: State, id: nat)
    requires Inv(q, s) && !q.unordered && Open(s) && id < |q.lens| && Gone(s, id)
    ensures !Holder(s).Combining?
  {
    GoneNotIn(q, s, id);
    if Holder(s).Combining? { DueUsed(q, s, id); }
  }

  lemma GoneKept(q: Query, s: State, w: nat, o: Outcome, id: nat)
    requires Inv(q, s) && Enabled(q, s, w, o) && Gone(s, id) && id < |q.lens|
    requires Open(s) && Open(Next(q, s, w, o))
    ensures Gone(Next(q, s, w, o), id)
  {
    var t := Next(q, s, w, o);
    OneMoves(q, s, w, o);
    assert Locked(s.workers[w]) ==> s.workers[w] == Holder(s);
    if Owned(s, id) == 0 {
      OwnedStep(q, s, w, o, id);
    } else {
      var v: nat :| DiedWith(s, v, id);
      assert DiedWith(t, v, id);
    }
  }

  lemma NoAnswerKept(q: Query, s: State, w: nat, o: Outcome)
    requires Inv(q, s) && Enabled(q, s, w, o) && NoAnswer(s) && !(s.workers[w].Combining? && o == Good)
    ensures NoAnswer(Next(q, s, w, o))
  {
    ExclusiveKept(q, s, w, o);
    var t := Next(q, s, w, o);
    assert Locked(s.workers[w]) ==> Holder(s) == s.workers[w];
    assert !Locked(s.workers[w]) ==> Holder(t) == Holder(s) || (s.holder == None && t.holder == Some(w));
  }

  lemma MarkingKept(q: Query, s: State, w: nat, o: Outcome)
    requires Inv(q, s) && Enabled(q, s, w, o) && Holder(s).Marking?
    ensures !Open(Next(q, s, w, o)) || Holder(Next(q, s, w, o)).Marking?
  {
    assert Locked(s.workers[w]) ==> Holder(s) == s.workers[w];
  }

  lemma SpoiledKept(q: Query, s: State, w: nat, o: Outcome)
    requires Inv(q, s) && Enabled(q, s, w, o) && !q.unordered && Spoiled(q, s)
    ensures Spoiled(q, Next(q, s, w, o))
  {
    OneMoves(q, s, w, o);
    assert Locked(s.workers[w]) ==> Holder(s) == s.workers[w];
    if Open(s) && !Holder(s).Marking? {
      var id: nat :| id < |q.lens| && Gone(s, id);
      GoneNotDue(q, s, id);
      NoAnswerKept(q, s, w, o);
      if Open(Next(q, s, w, o)) { GoneKept(q, s, w, o, id); }
    } else {
      NoAnswerKept(q, s, w, o);
      if Open(s) { MarkingKept(q, s, w, o); }
    }
  }

  /** A worker whose operation fails has nothing in hand any more; one that panics keeps what it has. */
  lemma LosingStep(q: Query, s: State, w: nat, o: Outcome)
    requires Enabled(q, s, w, o) && o != Good && !s.workers[w].Combining?
    ensures s.workers[w].Computing? || (s.workers[w].Flushing? && s.workers[w].stack != [])
    ensures Next(q, s, w, o) == Move(s, w, if o == Bad then Failing else Dead(Hands(s.workers[w])))
  {
  }

  /** It is gone when the worker drops it, or dies. */
  lemma HandLost(q: Query, s: State, w: nat, y: Worker, id: nat)
    requires Accounted(q, s) && w < |s.workers| && id in Hands(s.workers[w])
    requires y == Failing || y == Dead(Hands(s.workers[w]))
    ensures id < |q.lens| && Gone(Move(s, w, y), id)
  {
    HandOwned(q, s, w, id);
    if y == Failing {
      HeldUpdate(s.workers, w, y, id);
    } else {
      assert DiedWith(Move(s, w, y), w, id);
    }
  }

  lemma SomeLeaf(stack: seq<Shape>)
    requires stack != []
    ensures AllLeaves(stack) != []
  {
    CountLeaves(stack[0]);
  }

  /** An operation that does not turn out well spoils the query, if the answer is not about to be sent. */
  lemma Spoils(q: Query, s: State, w: nat, o: Outcome)
    requires Inv(q, s) && Enabled(q, s, w, o) && NoAnswer(s) && o != Good
    ensures Spoiled(q, Next(q, s, w, o))
  {
    var x, t := s.workers[w], Next(q, s, w, o);
    NoAnswerKept(q, s, w, o);
    OneMoves(q, s, w, o);
    if x.Combining? {
      assert Holder(s) == x;
      ExclusiveKept(q, s, w, o);
    } else if Open(s) {
      LosingStep(q, s, w, o);
      if x.Flushing? { SomeLeaf(x.stack); }
      var id := if x.Computing? then x.id else AllLeaves(x.stack)[0];
      HandLost(q, s, w, t.workers[w], id);
    }
  }

  // ---------------------------------------------------------------- when the answer is on its way

  /** All partitions have been claimed, and nobody has any but who sends the answer. */
  ghost predicate Done(q: Query, s: State) {
    && s.batchIndex >= |q.lens|
    && forall w :: 0 <= w < |s.workers| && Hands(s.workers[w]) != [] ==> s.holder == Some(w) && (s.workers[w].Sending? || s.workers[w].Storing?)
  }

  /** When all partitions have been handed in, nobody has one in hand. */
  lemma AllHandedIn(q: Query, s: State, w: nat)
    requires Inv(q, s) && !q.unordered && Open(s) && Holder(s).Combining? && w < |s.workers|
    ensures Hands(s.workers[w]) == []
  {
    if Hands(s.workers[w]) != [] {
      var id := Hands(s.workers[w])[0];
      HandOwned(q, s, w, id);
      HeldByOne(s.workers, w, id);
      DueUsed(q, s, id);
    }
  }

  lemma DoneBegins(q: Query, s: State, w: nat)
    requires Inv(q, s) && !q.unordered && Open(s) && Enabled(q, s, w, Good) && s.workers[w].Combining? && |q.lens| > 0
    ensures Done(q, Next(q, s, w, Good))
  {
    assert Holder(s) == s.workers[w];
    var id: nat := |q.lens| - 1;
    DueUsed(q, s, id);
    assert Owned(s, id) <= if id < s.batchIndex then 1 else 0;
    forall v: nat | v < |s.workers| ensures Hands(s.workers[v]) == [] { AllHandedIn(q, s, v); }
    OneMoves(q, s, w, Good);
  }

  lemma EmptyHandsStay(q: Query, s: State, w: nat)
    requires Enabled(q, s, w, Good) && s.batchIndex >= |q.lens| && !s.workers[w].Combining?
    requires Hands(s.workers[w]) == [] || s.workers[w].Sending? || s.workers[w].Storing?
    ensures var y := Next(q, s, w, Good).workers[w];
            Hands(y) == [] || (s.workers[w].Sending? && y.Storing? && Next(q, s, w, Good).holder == s.holder)
    ensures Next(q, s, w, Good).batchIndex >= |q.lens|
  {
    var x := s.workers[w];
    if x.Flushing? && x.stack != [] { SomeLeaf(x.stack); }
    if x.Waiting? || x.Pushing? { CountLeaves(x.result); }
  }

  lemma DoneKept(q: Query, s: State, w: nat)
    requires Inv(q, s) && Done(q, s) && !NoAnswer(s) && Enabled(q, s, w, Good)
    ensures Done(q, Next(q, s, w, Good))
  {
    var t := Next(q, s, w, Good);
    assert Locked(s.workers[w]) ==> Holder(s) == s.workers[w];
    OneMoves(q, s, w, Good);
    EmptyHandsStay(q, s, w);
    HolderStep(q, s, w, Good);
  }

  /** Then nothing can go wrong any more. */
  lemma DoneIsGood(q: Query, s: State, w: nat, o: Outcome)
    requires Inv(q, s) && Done(q, s) && !NoAnswer(s) && Enabled(q, s, w, o)
    ensures o == Good
  {
    assert Locked(s.workers[w]) ==> Holder(s) == s.workers[w];
    if o != Good && !s.workers[w].Combining? {
      LosingStep(q, s, w, o);
      if s.workers[w].Flushing? { SomeLeaf(s.workers[w].stack); }
    }
  }

  /** As long as all goes well, the answer is on its way only if everything is done; otherwise it never
      will be. */
  lemma {:induction false} OutcomeReached(q: Query, tr: seq<State>, steps: seq<Label>, n: nat)
    requires Labelled(q, tr, steps) && |q.lens| > 0 && !q.unordered && n <= |steps|
    ensures if AllGood(steps, n) then NoAnswer(tr[n]) || Done(q, tr[n]) else Spoiled(q, tr[n])
  {
    if n > 0 {
      var i: nat := n - 1;
      var s, x := tr[i], steps[i];
      OutcomeReached(q, tr, steps, i);
      InvAt(q, tr, steps, i);
      OutcomeStep(q, s, x.worker, x.outcome, AllGood(steps, i));
    }
  }

  lemma OutcomeStep(q: Query, s: State, w: nat, o: Outcome, good: bool)
    requires Inv(q, s) && |q.lens| > 0 && !q.unordered && Enabled(q, s, w, o)
    requires if good then NoAnswer(s) || Done(q, s) else Spoiled(q, s)
    ensures var t := Next(q, s, w, o); if good && o == Good then NoAnswer(t) || Done(q, t) else Spoiled(q, t)
  {
    if !good {
      SpoiledKept(q, s, w, o);
    } else if !NoAnswer(s) {
      DoneIsGood(q, s, w, o);
      DoneKept(q, s, w);
    } else if o != Good {
      Spoils(q, s, w, o);
    } else if s.workers[w].Combining? {
      assert Holder(s) == s.workers[w];
      DoneBegins(q, s, w);
    } else {
      NoAnswerKept(q, s, w, o);
    }
  }

  /** A query that needs all partitions gets its result if and only if no operation of any worker fails
      or panics. */
  lemma AnsweredIff(q: Query, tr: seq<State>, steps: seq<Label>)
    requires Labelled(q, tr, steps) && Quiescent(q, Last(tr)) && |q.lens| > 0 && !q.unordered
    ensures AllGood(steps, |steps|) <==> exists r :: Last(tr).replies == [Answer(r)] && OneEach(|q.lens|, r)
    ensures !AllGood(steps, |steps|) ==> forall r :: Answer(r) !in Last(tr).replies
  {
    OutcomeReached(q, tr, steps, |steps|);
    if AllGood(steps, |steps|) {
      var r := GoodAnswered(q, tr, steps);
    } else {
      assert Last(tr).replies != [] ==> !Last(tr).replies[0].Answer?;
    }
  }

  // ---------------------------------------------------------------- work that is not done

  /** When an error is about to be sent, no partition is left to be claimed. */
  ghost predicate Stopped(q: Query, s: State) {
    Holder(s).Reporting? || Failure in s.replies ==> s.batchIndex >= |q.lens|
  }

  lemma StoppedKept(q: Query, s: State, w: nat, o: Outcome)
    requires Inv(q, s) && Stopped(q, s) && Enabled(q, s, w, o)
    ensures Stopped(q, Next(q, s, w, o))
  {
    ExclusiveKept(q, s, w, o);
    var t := Next(q, s, w, o);
    assert Locked(s.workers[w]) ==> Holder(s) == s.workers[w];
    assert !Locked(s.workers[w]) ==> Holder(t) == Holder(s) || (s.holder == None && t.holder == Some(w));
  }

  /** A worker that goes on has not collected sufficient rows. */
  ghost predicate StillNeeded(q: Query, x: Worker) {
    x.Claiming? || x.Computing? ==> !SufficientRows(q, x.rows)
  }

  lemma NeededKept(q: Query, s: State, w: nat, o: Outcome)
    requires Enabled(q, s, w, o) && forall v :: 0 <= v < |s.workers| ==> StillNeeded(q, s.workers[v])
    ensures forall v :: 0 <= v < |Next(q, s, w, o).workers| ==> StillNeeded(q, Next(q, s, w, o).workers[v])
  {
    OneMoves(q, s, w, o);
  }

  /** After an error no partition is claimed, and at no time one by a worker that has sufficient rows. */
  lemma {:induction false} NoNeedlessClaims(q: Query, tr: seq<State>, steps: seq<Label>, n: nat)
    requires Labelled(q, tr, steps) && |q.lens| > 0 && n <= |steps|
    ensures Stopped(q, tr[n]) && forall v :: 0 <= v < |tr[n].workers| ==> StillNeeded(q, tr[n].workers[v])
  {
    if n > 0 {
      var i: nat := n - 1;
      NoNeedlessClaims(q, tr, steps, i);
      InvAt(q, tr, steps, i);
      StoppedKept(q, tr[i], steps[i].worker, steps[i].outcome);
      NeededKept(q, tr[i], steps[i].worker, steps[i].outcome);
    }
  }

  /** How many steps a worker may still take once the query is completed. */
  ghost function Left(x: Worker): nat {
    match x
    case Claiming(_, _) => 4
    case Computing(_, _, _) => 3
    case Flushing(_, _) => 3
    case Waiting(_, _) => 2
    case Failing => 2
    case Blocking => 2
    case Checking(_, _) => 1
    case Pushing(_, _) => 1
    case Refusing => 1
    case Reporting => 1
    case _ => 0
  }

  ghost function AllLeft(ws: seq<Worker>): nat {
    if ws == [] then 0 else Left(ws[0]) + AllLeft(ws[1..])
  }

  lemma {:induction false} LeftUpdate(ws: seq<Worker>, w: nat, x: Worker)
    requires w < |ws|
    ensures AllLeft(ws[w := x]) == AllLeft(ws) - Left(ws[w]) + Left(x) && AllLeft(ws) <= 4 * |ws|
  {
    var us := ws[w := x];
    LeftBounded(ws);
    if w == 0 {
      assert us[1..] == ws[1..];
    } else {
      assert us[1..] == ws[1..][w - 1 := x];
      LeftUpdate(ws[1..], w - 1, x);
    }
  }

  lemma {:induction false} LeftBounded(ws: seq<Worker>)
    ensures AllLeft(ws) <= 4 * |ws|
  {
    if ws != [] { LeftBounded(ws[1..]); }
  }

  lemma LeftStep(q: Query, s: State, w: nat, o: Outcome)
    requires Inv(q, s) && s.completed && Enabled(q, s, w, o)
    ensures AllLeft(Next(q, s, w, o).workers) + 1 <= AllLeft(s.workers) + if s.workers[w].Idle? then 5 else 0
    ensures Next(q, s, w, o).completed && |Next(q, s, w, o).workers| == |s.workers|
  {
    OneMoves(q, s, w, o);
    assert Locked(s.workers[w]) ==> Holder(s) == s.workers[w];
    LeftUpdate(s.workers, w, Next(q, s, w, o).workers[w]);
  }

  predicate IsRestart(s: State, x: Label) {
    x.worker < |s.workers| && s.workers[x.worker].Idle?
  }

  lemma CompletedNext(q: Query, s: State, x: Label, t: State)
    requires Inv(q, s) && s.completed && StepAt(q, s, x, t)
    ensures t.completed && |t.workers| == |s.workers|
    ensures AllLeft(t.workers) + 1 <= AllLeft(s.workers) + if IsRestart(s, x) then 5 else 0
  {
    LeftStep(q, s, x.worker, x.outcome);
  }

  lemma CompletedAt(q: Query, tr: seq<State>, steps: seq<Label>, j: nat)
    requires Labelled(q, tr, steps) && |q.lens| > 0 && j < |steps| && tr[j].completed
    ensures tr[j + 1].completed && |tr[j + 1].workers| == |tr[j].workers|
    ensures AllLeft(tr[j + 1].workers) + 1 <= AllLeft(tr[j].workers) + if IsRestart(tr[j], steps[j]) then 5 else 0
  {
    InvAt(q, tr, steps, j);
    CompletedNext(q, tr[j], steps[j], tr[j + 1]);
  }

  /** How many of the steps from `i` up to `n` start a worker. */
  ghost function Restarts(tr: seq<State>, steps: seq<Label>, i: nat, n: nat): nat
    requires i <= n <= |steps| && |tr| == |steps| + 1
  {
    if i == n then 0
    else Restarts(tr, steps, i, n - 1) + if IsRestart(tr[n - 1], steps[n - 1]) then 1 else 0
  }

  /** Once the query is completed, the workers return after a few steps each, however many partitions are
      left. */
  lemma {:induction false} CompletedEnds(q: Query, tr: seq<State>, steps: seq<Label>, i: nat, n: nat)
    requires Labelled(q, tr, steps) && |q.lens| > 0 && |tr| == |steps| + 1 && i <= n <= |steps| && tr[i].completed
    ensures tr[n].completed && |tr[n].workers| == |tr[i].workers|
    ensures n - i + AllLeft(tr[n].workers) <= 4 * |tr[i].workers| + 5 * Restarts(tr, steps, i, n)
    decreases n
  {
    if i == n {
      LeftBounded(tr[i].workers);
    } else {
      var j: nat := n - 1;
      CompletedEnds(q, tr, steps, i, j);
      CompletedAt(q, tr, steps, j);
    }
  }
}
