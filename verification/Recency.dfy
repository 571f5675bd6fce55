/** What runs of the cache show over time: the column evicted is the one that has gone unused for longest,
    and a column whose load is promised is left to the background thread. */
module Recency {
  import opened Types
  import opened ColumnCache

  /** A step of a run: a thread goes on, or begins something. */
  datatype Label = Goes(thread: nat) | Begins(thread: nat, action: Action)

  ghost predicate StepAt(s: State, x: Label, t: State) {
    match x
    case Goes(w) => Enabled(s, w) && t == Next(s, w)
    case Begins(w, a) => w < |s.threads| && s.threads[w] == Idle && MayBegin(s, w, a) && t == Begin(s, w, a)
  }

  /** A run and the labels of its steps. */
  ghost predicate Labelled(tr: seq<State>, steps: seq<Label>) {
    && |tr| == |steps| + 1 && Init(tr[0])
    && forall i :: 0 <= i < |steps| ==> StepAt(tr[i], steps[i], tr[i + 1])
  }

  lemma LabelledRuns(tr: seq<State>, steps: seq<Label>)
    requires Labelled(tr, steps)
    ensures Run(tr)
  {
    forall i | 0 < i < |tr| ensures Step(tr[i - 1], tr[i]) {
      assert StepAt(tr[i - 1], steps[i - 1], tr[i - 1 + 1]);
    }
  }

  /** The column that a step of a thread uses: it hands it out of the cache, loads or restores it, or
      registers it. */
  ghost function UsedBy(s: State, w: nat): Option<Key>
    requires Enabled(s, w)
  {
    match s.threads[w]
    case Reading(k) => if s.handles[k].cached then Some(k) else None
    case Putting(k) => Some(k)
    case Reputting(k) => if s.handles[k].cached then None else Some(k)
    case Registering(keys) => if keys == [] then None else Some(keys[0])
    case _ => None
  }

  ghost function UsedAt(tr: seq<State>, steps: seq<Label>, i: nat): Option<Key>
    requires |tr| == |steps| + 1 && i < |steps|
  {
    if steps[i].Goes? && Enabled(tr[i], steps[i].thread) then UsedBy(tr[i], steps[i].thread) else None
  }

  /** The last of the first `n` steps that uses the column, or -1. */
  ghost function LastUse(tr: seq<State>, steps: seq<Label>, n: nat, k: Key): (i: int)
    requires |tr| == |steps| + 1 && n <= |steps|
    ensures -1 <= i < n && (i >= 0 ==> UsedAt(tr, steps, i) == Some(k))
    ensures forall j :: i < j < n ==> UsedAt(tr, steps, j) != Some(k)
  {
    if n == 0 then -1 else if UsedAt(tr, steps, n - 1) == Some(k) then n - 1 else LastUse(tr, steps, n - 1, k)
  }

  /** A step that uses a column puts it last, and all others keep their order. */
  lemma OrderNext(s: State, w: nat, x: Key, y: Key)
    requires Enabled(s, w) && NoDuplicates(s.lru) && Precedes(Next(s, w).lru, x, y)
    ensures UsedBy(s, w) != Some(x) && (UsedBy(s, w) == Some(y) || Precedes(s.lru, x, y))
  {
    if s.threads[w].Popping? && s.lru != [] {
      assert s.lru == [s.lru[0]] + s.lru[1..];
      PrecedesCons(x, y, s.lru[0], s.lru[1..]);
    }
  }

  lemma InNext(s: State, w: nat, x: Key)
    requires Enabled(s, w) && x in Next(s, w).lru
    ensures x in s.lru || UsedBy(s, w) == Some(x)
  {
  }

  /** The list is ordered by last use. */
  ghost predicate ByUse(tr: seq<State>, steps: seq<Label>, n: nat)
    requires Labelled(tr, steps) && n <= |steps|
  {
    && (forall x :: x in tr[n].lru ==> LastUse(tr, steps, n, x) >= 0)
    && forall x, y :: Precedes(tr[n].lru, x, y) ==> LastUse(tr, steps, n, x) < LastUse(tr, steps, n, y)
  }

  lemma {:induction false} ByUseReached(tr: seq<State>, steps: seq<Label>, n: nat)
    requires Labelled(tr, steps) && n <= |steps|
    ensures ByUse(tr, steps, n)
  {
    if n > 0 {
      var i: nat := n - 1;
      ByUseReached(tr, steps, i);
      assert StepAt(tr[i], steps[i], tr[i + 1]);
      if steps[i].Goes? {
        LabelledRuns(tr, steps);
        Reached(tr, i);
        ByUseNext(tr, steps, i);
      } else {
        ByUseBegin(tr, steps, i);
      }
    }
  }

  lemma ByUseBegin(tr: seq<State>, steps: seq<Label>, i: nat)
    requires Labelled(tr, steps) && i < |steps| && ByUse(tr, steps, i) && steps[i].Begins?
    ensures ByUse(tr, steps, i + 1)
  {
    assert StepAt(tr[i], steps[i], tr[i + 1]);
    assert tr[i + 1].lru == tr[i].lru;
    forall x ensures LastUse(tr, steps, i + 1, x) == LastUse(tr, steps, i, x) {
    }
  }

  lemma ByUseNext(tr: seq<State>, steps: seq<Label>, i: nat)
    requires Labelled(tr, steps) && i < |steps| && ByUse(tr, steps, i) && steps[i].Goes? && NoDuplicates(tr[i].lru)
    ensures ByUse(tr, steps, i + 1)
  {
    var s, t, w := tr[i], tr[i + 1], steps[i].thread;
    assert StepAt(s, steps[i], t);
    forall x | x in t.lru ensures LastUse(tr, steps, i + 1, x) >= 0 { InNext(s, w, x); }
    forall x, y | Precedes(t.lru, x, y) ensures LastUse(tr, steps, i + 1, x) < LastUse(tr, steps, i + 1, y) { OrderNext(s, w, x, y); }
  }

  /** In every run the list has the columns in the order in which they were last used. */
  lemma SortedByUse(tr: seq<State>, steps: seq<Label>, n: nat, i: nat, j: nat)
    requires Labelled(tr, steps) && n <= |steps| && i < j < |tr[n].lru|
    ensures 0 <= LastUse(tr, steps, n, tr[n].lru[i]) < LastUse(tr, steps, n, tr[n].lru[j])
  {
    ByUseReached(tr, steps, n);
    assert Precedes(tr[n].lru, tr[n].lru[i], tr[n].lru[j]);
  }

  /** `v` is in the list, and every other column there has been used since. */
  ghost predicate LeastRecent(tr: seq<State>, steps: seq<Label>, n: nat, v: Key)
    requires Labelled(tr, steps) && n <= |steps|
  {
    v in tr[n].lru && forall k :: k in tr[n].lru && k != v ==> LastUse(tr, steps, n, v) < LastUse(tr, steps, n, k)
  }

  lemma FrontIsLeast(tr: seq<State>, steps: seq<Label>, n: nat)
    requires Labelled(tr, steps) && n <= |steps| && tr[n].lru != []
    ensures LeastRecent(tr, steps, n, tr[n].lru[0])
  {
    var lru := tr[n].lru;
    ByUseReached(tr, steps, n);
    forall k | k in lru && k != lru[0] ensures LastUse(tr, steps, n, lru[0]) < LastUse(tr, steps, n, k) {
      var j :| 0 <= j < |lru| && lru[j] == k;
      assert Precedes(lru, lru[0], k);
    }
  }

  /** The column is cached, and in nobody's hands. */
  ghost predicate Evictable(s: State, k: Key) {
    k in s.handles && s.handles[k].holder == None && s.handles[k].cached && !Awaits(s, k)
  }

  /** A thread about to take a victim finds all such columns in the list. */
  lemma EvictableListed(s: State, w: nat, k: Key)
    requires Inv(s) && w < |s.threads| && s.threads[w].Popping? && Evictable(s, k)
    ensures k in s.lru
  {
    assert ThreadOk(s, w) && HandleOk(s, k);
  }

  /** What the step takes from the list, and what it leaves. */
  lemma PopsFirst(s: State, w: nat)
    requires Enabled(s, w) && s.threads[w].Popping? && NoDuplicates(s.lru)
    ensures var t := Next(s, w);
            && w < |t.threads|
            && if s.lru == [] then t.threads[w] == Idle && t.lru == []
               else t.threads[w] == Evicting(s.lru[0]) && forall k :: k in t.lru <==> k in s.lru && k != s.lru[0]
  {
    if s.lru != [] {
      forall k ensures k in s.lru[1..] <==> k in s.lru && k != s.lru[0] {
        if j :| 0 <= j < |s.lru| && s.lru[j] == k { assert j > 0 ==> s.lru[1..][j - 1] == k; }
      }
    }
  }

  /** The thread that evicts takes the column whose last use is the longest ago, of all in the list and of
      all that are cached and in nobody's hands; it takes none only if there is none, and all others stay. */
  lemma EvictsLeastRecent(tr: seq<State>, steps: seq<Label>, n: nat)
    requires Labelled(tr, steps) && n < |steps| && steps[n].Goes? && steps[n].thread < |tr[n].threads| && tr[n].threads[steps[n].thread].Popping?
    ensures var s, t, w := tr[n], tr[n + 1], steps[n].thread;
            && w < |t.threads| && (t.threads[w] == Idle ==> forall k :: !Evictable(s, k))
            && (t.threads[w] != Idle ==>
                  && t.threads[w].Evicting? && LeastRecent(tr, steps, n, t.threads[w].key)
                  && (forall k :: k in t.lru <==> k in s.lru && k != t.threads[w].key)
                  && forall k :: Evictable(s, k) ==> k in s.lru)
  {
    var s, w := tr[n], steps[n].thread;
    assert StepAt(s, steps[n], tr[n + 1]);
    LabelledRuns(tr, steps);
    Reached(tr, n);
    PopsFirst(s, w);
    if s.lru != [] { FrontIsLeast(tr, steps, n); }
    forall k | Evictable(s, k) ensures k in s.lru { EvictableListed(s, w, k); }
  }

  /** A column that has just been handed out of the cache is not the next victim if another one is
      cached. */
  lemma JustReadStays(s: State, w: nat, k: Key, x: Key)
    requires Enabled(s, w) && s.threads[w] == Reading(k) && s.handles[k].cached && NoDuplicates(s.lru) && k in s.lru && x in s.lru && x != k
    ensures Next(s, w).lru != [] && Next(s, w).lru[0] != k
  {
    var lru := Next(s, w).lru;
    assert x in lru && k in lru && lru[|lru| - 1] == k;
    if |lru| > 1 { assert lru[0] != lru[|lru| - 1]; }
  }

  // ---------------------------------------------------------------- promised loads

  ghost predicate Scheduled(s: State, k: Key) {
    k in s.handles && s.handles[k].scheduled
  }

  /** The step ends the restoring of the column. */
  ghost predicate EndsRestore(s: State, x: Label, k: Key) {
    x.Goes? && x.thread < |s.threads| && s.threads[x.thread] == Unscheduling(k)
  }

  lemma ScheduledStays(s: State, x: Label, t: State, k: Key)
    requires StepAt(s, x, t) && Scheduled(s, k) && !EndsRestore(s, x, k)
    ensures Scheduled(t, k)
  {
  }

  lemma {:induction false} ScheduledReached(tr: seq<State>, steps: seq<Label>, i: nat, n: nat, k: Key)
    requires Labelled(tr, steps) && i < n <= |steps| && steps[i].Begins? && steps[i].action == PromiseLoad(k)
    requires forall j :: i < j < n ==> !EndsRestore(tr[j], steps[j], k)
    ensures Scheduled(tr[n], k)
    decreases n
  {
    var j: nat := n - 1;
    assert StepAt(tr[j], steps[j], tr[j + 1]);
    if j > i {
      ScheduledReached(tr, steps, i, j, k);
      ScheduledStays(tr[j], steps[j], tr[j + 1], k);
    }
  }

  /** From the promise to load a column until it has been restored, no worker goes on to load it itself. */
  lemma PromisedNotFetched(tr: seq<State>, steps: seq<Label>, i: nat, n: nat, k: Key)
    requires Labelled(tr, steps) && i < n < |steps| && steps[i].Begins? && steps[i].action == PromiseLoad(k)
    requires forall j :: i < j < n ==> !EndsRestore(tr[j], steps[j], k)
    requires steps[n].Goes? && steps[n].thread < |tr[n].threads| && tr[n].threads[steps[n].thread] == Probing(k)
    ensures steps[n].thread < |tr[n + 1].threads| && tr[n + 1].threads[steps[n].thread] == Looking(k)
  {
    ScheduledReached(tr, steps, i, n, k);
    assert StepAt(tr[n], steps[n], tr[n + 1]);
  }
}
