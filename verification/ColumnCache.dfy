/** The column cache: workers load columns and read them, a background thread restores columns
    read ahead, one thread evicts the least recently used, and new partitions are registered.
    Every atomic access and every step under the lock of a handle is one transition. */
module ColumnCache {
  import opened Types

  /** The partition and name of a column. */
  type Key = nat

  /** `ColumnHandle`: whether `col` holds the column, the two flags, and who holds the lock. */
  datatype Handle = Handle(cached: bool, resident: bool, scheduled: bool, holder: Option<nat>)

  /** Where a thread is. */
  datatype Thread =
    | Idle
    // get_or_load
    | Looking(key: Key)           // about to test `resident`
    | Peeking(key: Key)           // resident: about to lock
    | Reading(key: Key)           // locked
    | Probing(key: Key)           // not resident: about to test `load_scheduled`
    | Fetching(key: Key)          // loads from disk, then locks
    | Putting(key: Key)           // locked, about to put into the LRU
    | Caching(key: Key)           // about to store the column
    | Marking(key: Key)           // about to set `resident`
    // restore
    | Restoring(key: Key)         // about to lock
    | Reputting(key: Key)         // locked, about to put into the LRU unless cached
    | Recaching(key: Key)
    | Remarking(key: Key)
    | Unscheduling(key: Key)
    // the eviction thread
    | Popping                     // about to take a victim from the LRU
    | Evicting(key: Key)          // about to lock
    | Unmarking(key: Key)         // locked, about to clear `resident`
    | Clearing(key: Key)          // about to drop the column
    | Removing(key: Key)          // about to remove the key from the LRU
    // store_partition
    | Registering(keys: seq<Key>) // partition published, keys still to be put into the LRU

  /** `lru` lists the keys from the least to the most recently used, and `queued` has those that
      queued runs will read. */
  datatype State = State(handles: map<Key, Handle>, lru: seq<Key>, threads: seq<Thread>, queued: multiset<Key>)

  /** What an idle thread may begin: to get a column, to restore one that was read, to promise a load
      and queue the read, to service a queued read, to evict, to store a partition. */
  datatype Action = GetOrLoad(key: Key) | Restore(key: Key) | PromiseLoad(key: Key) | Service(key: Key) | Evict | Store(keys: seq<Key>)

  predicate NoDuplicates(keys: seq<Key>) {
    forall i, j :: 0 <= i < j < |keys| ==> keys[i] != keys[j]
  }

  // ---------------------------------------------------------------- the LRU list

  /** `x` comes before `y` in the list. */
  ghost predicate Precedes(lru: seq<Key>, x: Key, y: Key) {
    exists i, j :: 0 <= i < j < |lru| && lru[i] == x && lru[j] == y
  }

  lemma PrecedesCons(x: Key, y: Key, a: Key, lru: seq<Key>)
    ensures Precedes([a] + lru, x, y) <==> (a == x && y in lru) || Precedes(lru, x, y)
  {
    var all := [a] + lru;
    if i, j :| 0 <= i < j < |lru| && lru[i] == x && lru[j] == y { assert all[i + 1] == x && all[j + 1] == y; }
    if i, j :| 0 <= i < j < |all| && all[i] == x && all[j] == y {
      assert lru[j - 1] == y && (i > 0 ==> lru[i - 1] == x);
    }
    if a == x && y in lru {
      var j :| 0 <= j < |lru| && lru[j] == y;
      assert all[0] == x && all[j + 1] == y;
    }
  }

  lemma PrecedesSnoc(x: Key, y: Key, lru: seq<Key>, a: Key)
    ensures Precedes(lru + [a], x, y) <==> (a == y && x in lru) || Precedes(lru, x, y)
  {
    var all := lru + [a];
    if i, j :| 0 <= i < j < |lru| && lru[i] == x && lru[j] == y { assert all[i] == x && all[j] == y; }
    if a == y && x in lru {
      var i :| 0 <= i < |lru| && lru[i] == x;
      assert all[i] == x && all[|lru|] == y;
    }
  }

  /** The list without one key; the others keep their order. */
  function Without(lru: seq<Key>, k: Key): (r: seq<Key>)
    ensures forall x :: x in r <==> x in lru && x != k
    ensures NoDuplicates(lru) ==> NoDuplicates(r)
    ensures forall x, y :: Precedes(r, x, y) <==> Precedes(lru, x, y) && x != k && y != k
  {
    if lru == [] then []
    else
      var a, rest := lru[0], Without(lru[1..], k);
      assert forall x, y :: Precedes(lru, x, y) <==> (a == x && y in lru[1..]) || Precedes(lru[1..], x, y) by {
        assert lru == [a] + lru[1..];
        forall x, y ensures Precedes(lru, x, y) <==> (a == x && y in lru[1..]) || Precedes(lru[1..], x, y) { PrecedesCons(x, y, a, lru[1..]); }
      }
      if a == k then rest
      else
        assert NoDuplicates(lru) ==> a !in lru[1..];
        assert forall x, y :: Precedes([a] + rest, x, y) <==> (a == x && y in rest) || Precedes(rest, x, y) by {
          forall x, y ensures Precedes([a] + rest, x, y) <==> (a == x && y in rest) || Precedes(rest, x, y) { PrecedesCons(x, y, a, rest); }
        }
        [a] + rest
  }

  /** `Lru::put`: the key becomes the last, and the others keep their order. */
  function Put(lru: seq<Key>, k: Key): (r: seq<Key>)
    ensures forall x :: x in r <==> x in lru || x == k
    ensures NoDuplicates(lru) ==> NoDuplicates(r)
    ensures |r| > 0 && r[|r| - 1] == k
    ensures forall x, y :: Precedes(r, x, y) <==> x != k && if y == k then x in lru else Precedes(lru, x, y)
  {
    var rest := Without(lru, k);
    assert forall i :: 0 <= i < |rest| ==> rest[i] in rest;
    assert forall x, y :: Precedes(rest + [k], x, y) <==> (k == y && x in rest) || Precedes(rest, x, y) by {
      forall x, y ensures Precedes(rest + [k], x, y) <==> (k == y && x in rest) || Precedes(rest, x, y) { PrecedesSnoc(x, y, rest, k); }
    }
    rest + [k]
  }

  /** `Lru::touch`: a key in the list becomes the last. */
  function Touch(lru: seq<Key>, k: Key): (r: seq<Key>)
    ensures forall x :: x in r <==> x in lru
    ensures NoDuplicates(lru) ==> NoDuplicates(r)
    ensures k in lru ==> r[|r| - 1] == k
    ensures forall x, y :: x != k && y != k ==> (Precedes(r, x, y) <==> Precedes(lru, x, y))
  {
    if k in lru then Put(lru, k) else lru
  }

  // ---------------------------------------------------------------- transitions

  predicate MayBegin(s: State, w: nat, a: Action) {
    match a
    case GetOrLoad(k) => k in s.handles
    case Restore(k) => k in s.handles
    case PromiseLoad(k) => k in s.handles
    case Service(k) => k in s.handles && k in s.queued
    case Evict => w == 0
    case Store(keys) => NoDuplicates(keys) && forall i :: 0 <= i < |keys| ==> keys[i] !in s.handles
  }

  function Begin(s: State, w: nat, a: Action): State
    requires w < |s.threads| && MayBegin(s, w, a)
  {
    match a
    case GetOrLoad(k) => Move(s, w, Looking(k))
    case Restore(k) => Move(s, w, Restoring(k))
    case PromiseLoad(k) => s.(handles := s.handles[k := s.handles[k].(scheduled := true)], queued := s.queued + multiset{k})
    case Service(k) => Move(s, w, Restoring(k)).(queued := s.queued - multiset{k})
    case Evict => Move(s, w, Popping)
    case Store(keys) =>
      Move(s, w, Registering(keys)).(handles := map k | k in s.handles.Keys + Elements(keys) ::
        if k in s.handles then s.handles[k] else Handle(true, true, false, None))
  }

  function Elements(keys: seq<Key>): set<Key> {
    set i | 0 <= i < |keys| :: keys[i]
  }

  function Move(s: State, w: nat, x: Thread): State
    requires w < |s.threads|
  {
    s.(threads := s.threads[w := x])
  }

  function Lock(s: State, w: nat, k: Key, x: Thread): State
    requires w < |s.threads| && k in s.handles
  {
    Move(s, w, x).(handles := s.handles[k := s.handles[k].(holder := Some(w))])
  }

  function Unlock(s: State, w: nat, k: Key, x: Thread): State
    requires w < |s.threads| && k in s.handles
  {
    Move(s, w, x).(handles := s.handles[k := s.handles[k].(holder := None)])
  }

  /** The thread can go on: locks must be free. */
  predicate Enabled(s: State, w: nat) {
    w < |s.threads| &&
    match s.threads[w]
    case Idle => false
    case Peeking(k) => k in s.handles && s.handles[k].holder == None
    case Fetching(k) => k in s.handles && s.handles[k].holder == None
    case Restoring(k) => k in s.handles && s.handles[k].holder == None
    case Evicting(k) => k in s.handles && s.handles[k].holder == None
    case Popping => true
    case Registering(_) => true
    case x => x.key in s.handles
  }

  function Next(s: State, w: nat): State
    requires Enabled(s, w)
  {
    match s.threads[w]
    case Idle => s
    case Looking(k) => Move(s, w, if s.handles[k].resident then Peeking(k) else Probing(k))
    case Peeking(k) => Lock(s, w, k, Reading(k))
    case Reading(k) =>
      if s.handles[k].cached then Unlock(s, w, k, Idle).(lru := Touch(s.lru, k)) else Unlock(s, w, k, Looking(k))
    case Probing(k) => Move(s, w, if s.handles[k].scheduled then Looking(k) else Fetching(k))
    case Fetching(k) => Lock(s, w, k, Putting(k))
    case Putting(k) => Move(s, w, Caching(k)).(lru := Put(s.lru, k))
    case Caching(k) => Move(s, w, Marking(k)).(handles := s.handles[k := s.handles[k].(cached := true)])
    case Marking(k) => Move(s, w, Idle).(handles := s.handles[k := s.handles[k].(resident := true, holder := None)])
    case Restoring(k) => Lock(s, w, k, Reputting(k))
    case Reputting(k) => Move(s, w, Recaching(k)).(lru := if s.handles[k].cached then s.lru else Put(s.lru, k))
    case Recaching(k) => Move(s, w, Remarking(k)).(handles := s.handles[k := s.handles[k].(cached := true)])
    case Remarking(k) => Move(s, w, Unscheduling(k)).(handles := s.handles[k := s.handles[k].(resident := true)])
    case Unscheduling(k) => Move(s, w, Idle).(handles := s.handles[k := s.handles[k].(scheduled := false, holder := None)])
    case Popping =>
      if s.lru == [] then Move(s, w, Idle) else Move(s, w, Evicting(s.lru[0])).(lru := s.lru[1..])
    case Evicting(k) => Lock(s, w, k, Unmarking(k))
    case Unmarking(k) => Move(s, w, Clearing(k)).(handles := s.handles[k := s.handles[k].(resident := false)])
    case Clearing(k) => Move(s, w, Removing(k)).(handles := s.handles[k := s.handles[k].(cached := false)])
    case Removing(k) => Unlock(s, w, k, Popping).(lru := Without(s.lru, k))
    case Registering(keys) =>
      if keys == [] then Move(s, w, Idle) else Move(s, w, Registering(keys[1..])).(lru := Put(s.lru, keys[0]))
  }

  /** The handles are those of the partitions on disk, none of them loaded, and all threads are
      idle. */
  ghost predicate Init(s: State) {
    && (forall k :: k in s.handles ==> s.handles[k] == Handle(false, false, false, None))
    && s.lru == [] && s.queued == multiset{} && forall w :: 0 <= w < |s.threads| ==> s.threads[w] == Idle
  }

  ghost predicate Step(s: State, t: State) {
    || (exists w: nat, a :: w < |s.threads| && s.threads[w] == Idle && MayBegin(s, w, a) && t == Begin(s, w, a))
    || (exists w: nat :: Enabled(s, w) && t == Next(s, w))
  }

  ghost predicate Run(tr: seq<State>) {
    tr != [] && Init(tr[0]) && forall i :: 0 < i < |tr| ==> Step(tr[i - 1], tr[i])
  }

  // ---------------------------------------------------------------- the invariant

  /** The thread has taken the column from the LRU in order to evict it. */
  predicate Evicts(x: Thread, k: Key) {
    (x.Evicting? || x.Unmarking? || x.Clearing? || x.Removing?) && x.key == k
  }

  /** The column is the victim of the eviction thread. */
  predicate Victim(s: State, k: Key) {
    |s.threads| > 0 && Evicts(s.threads[0], k)
  }

  /** The column awaits registration. */
  ghost predicate Awaits(s: State, k: Key) {
    exists w :: 0 <= w < |s.threads| && s.threads[w].Registering? && k in s.threads[w].keys
  }

  ghost predicate Tracked(s: State, k: Key) {
    k in s.lru || Victim(s, k) || Awaits(s, k)
  }

  /** Resident, cached and tracked are one. */
  ghost predicate Settled(s: State, k: Key)
    requires k in s.handles
  {
    && s.handles[k].resident == s.handles[k].cached
    && (s.handles[k].cached <==> Tracked(s, k))
  }

  predicate InLock(x: Thread) {
    || x.Reading? || x.Putting? || x.Caching? || x.Marking? || x.Reputting? || x.Recaching? || x.Remarking?
    || x.Unscheduling? || x.Unmarking? || x.Clearing? || x.Removing?
  }

  predicate HasKey(x: Thread) {
    !x.Idle? && !x.Popping? && !x.Registering?
  }

  /** What holds of a column while its lock is held, depending on how far the holder has come. */
  ghost predicate Midway(s: State, k: Key, x: Thread)
    requires k in s.handles
  {
    match x
    case Reading(_) => Settled(s, k)
    case Putting(_) => Settled(s, k)
    case Reputting(_) => Settled(s, k)
    case Unmarking(_) => Settled(s, k)
    case Caching(_) => Tracked(s, k) && s.handles[k].resident == s.handles[k].cached
    case Recaching(_) => Tracked(s, k) && s.handles[k].resident == s.handles[k].cached
    case Marking(_) => Tracked(s, k) && s.handles[k].cached
    case Remarking(_) => Tracked(s, k) && s.handles[k].cached
    case Unscheduling(_) => Tracked(s, k) && s.handles[k].cached && s.handles[k].resident
    case Clearing(_) => s.handles[k].cached && !s.handles[k].resident
    case Removing(_) => !s.handles[k].cached && !s.handles[k].resident
    case _ => false
  }

  ghost predicate HandleOk(s: State, k: Key)
    requires k in s.handles
  {
    var h := s.handles[k];
    if h.holder.None? then Settled(s, k)
    else h.holder.value < |s.threads| && HasKey(s.threads[h.holder.value]) && s.threads[h.holder.value].key == k && Midway(s, k, s.threads[h.holder.value])
  }

  /** The thread has seen the column not resident and may put it into the LRU. */
  predicate SawAbsent(x: Thread) {
    x.Probing? || x.Fetching? || x.Putting? || x.Caching? || x.Marking?
  }

  ghost predicate ThreadOk(s: State, w: nat)
    requires w < |s.threads|
  {
    var x := s.threads[w];
    && (HasKey(x) ==> x.key in s.handles)
    && (HasKey(x) && InLock(x) ==> s.handles[x.key].holder == Some(w))
    && (x.Popping? || x.Evicting? || x.Unmarking? || x.Clearing? || x.Removing? ==> w == 0)
    && (HasKey(x) && SawAbsent(x) ==> !Awaits(s, x.key))
    && (x.Registering? ==> NoDuplicates(x.keys) && forall i :: 0 <= i < |x.keys| ==> x.keys[i] in s.handles)
  }

  /** A column that awaits registration is cached, and nobody else has it in hand. */
  ghost predicate AwaitOk(s: State, k: Key)
    requires k in s.handles
  {
    Awaits(s, k) ==> k !in s.lru && !Victim(s, k) && s.handles[k].cached && s.handles[k].resident
  }

  ghost predicate Inv(s: State) {
    && NoDuplicates(s.lru) && (forall k :: k in s.lru ==> k in s.handles)
    && (forall w: nat :: w < |s.threads| ==> ThreadOk(s, w))
    && (forall v: nat, w: nat, k :: v < w < |s.threads| && s.threads[v].Registering? && s.threads[w].Registering? && k in s.threads[v].keys ==>
          k !in s.threads[w].keys)
    && (forall k :: k in s.handles ==> HandleOk(s, k) && AwaitOk(s, k))
  }

  // ---------------------------------------------------------------- what a step changes

  /** Registration of `k` is what thread `w` does next. */
  predicate Registers(s: State, w: nat, k: Key)
    requires w < |s.threads|
  {
    s.threads[w].Registering? && s.threads[w].keys != [] && s.threads[w].keys[0] == k
  }

  /** Only the thread that moves and the handle it works on change. */
  lemma OneMoves(s: State, w: nat)
    requires Enabled(s, w)
    ensures var x, t := s.threads[w], Next(s, w);
            && w < |t.threads| && t.threads == s.threads[w := t.threads[w]] && t.handles.Keys == s.handles.Keys
            && (forall k :: k in s.handles && !(HasKey(x) && x.key == k) ==> t.handles[k] == s.handles[k])
            && (t.threads[w].Registering? <==> x.Registering? && x.keys != [])
            && (t.threads[w].Registering? ==> t.threads[w].keys == x.keys[1..])
            && (HasKey(x) && HasKey(t.threads[w]) ==> t.threads[w].key == x.key)
  {
  }

  lemma AwaitsNext(s: State, w: nat, k: Key)
    requires Inv(s) && Enabled(s, w)
    ensures Awaits(Next(s, w), k) <==> Awaits(s, k) && !Registers(s, w, k)
  {
    var t := Next(s, w);
    OneMoves(s, w);
    assert ThreadOk(s, w);
    if v :| 0 <= v < |s.threads| && s.threads[v].Registering? && k in s.threads[v].keys {
      if !Registers(s, w, k) {
        assert t.threads[v].Registering? && k in t.threads[v].keys;
      }
    }
    if Awaits(t, k) {
      var v :| 0 <= v < |t.threads| && t.threads[v].Registering? && k in t.threads[v].keys;
      assert s.threads[v].Registering? && k in s.threads[v].keys;
    }
  }

  lemma VictimNext(s: State, w: nat, k: Key)
    requires Inv(s) && Enabled(s, w)
    ensures Victim(Next(s, w), k) <==>
            if s.threads[w].Popping? then s.lru != [] && s.lru[0] == k
            else Victim(s, k) && !s.threads[w].Removing?
  {
    assert ThreadOk(s, w);
  }

  lemma LruNext(s: State, w: nat, k: Key)
    requires Inv(s) && Enabled(s, w)
    ensures var x := s.threads[w];
            k in Next(s, w).lru <==>
            if Registers(s, w, k) || x == Putting(k) || (x == Reputting(k) && !s.handles[k].cached) then true
            else k in s.lru && x != Removing(k) && !(x.Popping? && s.lru[0] == k)
    ensures NoDuplicates(Next(s, w).lru)
  {
    var x := s.threads[w];
    if x.Popping? && s.lru != [] { assert s.lru[0] !in s.lru[1..]; }
  }

  /** A column comes to be tracked by being put into the LRU, and ceases to be by being evicted. */
  lemma TrackedNext(s: State, w: nat, k: Key)
    requires Inv(s) && Enabled(s, w) && k in s.handles
    ensures var x := s.threads[w];
            Tracked(Next(s, w), k) <==>
            if x == Putting(k) || x == Reputting(k) then true else if x == Removing(k) then false else Tracked(s, k)
  {
    AwaitsNext(s, w, k);
    VictimNext(s, w, k);
    LruNext(s, w, k);
    assert ThreadOk(s, w) && HandleOk(s, k) && AwaitOk(s, k);
  }

  // ---------------------------------------------------------------- every step keeps the invariant

  lemma HandleOther(s: State, w: nat, k: Key)
    requires Inv(s) && Enabled(s, w) && k in s.handles && !(HasKey(s.threads[w]) && s.threads[w].key == k)
    ensures k in Next(s, w).handles && HandleOk(Next(s, w), k)
  {
    OneMoves(s, w);
    TrackedNext(s, w, k);
    assert HandleOk(s, k);
  }

  lemma HandleFocus(s: State, w: nat)
    requires Inv(s) && Enabled(s, w) && HasKey(s.threads[w])
    ensures s.threads[w].key in Next(s, w).handles && HandleOk(Next(s, w), s.threads[w].key)
  {
    var k := s.threads[w].key;
    OneMoves(s, w);
    assert ThreadOk(s, w) && HandleOk(s, k);
    TrackedNext(s, w, k);
    VictimSettled(s, w);
  }

  /** The victim is tracked, so it is cached until it is cleared. */
  lemma VictimSettled(s: State, w: nat)
    requires Inv(s) && Enabled(s, w)
    ensures s.threads[w].Unmarking? ==> s.handles[s.threads[w].key].cached
  {
    assert ThreadOk(s, w);
    if s.threads[w].Unmarking? {
      assert HandleOk(s, s.threads[w].key);
    }
  }

  lemma HandlesKept(s: State, w: nat)
    requires Inv(s) && Enabled(s, w)
    ensures forall k :: k in Next(s, w).handles ==> HandleOk(Next(s, w), k)
  {
    OneMoves(s, w);
    forall k | k in Next(s, w).handles ensures HandleOk(Next(s, w), k) {
      if HasKey(s.threads[w]) && s.threads[w].key == k {
        HandleFocus(s, w);
      } else {
        HandleOther(s, w, k);
      }
    }
  }

  lemma RegisterMoved(s: State, w: nat)
    requires Inv(s) && Enabled(s, w) && s.threads[w].Registering?
    ensures w < |Next(s, w).threads| && ThreadOk(Next(s, w), w)
  {
    var x := s.threads[w];
    OneMoves(s, w);
    assert ThreadOk(s, w);
    if x.keys != [] {
      assert forall i :: 0 <= i < |x.keys[1..]| ==> x.keys[1..][i] == x.keys[i + 1];
    }
  }

  /** A thread holds the lock of the column it works on after the step too. */
  lemma MovedOwns(s: State, w: nat)
    requires Enabled(s, w) && ThreadOk(s, w) && (forall k :: k in s.lru ==> k in s.handles)
    ensures var t := Next(s, w); var y := t.threads[w];
            && (HasKey(y) ==> y.key in t.handles)
            && (HasKey(y) && InLock(y) ==> t.handles[y.key].holder == Some(w))
            && (y.Popping? || y.Evicting? || y.Unmarking? || y.Clearing? || y.Removing? ==> s.threads[w].Popping? || w == 0)
  {
  }

  lemma ThreadMoved(s: State, w: nat)
    requires Inv(s) && Enabled(s, w) && !s.threads[w].Registering?
    ensures w < |Next(s, w).threads| && ThreadOk(Next(s, w), w)
  {
    var x, t := s.threads[w], Next(s, w);
    OneMoves(s, w);
    assert ThreadOk(s, w);
    MovedOwns(s, w);
    var y := t.threads[w];
    if HasKey(y) && SawAbsent(y) {
      AwaitsNext(s, w, y.key);
      assert SawAbsent(x) || x.Looking?;
      assert AwaitOk(s, x.key);
    }
  }

  lemma ThreadKept(s: State, w: nat, v: nat)
    requires Inv(s) && Enabled(s, w) && v < |s.threads| && v != w
    ensures v < |Next(s, w).threads| && ThreadOk(Next(s, w), v)
  {
    var x := s.threads[v];
    OneMoves(s, w);
    assert ThreadOk(s, w) && ThreadOk(s, v);
    if HasKey(x) {
      AwaitsNext(s, w, x.key);
      assert HandleOk(s, x.key);
    }
  }

  lemma AwaitKept(s: State, w: nat, k: Key)
    requires Inv(s) && Enabled(s, w) && k in s.handles
    ensures k in Next(s, w).handles && AwaitOk(Next(s, w), k)
  {
    OneMoves(s, w);
    assert ThreadOk(s, w) && AwaitOk(s, k) && HandleOk(s, k);
    AwaitsNext(s, w, k);
    VictimNext(s, w, k);
    LruNext(s, w, k);
  }

  lemma ThreadsKept(s: State, w: nat)
    requires Inv(s) && Enabled(s, w)
    ensures forall v: nat :: v < |Next(s, w).threads| ==> ThreadOk(Next(s, w), v)
  {
    OneMoves(s, w);
    forall v: nat | v < |Next(s, w).threads| ensures ThreadOk(Next(s, w), v) {
      if v == w && s.threads[w].Registering? {
        RegisterMoved(s, w);
      } else if v == w {
        ThreadMoved(s, w);
      } else {
        ThreadKept(s, w, v);
      }
    }
  }

  lemma LruKept(s: State, w: nat)
    requires Inv(s) && Enabled(s, w)
    ensures NoDuplicates(Next(s, w).lru) && forall k :: k in Next(s, w).lru ==> k in Next(s, w).handles
  {
    OneMoves(s, w);
    LruNext(s, w, 0);
    assert ThreadOk(s, w);
    forall k | k in Next(s, w).lru ensures k in Next(s, w).handles {
      LruNext(s, w, k);
    }
  }

  lemma NextKeeps(s: State, w: nat)
    requires Inv(s) && Enabled(s, w)
    ensures Inv(Next(s, w))
  {
    OneMoves(s, w);
    HandlesKept(s, w);
    ThreadsKept(s, w);
    LruKept(s, w);
    forall k | k in Next(s, w).handles ensures AwaitOk(Next(s, w), k) {
      AwaitKept(s, w, k);
    }
  }

  /** A thread that begins does not touch what is tracked, except for new columns. */
  lemma BeginTracks(s: State, w: nat, a: Action, k: Key)
    requires Inv(s) && w < |s.threads| && s.threads[w] == Idle && MayBegin(s, w, a)
    ensures var t := Begin(s, w, a);
            && (Awaits(t, k) <==> Awaits(s, k) || (a.Store? && k in a.keys))
            && (Victim(t, k) <==> Victim(s, k)) && t.lru == s.lru
  {
    var t := Begin(s, w, a);
    if v :| 0 <= v < |s.threads| && s.threads[v].Registering? && k in s.threads[v].keys {
      assert t.threads[v].Registering? && k in t.threads[v].keys;
    }
    if a.Store? && k in a.keys {
      assert t.threads[w].Registering? && k in t.threads[w].keys;
    }
  }

  lemma BeginHandles(s: State, w: nat, a: Action)
    requires w < |s.threads| && s.threads[w] == Idle && MayBegin(s, w, a)
    ensures var t := Begin(s, w, a);
            && (forall k :: k in s.handles ==> k in t.handles && t.handles[k].(scheduled := s.handles[k].scheduled) == s.handles[k])
            && (forall k :: k in t.handles && k !in s.handles ==> a.Store? && k in a.keys && t.handles[k] == Handle(true, true, false, None))
            && (a.Store? ==> forall i :: 0 <= i < |a.keys| ==> a.keys[i] in t.handles)
  {
    if a.Store? {
      assert forall i :: 0 <= i < |a.keys| ==> a.keys[i] in Elements(a.keys);
    }
  }

  lemma BeginHandle(s: State, w: nat, a: Action, k: Key)
    requires Inv(s) && w < |s.threads| && s.threads[w] == Idle && MayBegin(s, w, a)
    requires k in Begin(s, w, a).handles
    ensures HandleOk(Begin(s, w, a), k) && AwaitOk(Begin(s, w, a), k)
  {
    BeginHandles(s, w, a);
    BeginTracks(s, w, a, k);
    if k in s.handles {
      assert HandleOk(s, k) && AwaitOk(s, k);
    } else {
      VictimKnown(s, k);
    }
  }

  lemma VictimKnown(s: State, k: Key)
    requires Inv(s) && k !in s.handles
    ensures !Victim(s, k) && k !in s.lru
  {
    if |s.threads| > 0 { assert ThreadOk(s, 0); }
  }

  lemma BeginThread(s: State, w: nat, a: Action, v: nat)
    requires Inv(s) && w < |s.threads| && s.threads[w] == Idle && MayBegin(s, w, a) && v < |s.threads|
    ensures v < |Begin(s, w, a).threads| && ThreadOk(Begin(s, w, a), v)
  {
    var t := Begin(s, w, a);
    BeginHandles(s, w, a);
    assert ThreadOk(s, v);
    if HasKey(t.threads[v]) {
      BeginTracks(s, w, a, t.threads[v].key);
    }
  }

  lemma BeginKeeps(s: State, w: nat, a: Action)
    requires Inv(s) && w < |s.threads| && s.threads[w] == Idle && MayBegin(s, w, a)
    ensures Inv(Begin(s, w, a))
  {
    var t := Begin(s, w, a);
    BeginHandles(s, w, a);
    forall v: nat | v < |t.threads| ensures ThreadOk(t, v) {
      BeginThread(s, w, a, v);
    }
    forall k | k in t.handles ensures HandleOk(t, k) && AwaitOk(t, k) {
      BeginHandle(s, w, a, k);
    }
    forall v: nat | v < |s.threads| && s.threads[v].Registering? ensures forall k :: k in s.threads[v].keys ==> k in s.handles {
      assert ThreadOk(s, v);
    }
  }

  lemma {:induction false} Reached(tr: seq<State>, i: nat)
    requires Run(tr) && i < |tr|
    ensures Inv(tr[i])
  {
    if i > 0 {
      Reached(tr, i - 1);
      var s, t := tr[i - 1], tr[i];
      assert Step(s, t);
      if w: nat :| Enabled(s, w) && t == Next(s, w) {
        NextKeeps(s, w);
      } else {
        var w: nat, a :| w < |s.threads| && s.threads[w] == Idle && MayBegin(s, w, a) && t == Begin(s, w, a);
        BeginKeeps(s, w, a);
      }
    }
  }

  /** Whenever the lock of a handle is free, the column is resident if and only if it is cached,
      and cached if and only if it is in the LRU, the victim just popped, or still awaiting
      registration. */
  lemma CacheConsistent(tr: seq<State>, k: Key)
    requires Run(tr) && k in tr[|tr| - 1].handles && tr[|tr| - 1].handles[k].holder == None
    ensures var s := tr[|tr| - 1];
            && s.handles[k].resident == s.handles[k].cached
            && (s.handles[k].cached <==> k in s.lru || Victim(s, k) || Awaits(s, k))
  {
    Reached(tr, |tr| - 1);
    assert HandleOk(tr[|tr| - 1], k);
  }

  ghost predicate AllIdle(s: State) {
    forall w :: 0 <= w < |s.threads| ==> s.threads[w] == Idle
  }

  /** When all threads are idle, exactly the cached columns are in the LRU, each once, so every one
      of them can be evicted. */
  lemma AllEvictable(tr: seq<State>)
    requires Run(tr) && AllIdle(tr[|tr| - 1])
    ensures var s := tr[|tr| - 1];
            NoDuplicates(s.lru) && forall k :: k in s.lru <==> k in s.handles && s.handles[k].cached && s.handles[k].resident
  {
    var s := tr[|tr| - 1];
    Reached(tr, |tr| - 1);
    forall k ensures k in s.lru <==> k in s.handles && s.handles[k].cached && s.handles[k].resident {
      if k in s.handles { assert HandleOk(s, k); }
    }
  }

  // ---------------------------------------------------------------- promised loads

  /** The thread restores the column. */
  predicate Restores(x: Thread, k: Key) {
    (x.Restoring? || x.Reputting? || x.Recaching? || x.Remarking? || x.Unscheduling?) && x.key == k
  }

  ghost predicate BeingRestored(s: State, k: Key) {
    exists w :: 0 <= w < |s.threads| && Restores(s.threads[w], k)
  }

  /** A column that is marked as scheduled is in a queued run, or in the one being serviced. */
  ghost predicate PromisesKept(s: State) {
    forall k :: k in s.handles && s.handles[k].scheduled ==> k in s.queued || BeingRestored(s, k)
  }

  lemma PromisesNext(s: State, w: nat)
    requires PromisesKept(s) && Enabled(s, w)
    ensures PromisesKept(Next(s, w))
  {
    var t := Next(s, w);
    OneMoves(s, w);
    forall k | k in t.handles && t.handles[k].scheduled ensures k in t.queued || BeingRestored(t, k) {
      PromiseStays(s, w, k);
      if v :| 0 <= v < |s.threads| && Restores(s.threads[v], k) { assert Restores(t.threads[v], k); }
    }
  }

  /** A mark is cleared when the column has been restored, and not set by a step. */
  lemma PromiseStays(s: State, w: nat, k: Key)
    requires Enabled(s, w) && k in Next(s, w).handles && Next(s, w).handles[k].scheduled
    ensures k in s.handles && s.handles[k].scheduled && Next(s, w).queued == s.queued
    ensures w < |Next(s, w).threads| && (Restores(s.threads[w], k) ==> Restores(Next(s, w).threads[w], k))
  {
  }

  lemma PromisesBegin(s: State, w: nat, a: Action)
    requires PromisesKept(s) && w < |s.threads| && s.threads[w] == Idle && MayBegin(s, w, a)
    ensures PromisesKept(Begin(s, w, a))
  {
    var t := Begin(s, w, a);
    BeginHandles(s, w, a);
    forall k | k in t.handles && t.handles[k].scheduled ensures k in t.queued || BeingRestored(t, k) {
      if v :| 0 <= v < |s.threads| && Restores(s.threads[v], k) { assert Restores(t.threads[v], k); }
      if a == Service(k) { assert Restores(t.threads[w], k); }
    }
  }

  lemma {:induction false} PromisesReached(tr: seq<State>, i: nat)
    requires Run(tr) && i < |tr|
    ensures PromisesKept(tr[i])
  {
    if i > 0 {
      var j: nat := i - 1;
      PromisesReached(tr, j);
      var s, t := tr[j], tr[i];
      assert Step(tr[i - 1], tr[i]);
      if w: nat :| Enabled(s, w) && t == Next(s, w) {
        PromisesNext(s, w);
      } else {
        var w: nat, a :| w < |s.threads| && s.threads[w] == Idle && MayBegin(s, w, a) && t == Begin(s, w, a);
        PromisesBegin(s, w, a);
      }
    }
  }

  /** Once the queue is drained and no read is being serviced, no column is marked as scheduled, so that
      a worker that waits for one goes on to load it itself. */
  lemma WaitEnds(tr: seq<State>, w: nat)
    requires Run(tr) && w < |tr[|tr| - 1].threads| && tr[|tr| - 1].threads[w].Probing?
    requires var s := tr[|tr| - 1]; s.queued == multiset{} && forall k :: !BeingRestored(s, k)
    ensures var s := tr[|tr| - 1]; Enabled(s, w) && Next(s, w).threads[w] == Fetching(s.threads[w].key)
  {
    var s := tr[|tr| - 1];
    Reached(tr, |tr| - 1);
    PromisesReached(tr, |tr| - 1);
    assert ThreadOk(s, w);
  }
}
