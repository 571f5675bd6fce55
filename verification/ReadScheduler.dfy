/** Scheduling of sequential reads: consecutive partitions that lack the same columns are read in
    one run.  Every missing column that was asked for is read exactly once. */
module ReadScheduler {

  /** A column of a partition: its name, whether it is resident, and its size. */
  datatype Column = Column(name: string, resident: bool, size: nat)

  datatype Partition = Partition(id: nat, cols: seq<Column>)

  /** The columns to read from all partitions with an id from `start` to `end`. */
  datatype DiskRun = DiskRun(start: nat, end: nat, columns: set<string>, bytes: nat)

  ghost predicate UniqueNames(p: Partition) {
    forall i, j :: 0 <= i < j < |p.cols| ==> p.cols[i].name != p.cols[j].name
  }

  /** Column `c` has to be read. */
  predicate Wanted(requested: set<string>, c: Column) {
    !c.resident && c.name in requested
  }

  // ---------------------------------------------------------------- one partition

  /** `non_residents`. */
  method NonResidents(p: Partition, requested: set<string>) returns (names: set<string>)
    requires UniqueNames(p)
    ensures names <= requested
    ensures forall i :: 0 <= i < |p.cols| ==> (p.cols[i].name in names <==> Wanted(requested, p.cols[i]))
  {
    names := {};
    for k := 0 to |p.cols|
      invariant names <= requested
      invariant forall x :: x in names ==> exists i :: 0 <= i < k && p.cols[i].name == x
      invariant forall i :: 0 <= i < k ==> (p.cols[i].name in names <==> Wanted(requested, p.cols[i]))
    {
      if !p.cols[k].resident && p.cols[k].name in requested {
        names := names + {p.cols[k].name};
      }
    }
  }

  /** `nonresidents_match`: the run reads exactly the missing columns of the partition. */
  method NonResidentsMatch(p: Partition, names: set<string>, requested: set<string>) returns (r: bool)
    requires names <= requested
    ensures r <==> Fits(p, requested, names)
  {
    for k := 0 to |p.cols|
      invariant forall i :: 0 <= i < k ==> (p.cols[i].name in names <==> Wanted(requested, p.cols[i]))
    {
      if p.cols[k].resident {
        if p.cols[k].name in names {
          return false;
        }
      } else if p.cols[k].name in requested && p.cols[k].name !in names {
        return false;
      }
    }
    r := true;
  }

  /** `promise_load`: marks columns as scheduled and adds up their sizes. */
  method PromiseLoad(p: Partition, names: set<string>, marks: set<(nat, string)>) returns (bytes: nat, marks': set<(nat, string)>)
    ensures Promised(p, names, marks, marks') && bytes == Bytes(p.cols, names)
  {
    bytes, marks' := 0, marks;
    for k := 0 to |p.cols|
      invariant bytes == Bytes(p.cols[..k], names)
      invariant forall x :: x in marks' <==> x in marks || (x.0 == p.id && exists i :: 0 <= i < k && p.cols[i].name == x.1 && x.1 in names)
    {
      if p.cols[k].name in names {
        marks' := marks' + {(p.id, p.cols[k].name)};
        bytes := bytes + p.cols[k].size;
      }
      assert p.cols[..k + 1][..k] == p.cols[..k];
    }
    assert p.cols[..|p.cols|] == p.cols;
  }

  /** The total size of the named columns. */
  ghost function Bytes(cols: seq<Column>, names: set<string>): nat {
    if cols == [] then 0
    else var last := cols[|cols| - 1]; Bytes(cols[..|cols| - 1], names) + if last.name in names then last.size else 0
  }

  // ---------------------------------------------------------------- runs

  /** The run reads column `name` of partition `id`. */
  predicate Reads(run: DiskRun, id: nat, name: string) {
    run.start <= id <= run.end && name in run.columns
  }

  ghost predicate ReadBy(runs: seq<DiskRun>, id: nat, name: string) {
    exists i :: 0 <= i < |runs| && Reads(runs[i], id, name)
  }

  /** The ranges of the runs lie one after the other. */
  ghost predicate Disjoint(runs: seq<DiskRun>) {
    && (forall i :: 0 <= i < |runs| ==> runs[i].start <= runs[i].end)
    && (forall i, j :: 0 <= i < j < |runs| ==> runs[i].end < runs[j].start)
  }

  /** The runs read exactly what is wanted of the partition. */
  ghost predicate Served(runs: seq<DiskRun>, requested: set<string>, p: Partition) {
    forall i :: 0 <= i < |p.cols| ==> (ReadBy(runs, p.id, p.cols[i].name) <==> Wanted(requested, p.cols[i]))
  }

  /** Exactly the wanted columns of the first `m` partitions are marked, on top of `marks0`. */
  ghost predicate Marked(ps: seq<Partition>, m: nat, requested: set<string>, marks0: set<(nat, string)>, marks: set<(nat, string)>)
    requires m <= |ps|
  {
    forall x :: x in marks <==> x in marks0 || exists k, i :: 0 <= k < m && 0 <= i < |ps[k].cols| && IsWanted(ps[k], i, requested, x)
  }

  ghost predicate IsWanted(p: Partition, i: nat, requested: set<string>, x: (nat, string))
    requires i < |p.cols|
  {
    x == (p.id, p.cols[i].name) && Wanted(requested, p.cols[i])
  }

  /** Strictly increasing ids. */
  ghost predicate SortedIds(ps: seq<Partition>) {
    forall i, j :: 0 <= i < j < |ps| ==> ps[i].id < ps[j].id
  }

  /** The runs serve the first `m` partitions and do not reach further. */
  ghost predicate Closed(ps: seq<Partition>, requested: set<string>, m: nat, runs: seq<DiskRun>)
    requires m <= |ps|
  {
    && Disjoint(runs)
    && (forall k :: 0 <= k < m ==> Served(runs, requested, ps[k]))
    && (forall i, k :: 0 <= i < |runs| && m <= k < |ps| ==> runs[i].end < ps[k].id)
  }

  /** The current run serves the partitions from `c` up to `m`. */
  ghost predicate Open(ps: seq<Partition>, requested: set<string>, m: nat, c: nat, run: DiskRun)
    requires c <= m <= |ps|
  {
    && run.columns <= requested
    && (forall k :: c <= k < m ==> run.start <= ps[k].id)
    && (forall k :: c <= k < m ==> Fits(ps[k], requested, run.columns))
    && (if c == 0 then m == 0 ==> run.columns == {} else c < m && run.start == ps[c].id)
  }

  ghost predicate Fits(p: Partition, requested: set<string>, names: set<string>) {
    forall i :: 0 <= i < |p.cols| ==> (p.cols[i].name in names <==> Wanted(requested, p.cols[i]))
  }

  /** The id where a run ends that has served `m` partitions. */
  function Previous(ps: seq<Partition>, m: nat): nat
    requires m <= |ps|
  {
    if m == 0 then 0 else ps[m - 1].id
  }

  /** The size of the named columns in the partitions from `from` up to `to`. */
  ghost function Load(ps: seq<Partition>, from: nat, to: nat, names: set<string>): nat
    requires from <= to <= |ps|
  {
    if from == to then 0 else Load(ps, from, to - 1, names) + Bytes(ps[to - 1].cols, names)
  }

  /** The run reads the partitions from `from` up to `to`.  `bytes` is what it reads, and without
      its last partition it would not exceed the readahead. */
  ghost predicate Spans(ps: seq<Partition>, readahead: nat, run: DiskRun, from: nat, to: nat) {
    && from <= to <= |ps|
    && (forall k :: 0 <= k < |ps| ==> (from <= k < to <==> run.start <= ps[k].id <= run.end))
    && Loaded(ps, readahead, run, from, to)
  }

  ghost predicate Loaded(ps: seq<Partition>, readahead: nat, run: DiskRun, from: nat, to: nat)
    requires from <= to <= |ps|
  {
    run.bytes == Load(ps, from, to, run.columns) && (from < to ==> Load(ps, from, to - 1, run.columns) <= readahead)
  }

  ghost predicate AllBounded(ps: seq<Partition>, requested: set<string>, readahead: nat, runs: seq<DiskRun>) {
    forall i :: 0 <= i < |runs| ==> IsBounded(ps, requested, readahead, runs[i])
  }

  ghost predicate IsBounded(ps: seq<Partition>, requested: set<string>, readahead: nat, run: DiskRun) {
    exists from: nat, to: nat :: Spans(ps, readahead, run, from, to) && MustEnd(ps, requested, readahead, run, to)
  }

  /** The run cannot go on: there are no more partitions, it exceeds the readahead, or other columns are
      missing in the next partition. */
  ghost predicate MustEnd(ps: seq<Partition>, requested: set<string>, readahead: nat, run: DiskRun, to: nat) {
    to < |ps| ==> run.bytes > readahead || !Fits(ps[to], requested, run.columns)
  }

  lemma Bounded(ps: seq<Partition>, requested: set<string>, readahead: nat, m: nat, c: nat, runs: seq<DiskRun>, run: DiskRun)
    requires SortedIds(ps) && Scheduling(ps, requested, m, c, runs, run) && Loaded(ps, readahead, run, c, m) && AllBounded(ps, requested, readahead, runs)
    requires (m == 0 ==> ps == []) && MustEnd(ps, requested, readahead, run, m)
    ensures AllBounded(ps, requested, readahead, runs + [run.(end := Previous(ps, m))])
  {
    var last := run.(end := Previous(ps, m));
    assert Spans(ps, readahead, last, c, m) && MustEnd(ps, requested, readahead, last, m);
    assert IsBounded(ps, requested, readahead, last);
  }

  /** One more run, behind all others, serves more partitions and none of the earlier ones. */
  lemma Append(ps: seq<Partition>, requested: set<string>, m: nat, c: nat, runs: seq<DiskRun>, run: DiskRun)
    requires SortedIds(ps) && c <= m <= |ps| && Closed(ps, requested, c, runs) && Open(ps, requested, m, c, run)
    requires (c == 0 ==> runs == [] && run.start <= Previous(ps, m)) && (m == 0 ==> ps == [])
    ensures Closed(ps, requested, m, runs + [run.(end := Previous(ps, m))])
  {
    var last := run.(end := Previous(ps, m));
    var all := runs + [last];
    assert c > 0 ==> forall i :: 0 <= i < |runs| ==> runs[i].end < ps[c].id;
    forall k | 0 <= k < m ensures Served(all, requested, ps[k]) {
      AppendServes(ps, requested, m, c, runs, run, k);
    }
  }

  lemma AppendServes(ps: seq<Partition>, requested: set<string>, m: nat, c: nat, runs: seq<DiskRun>, run: DiskRun, k: nat)
    requires SortedIds(ps) && c <= m <= |ps| && k < m && Closed(ps, requested, c, runs) && Open(ps, requested, m, c, run)
    ensures Served(runs + [run.(end := Previous(ps, m))], requested, ps[k])
  {
    var last := run.(end := Previous(ps, m));
    var all := runs + [last];
    assert all[|runs|] == last;
    forall i | 0 <= i < |ps[k].cols| ensures ReadBy(all, ps[k].id, ps[k].cols[i].name) <==> Wanted(requested, ps[k].cols[i]) {
      var name := ps[k].cols[i].name;
      if j :| 0 <= j < |runs| && Reads(runs[j], ps[k].id, name) { assert Reads(all[j], ps[k].id, name); }
      if k < c {
        assert Served(runs, requested, ps[k]);
        assert !Reads(last, ps[k].id, name);
      } else {
        assert Fits(ps[k], requested, run.columns);
        assert Reads(last, ps[k].id, name) <==> name in run.columns;
      }
    }
  }

  /** A run without columns can be dropped. */
  lemma Drop(ps: seq<Partition>, requested: set<string>, m: nat, c: nat, runs: seq<DiskRun>, run: DiskRun)
    requires SortedIds(ps) && c <= m <= |ps| && Closed(ps, requested, c, runs) && Open(ps, requested, m, c, run) && run.columns == {}
    ensures Closed(ps, requested, m, runs)
  {
    forall k | c <= k < m ensures Served(runs, requested, ps[k]) {
      assert Fits(ps[k], requested, run.columns);
    }
  }

  lemma MarkedNext(ps: seq<Partition>, m: nat, requested: set<string>, names: set<string>, marks0: set<(nat, string)>,
                   marks: set<(nat, string)>, marks': set<(nat, string)>)
    requires m < |ps| && Marked(ps, m, requested, marks0, marks) && Fits(ps[m], requested, names)
    requires Promised(ps[m], names, marks, marks')
    ensures Marked(ps, m + 1, requested, marks0, marks')
  {
    var p := ps[m];
    forall x ensures x in marks' <==> x in marks0 || exists k, i :: 0 <= k < m + 1 && 0 <= i < |ps[k].cols| && IsWanted(ps[k], i, requested, x) {
      if x in marks' && x !in marks {
        var i :| 0 <= i < |p.cols| && p.cols[i].name == x.1 && x.1 in names;
        assert IsWanted(ps[m], i, requested, x);
      }
      if k, i :| 0 <= k < m + 1 && 0 <= i < |ps[k].cols| && IsWanted(ps[k], i, requested, x) {
        if k == m { assert p.cols[i].name == x.1; }
      }
    }
  }

  /** The wanted columns of a partition are marked, on top of `marks`. */
  ghost predicate Promised(p: Partition, names: set<string>, marks: set<(nat, string)>, marks': set<(nat, string)>) {
    forall x :: x in marks' <==> x in marks || (x.0 == p.id && exists i :: 0 <= i < |p.cols| && p.cols[i].name == x.1 && x.1 in names)
  }

  /** A new run starts with the partition `p`. */
  method StartRun(p: Partition, requested: set<string>, marks: set<(nat, string)>) returns (run: DiskRun, marks': set<(nat, string)>)
    requires UniqueNames(p)
    ensures run.start == p.id && run.columns <= requested && Fits(p, requested, run.columns)
    ensures Promised(p, run.columns, marks, marks') && run.bytes == Bytes(p.cols, run.columns)
  {
    var names := NonResidents(p, requested);
    var bytes;
    bytes, marks' := PromiseLoad(p, names, marks);
    run := DiskRun(p.id, 0, names, bytes);
  }

  /** The state of the loop after `m` partitions: the runs queued serve the first `c`, the current
      run the others. */
  ghost predicate Scheduling(ps: seq<Partition>, requested: set<string>, m: nat, c: nat, runs: seq<DiskRun>, run: DiskRun)
  {
    && c <= m <= |ps| && Closed(ps, requested, c, runs) && Open(ps, requested, m, c, run)
    && (c == 0 ==> runs == [] && (m == 0 ==> run.start == 0))
  }

  lemma Started(ps: seq<Partition>, requested: set<string>, m: nat, runs: seq<DiskRun>, run: DiskRun)
    requires m < |ps| && Closed(ps, requested, m, runs) && (m == 0 ==> runs == [])
    requires run.start == ps[m].id && run.columns <= requested && Fits(ps[m], requested, run.columns)
    ensures Scheduling(ps, requested, m + 1, m, runs, run)
  {
  }

  lemma Continued(ps: seq<Partition>, requested: set<string>, m: nat, c: nat, runs: seq<DiskRun>, run: DiskRun, bytes: nat)
    requires SortedIds(ps) && m < |ps| && Scheduling(ps, requested, m, c, runs, run) && Fits(ps[m], requested, run.columns)
    ensures Scheduling(ps, requested, m + 1, c, runs, run.(bytes := bytes))
  {
  }

  lemma LoadStarted(ps: seq<Partition>, readahead: nat, m: nat, run: DiskRun)
    requires m < |ps| && run.bytes == Bytes(ps[m].cols, run.columns)
    ensures Loaded(ps, readahead, run, m, m + 1)
  {
    assert Load(ps, m, m, run.columns) == 0;
  }

  lemma LoadContinued(ps: seq<Partition>, readahead: nat, m: nat, c: nat, run: DiskRun, bytes: nat)
    requires c <= m < |ps| && Loaded(ps, readahead, run, c, m) && run.bytes <= readahead && bytes == Bytes(ps[m].cols, run.columns)
    ensures Loaded(ps, readahead, run.(bytes := run.bytes + bytes), c, m + 1)
  {
  }

  /** Puts the current run into the queue, unless it has no columns. */
  method CloseRun(ps: seq<Partition>, ghost requested: set<string>, ghost readahead: nat, m: nat, ghost c: nat,
                  ghost runs: seq<DiskRun>, run: DiskRun, ghost base: seq<DiskRun>, queue: seq<DiskRun>)
    returns (queue': seq<DiskRun>, ghost runs': seq<DiskRun>)
    requires SortedIds(ps) && m < |ps| && Scheduling(ps, requested, m, c, runs, run) && queue == base + runs
    requires AllBounded(ps, requested, readahead, runs) && Loaded(ps, readahead, run, c, m)
    requires MustEnd(ps, requested, readahead, run, m) && forall i :: 0 <= i < |runs| ==> runs[i].columns != {}
    ensures queue' == base + runs' && Closed(ps, requested, m, runs') && AllBounded(ps, requested, readahead, runs')
    ensures (m == 0 ==> runs' == []) && forall i :: 0 <= i < |runs'| ==> runs'[i].columns != {}
  {
    queue', runs' := queue, runs;
    if run.columns != {} {
      Append(ps, requested, m, c, runs, run);
      Bounded(ps, requested, readahead, m, c, runs, run);
      var done := run.(end := Previous(ps, m));
      queue', runs' := queue + [done], runs + [done];
    } else {
      Drop(ps, requested, m, c, runs, run);
    }
  }

  /** The loop of `schedule_sequential_read`, over partitions sorted by id. */
  method QueueRuns(ps: seq<Partition>, requested: set<string>, readahead: nat, queue: seq<DiskRun>, marks: set<(nat, string)>)
    returns (queue': seq<DiskRun>, marks': set<(nat, string)>, ghost runs: seq<DiskRun>)
    requires SortedIds(ps) && forall k :: 0 <= k < |ps| ==> UniqueNames(ps[k])
    ensures queue' == queue + runs && Disjoint(runs)
    ensures forall k :: 0 <= k < |ps| ==> Served(runs, requested, ps[k])
    ensures Marked(ps, |ps|, requested, marks, marks') && AllBounded(ps, requested, readahead, runs)
    ensures forall i :: 0 <= i < |runs| - 1 ==> runs[i].columns != {}
  {
    queue', marks', runs := queue, marks, [];
    var run := DiskRun(0, 0, {}, 0);
    ghost var c: nat := 0;
    for m := 0 to |ps|
      invariant queue' == queue + runs && Scheduling(ps, requested, m, c, runs, run)
      invariant Marked(ps, m, requested, marks, marks') && AllBounded(ps, requested, readahead, runs) && Loaded(ps, readahead, run, c, m)
      invariant forall i :: 0 <= i < |runs| ==> runs[i].columns != {}
    {
      var matches := NonResidentsMatch(ps[m], run.columns, requested);
      ghost var marks0 := marks';
      if run.bytes > readahead || !matches {
        queue', runs := CloseRun(ps, requested, readahead, m, c, runs, run, queue, queue');
        run, marks' := StartRun(ps[m], requested, marks');
        Started(ps, requested, m, runs, run);
        LoadStarted(ps, readahead, m, run);
        c := m;
      } else {
        var bytes;
        bytes, marks' := PromiseLoad(ps[m], run.columns, marks');
        Continued(ps, requested, m, c, runs, run, run.bytes + bytes);
        LoadContinued(ps, readahead, m, c, run, bytes);
        run := run.(bytes := run.bytes + bytes);
      }
      MarkedNext(ps, m, requested, run.columns, marks, marks0, marks');
    }
    Append(ps, requested, |ps|, c, runs, run);
    Bounded(ps, requested, readahead, |ps|, c, runs, run);
    var done := run.(end := Previous(ps, |ps|));
    queue', runs := queue' + [done], runs + [done];
  }

  /** `sort_unstable_by_key`. */
  method SortById(ps: seq<Partition>) returns (r: seq<Partition>)
    requires UniqueIds(ps)
    ensures SortedIds(r) && forall p :: p in r <==> p in ps
  {
    r := [];
    for k := 0 to |ps|
      invariant SortedIds(r) && forall p :: p in r <==> p in ps[..k]
    {
      var p, i := ps[k], 0;
      while i < |r| && r[i].id < p.id
        invariant i <= |r| && forall j :: 0 <= j < i ==> r[j].id < p.id
      {
        i := i + 1;
      }
      assert i < |r| ==> r[i] in ps[..k];
      InsertById(r, i, p);
      forall q ensures q in r[..i] + [p] + r[i..] <==> q in r || q == p { InsertElement(r, i, p, q); }
      assert ps[..k + 1] == ps[..k] + [p];
      r := r[..i] + [p] + r[i..];
    }
    assert ps[..|ps|] == ps;
  }

  lemma InsertById(r: seq<Partition>, i: nat, p: Partition)
    requires SortedIds(r) && i <= |r| && (forall j :: 0 <= j < i ==> r[j].id < p.id) && (i < |r| ==> p.id < r[i].id)
    ensures SortedIds(r[..i] + [p] + r[i..])
  {
    var t := r[..i] + [p] + r[i..];
    assert forall j :: 0 <= j < |t| ==> t[j] == if j < i then r[j] else if j == i then p else r[j - 1];
  }

  lemma InsertElement(r: seq<Partition>, i: nat, p: Partition, q: Partition)
    requires i <= |r|
    ensures q in r[..i] + [p] + r[i..] <==> q in r || q == p
  {
    assert r == r[..i] + r[i..];
  }

  ghost predicate UniqueIds(ps: seq<Partition>) {
    forall i, j :: 0 <= i < j < |ps| ==> ps[i].id != ps[j].id
  }

  /** `schedule_sequential_read`: the runs put into the queue have disjoint ranges and read exactly
      the requested columns that are not resident, and exactly these are marked.  No run without its
      last partition exceeds the readahead.  The snapshot is sorted by id. */
  method ScheduleSequentialRead(snapshot: seq<Partition>, requested: set<string>, readahead: nat, queue: seq<DiskRun>, marks: set<(nat, string)>)
    returns (snapshot': seq<Partition>, queue': seq<DiskRun>, marks': set<(nat, string)>, ghost runs: seq<DiskRun>)
    requires UniqueIds(snapshot) && forall p :: p in snapshot ==> UniqueNames(p)
    ensures queue' == queue + runs && Disjoint(runs)
    ensures forall p :: p in snapshot ==> Served(runs, requested, p)
    ensures forall x :: x in marks' <==> x in marks || WantedIn(snapshot, requested, x)
    ensures SortedIds(snapshot') && (forall p :: p in snapshot' <==> p in snapshot) && AllBounded(snapshot', requested, readahead, runs)
    ensures forall i :: 0 <= i < |runs| - 1 ==> runs[i].columns != {}
  {
    var ps := SortById(snapshot);
    snapshot' := ps;
    assert forall k :: 0 <= k < |ps| ==> ps[k] in ps;
    queue', marks', runs := QueueRuns(ps, requested, readahead, queue, marks);
    forall x ensures x in marks' <==> x in marks || WantedIn(snapshot, requested, x) {
      if p, i :| p in ps && 0 <= i < |p.cols| && IsWanted(p, i, requested, x) {
        var k :| 0 <= k < |ps| && ps[k] == p;
        assert IsWanted(ps[k], i, requested, x);
      }
    }
  }

  /** Some partition of the snapshot wants the column. */
  ghost predicate WantedIn(ps: seq<Partition>, requested: set<string>, x: (nat, string)) {
    exists p, i :: p in ps && 0 <= i < |p.cols| && IsWanted(p, i, requested, x)
  }

  /** With disjoint ranges a column is read by one run only. */
  lemma ReadOnce(runs: seq<DiskRun>, id: nat, name: string, i: nat, j: nat)
    requires Disjoint(runs) && i < |runs| && j < |runs| && Reads(runs[i], id, name) && Reads(runs[j], id, name)
    ensures i == j
  {
  }

  /** Every column that scheduling newly marks is read by a run that it queues, so a promise to load it
      will be kept. */
  lemma MarksAreRead(snapshot: seq<Partition>, requested: set<string>, runs: seq<DiskRun>, marks: set<(nat, string)>, marks': set<(nat, string)>, x: (nat, string))
    requires forall p :: p in snapshot ==> Served(runs, requested, p)
    requires forall y :: y in marks' <==> y in marks || WantedIn(snapshot, requested, y)
    requires x in marks' && x !in marks
    ensures ReadBy(runs, x.0, x.1)
  {
    var p, i :| p in snapshot && 0 <= i < |p.cols| && IsWanted(p, i, requested, x);
    assert Served(runs, requested, p);
  }
}
