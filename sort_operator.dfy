/** SortOperator: external merge sort over the records of a source, by one
    column. Pass 0 sorts blocks of the input into runs; every later pass
    merges groups of numBuffers - 1 runs through a priority queue. */
module ExternalSort {
  import opened Wrappers
  import opened Records

  /** A sorted run; the disk-backed Run of the source is its list of records. */
  type Run = seq<Record>

  ghost predicate AllSorted(runs: seq<Run>, col: nat) {
    forall i :: 0 <= i < |runs| ==> Sorted(runs[i], col)
  }

  // ------------------------------------------------------ sortRun

  /** sortRun: drain the iterator into a list, then sort the list by the column. */
  method SortRun(records: seq<Record>, col: nat) returns (run: Run)
    ensures Sorted(run, col) && multiset(run) == multiset(records)
  {
    var listOfRecords: seq<Record> := [];
    var i := 0;
    while i < |records|
      invariant 0 <= i <= |records| && listOfRecords == records[..i]
    {
      listOfRecords := listOfRecords + [records[i]];
      i := i + 1;
    }
    assert records[..|records|] == records;
    listOfRecords := SortByKey(listOfRecords, col);
    run := listOfRecords;
  }

  // ------------------------------------------------------ the priority queue of mergeSortedRuns

  /** Pair<Record, Integer>: the next unmerged record of run `run`. */
  datatype Entry = Entry(rec: Record, run: nat)

  /** The entry PriorityQueue.poll removes: one with the least key (the first
      such entry of the queue). */
  function MinIndex(pq: seq<Entry>, col: nat): (m: nat)
    requires |pq| > 0
    ensures m < |pq| && forall j :: 0 <= j < |pq| ==> Key(pq[m].rec, col) <= Key(pq[j].rec, col)
  {
    if |pq| == 1 then 0
    else
      var m := MinIndex(pq[1..], col);
      assert forall j :: 1 <= j < |pq| ==> pq[j] == pq[1..][j - 1];
      if Key(pq[0].rec, col) <= Key(pq[1..][m].rec, col) then 0 else m + 1
  }

  /** The records the queue holds. */
  function Heads(pq: seq<Entry>): (r: seq<Record>)
    ensures |r| == |pq| && forall j :: 0 <= j < |pq| ==> r[j] == pq[j].rec
  {
    seq(|pq|, j requires 0 <= j < |pq| => pq[j].rec)
  }

  ghost predicate HasEntry(pq: seq<Entry>, i: nat) {
    exists j :: 0 <= j < |pq| && pq[j].run == i
  }

  /** The records read so far from the runs: the first pos[i] records of run i. */
  ghost function Taken(runs: seq<Run>, pos: seq<nat>): multiset<Record>
    requires Positions(runs, pos)
  {
    if runs == [] then multiset{}
    else multiset(runs[0][..pos[0]]) + Taken(runs[1..], pos[1..])
  }

  /** `pos[i]` is how far the iterator of run i has read. */
  ghost predicate Positions(runs: seq<Run>, pos: seq<nat>) {
    |pos| == |runs| && forall i :: 0 <= i < |runs| ==> pos[i] <= |runs[i]|
  }

  /** Every queued entry is the record its run's iterator returned last, and
      no run has two entries. */
  ghost predicate Queued(runs: seq<Run>, pos: seq<nat>, pq: seq<Entry>) {
    && Positions(runs, pos)
    && (forall j :: 0 <= j < |pq| ==>
          pq[j].run < |runs| && 0 < pos[pq[j].run] && pq[j].rec == runs[pq[j].run][pos[pq[j].run] - 1])
    && (forall a, b :: 0 <= a < b < |pq| ==> pq[a].run != pq[b].run)
  }

  /** Every run below `n` other than `skip` that still has records has its entry. */
  ghost predicate Pending(runs: seq<Run>, pos: seq<nat>, pq: seq<Entry>, n: nat, skip: int) {
    |pos| == |runs| &&
    forall i: nat {:trigger HasEntry(pq, i)} :: i < n && i < |runs| && i != skip && pos[i] < |runs[i]| ==> HasEntry(pq, i)
  }

  /** The output is sorted and no greater than anything still queued. */
  ghost predicate Ordered(pq: seq<Entry>, out: seq<Record>, col: nat) {
    && Sorted(out, col)
    && (|out| > 0 ==> forall j :: 0 <= j < |pq| ==> Key(out[|out| - 1], col) <= Key(pq[j].rec, col))
  }

  /** Output and queue together are exactly the records read so far. */
  ghost predicate Accounted(runs: seq<Run>, pos: seq<nat>, pq: seq<Entry>, out: seq<Record>) {
    Positions(runs, pos) && multiset(out) + multiset(Heads(pq)) == Taken(runs, pos)
  }

  /** The state of mergeSortedRuns between two polls, once runs below `n`
      have been visited by the initial loop. */
  ghost predicate MergeInv(runs: seq<Run>, n: nat, pos: seq<nat>, pq: seq<Entry>, out: seq<Record>, col: nat) {
    Queued(runs, pos, pq) && Pending(runs, pos, pq, n, -1) && Ordered(pq, out, col) && Accounted(runs, pos, pq, out)
  }

  lemma {:induction false} TakenBump(runs: seq<Run>, pos: seq<nat>, i: nat)
    requires Positions(runs, pos) && i < |runs| && pos[i] < |runs[i]|
    ensures Positions(runs, pos[i := pos[i] + 1])
    ensures Taken(runs, pos[i := pos[i] + 1]) == Taken(runs, pos) + multiset{runs[i][pos[i]]}
  {
    var pos' := pos[i := pos[i] + 1];
    assert Positions(runs, pos');
    assert Positions(runs[1..], pos'[1..]);
    if i == 0 {
      assert pos'[1..] == pos[1..];
      assert runs[0][..pos'[0]] == runs[0][..pos[0]] + [runs[0][pos[0]]];
    } else {
      assert pos'[1..] == pos[1..][i - 1 := pos[i] + 1];
      assert Positions(runs[1..], pos[1..]);
      TakenBump(runs[1..], pos[1..], i - 1);
      assert runs[0][..pos'[0]] == runs[0][..pos[0]];
    }
  }

  lemma {:induction false} TakenAll(runs: seq<Run>, pos: seq<nat>)
    requires Positions(runs, pos) && forall k :: 0 <= k < |runs| ==> pos[k] == |runs[k]|
    ensures Taken(runs, pos) == multiset(Flatten(runs))
  {
    if runs != [] {
      assert runs[0][..pos[0]] == runs[0];
      TakenAll(runs[1..], pos[1..]);
    }
  }

  lemma {:induction false} TakenNone(runs: seq<Run>, pos: seq<nat>)
    requires Positions(runs, pos) && forall k :: 0 <= k < |runs| ==> pos[k] == 0
    ensures Taken(runs, pos) == multiset{}
  {
    if runs != [] {
      assert runs[0][..pos[0]] == [];
      TakenNone(runs[1..], pos[1..]);
    }
  }

  lemma {:induction false} TakenAtMost(runs: seq<Run>, pos: seq<nat>)
    requires Positions(runs, pos)
    ensures |Taken(runs, pos)| <= |Flatten(runs)|
  {
    if runs != [] {
      TakenAtMost(runs[1..], pos[1..]);
    }
  }

  function Zeros(n: nat): (r: seq<nat>)
    ensures |r| == n && forall k :: 0 <= k < n ==> r[k] == 0
  {
    seq(n, _ => 0)
  }

  /** Before the first run is visited: every iterator at its start, the queue empty. */
  lemma InitEmpty(runs: seq<Run>, col: nat)
    ensures MergeInv(runs, 0, Zeros(|runs|), [], [], col)
  {
    InitPositions(runs);
    assert Heads([]) == [];
  }

  /** Every iterator at its start has read nothing. */
  lemma InitPositions(runs: seq<Run>)
    ensures Positions(runs, Zeros(|runs|)) && Taken(runs, Zeros(|runs|)) == multiset{}
  {
    TakenNone(runs, Zeros(|runs|));
  }

  /** Reading the next record of run `i` (which has no entry) into the queue. */
  lemma Push(runs: seq<Run>, pos: seq<nat>, pq: seq<Entry>, out: seq<Record>, col: nat, n: nat, i: nat)
    requires Queued(runs, pos, pq) && Pending(runs, pos, pq, n, i) && Ordered(pq, out, col) && Accounted(runs, pos, pq, out)
    requires i < |runs| && pos[i] < |runs[i]| && forall j :: 0 <= j < |pq| ==> pq[j].run != i
    requires |out| > 0 ==> Key(out[|out| - 1], col) <= Key(runs[i][pos[i]], col)
    ensures var pos' := pos[i := pos[i] + 1];
            var q := pq + [Entry(runs[i][pos[i]], i)];
            && Queued(runs, pos', q) && Pending(runs, pos', q, n, -1) && HasEntry(q, i)
            && Ordered(q, out, col) && Accounted(runs, pos', q, out)
  {
    PushQueued(runs, pos, pq, i);
    PushPending(runs, pos, pq, n, i, runs[i][pos[i]]);
    PushAccounted(runs, pos, pq, out, i);
  }

  lemma PushQueued(runs: seq<Run>, pos: seq<nat>, pq: seq<Entry>, i: nat)
    requires Queued(runs, pos, pq) && i < |runs| && pos[i] < |runs[i]|
    requires forall j :: 0 <= j < |pq| ==> pq[j].run != i
    ensures Queued(runs, pos[i := pos[i] + 1], pq + [Entry(runs[i][pos[i]], i)])
  {
    var q := pq + [Entry(runs[i][pos[i]], i)];
    assert forall j :: 0 <= j < |pq| ==> q[j] == pq[j];
  }

  lemma PushPending(runs: seq<Run>, pos: seq<nat>, pq: seq<Entry>, n: nat, i: nat, x: Record)
    requires Pending(runs, pos, pq, n, i) && i < |runs|
    ensures Pending(runs, pos[i := pos[i] + 1], pq + [Entry(x, i)], n, -1)
    ensures HasEntry(pq + [Entry(x, i)], i)
  {
    var q := pq + [Entry(x, i)];
    assert q[|pq|].run == i;
    forall k: nat | k < n && k < |runs| && k != i && pos[k] < |runs[k]|
      ensures HasEntry(q, k)
    {
      assert HasEntry(pq, k);
      var j :| 0 <= j < |pq| && pq[j].run == k;
      assert q[j] == pq[j];
    }
  }

  lemma PushAccounted(runs: seq<Run>, pos: seq<nat>, pq: seq<Entry>, out: seq<Record>, i: nat)
    requires Accounted(runs, pos, pq, out) && i < |runs| && pos[i] < |runs[i]|
    ensures Accounted(runs, pos[i := pos[i] + 1], pq + [Entry(runs[i][pos[i]], i)], out)
  {
    TakenBump(runs, pos, i);
    assert Heads(pq + [Entry(runs[i][pos[i]], i)]) == Heads(pq) + [runs[i][pos[i]]];
  }

  /** The initial loop visits run `i`: its first record, if any, joins the queue. */
  lemma InitStep(runs: seq<Run>, i: nat, it: seq<nat>, pq: seq<Entry>, col: nat)
    requires i < |runs| && |it| == i && MergeInv(runs, i, it + Zeros(|runs| - i), pq, [], col)
    ensures var p := if |runs[i]| > 0 then 1 else 0;
            var q := if |runs[i]| > 0 then pq + [Entry(runs[i][0], i)] else pq;
            MergeInv(runs, i + 1, (it + [p]) + Zeros(|runs| - (i + 1)), q, [], col)
  {
    var pos := it + Zeros(|runs| - i);
    var p := if |runs[i]| > 0 then 1 else 0;
    assert (it + [p]) + Zeros(|runs| - (i + 1)) == pos[i := p];
    assert pos[i] == 0;
    if |runs[i]| > 0 {
      Push(runs, pos, pq, [], col, i, i);
      var q := pq + [Entry(runs[i][0], i)];
      assert HasEntry(q, i);
    } else {
      assert pos[i := p] == pos;
    }
  }

  /** The queue without its entry `m`. */
  function RemoveAt(pq: seq<Entry>, m: nat): (rest: seq<Entry>)
    requires m < |pq|
    ensures |rest| == |pq| - 1
    ensures forall j :: 0 <= j < |rest| ==> rest[j] == pq[if j < m then j else j + 1]
    ensures multiset(Heads(rest)) + multiset{pq[m].rec} == multiset(Heads(pq))
  {
    var rest := pq[..m] + pq[m + 1..];
    assert Heads(pq) == Heads(pq)[..m] + [pq[m].rec] + Heads(pq)[m + 1..];
    assert Heads(rest) == Heads(pq)[..m] + Heads(pq)[m + 1..];
    rest
  }

  lemma RemoveQueued(runs: seq<Run>, pos: seq<nat>, pq: seq<Entry>, m: nat)
    requires Queued(runs, pos, pq) && m < |pq|
    ensures Queued(runs, pos, RemoveAt(pq, m))
    ensures forall j :: 0 <= j < |pq| - 1 ==> RemoveAt(pq, m)[j].run != pq[m].run
  {
  }

  lemma RemovePending(runs: seq<Run>, pos: seq<nat>, pq: seq<Entry>, m: nat)
    requires Pending(runs, pos, pq, |runs|, -1) && m < |pq|
    ensures Pending(runs, pos, RemoveAt(pq, m), |runs|, pq[m].run)
  {
    var rest := RemoveAt(pq, m);
    forall k: nat | k < |runs| && k != pq[m].run && pos[k] < |runs[k]|
      ensures HasEntry(rest, k)
    {
      assert HasEntry(pq, k);
      var j :| 0 <= j < |pq| && pq[j].run == k;
      assert rest[if j < m then j else j - 1] == pq[j];
    }
  }

  lemma RemoveOrdered(pq: seq<Entry>, out: seq<Record>, col: nat)
    requires Ordered(pq, out, col) && |pq| > 0
    ensures Ordered(RemoveAt(pq, MinIndex(pq, col)), out + [pq[MinIndex(pq, col)].rec], col)
  {
  }

  lemma RemoveAccounted(runs: seq<Run>, pos: seq<nat>, pq: seq<Entry>, out: seq<Record>, m: nat)
    requires Accounted(runs, pos, pq, out) && m < |pq|
    ensures Accounted(runs, pos, RemoveAt(pq, m), out + [pq[m].rec])
  {
    assert multiset(out + [pq[m].rec]) == multiset(out) + multiset{pq[m].rec};
  }

  /** Polling the least entry: the queue without it and the output with it
      keep every part of the invariant but the entry of the polled run. */
  lemma PollRemove(runs: seq<Run>, pos: seq<nat>, pq: seq<Entry>, out: seq<Record>, col: nat)
    requires MergeInv(runs, |runs|, pos, pq, out, col) && |pq| > 0
    ensures var m := MinIndex(pq, col);
            var rest := RemoveAt(pq, m);
            && Queued(runs, pos, rest) && Pending(runs, pos, rest, |runs|, pq[m].run)
            && Ordered(rest, out + [pq[m].rec], col) && Accounted(runs, pos, rest, out + [pq[m].rec])
            && forall j :: 0 <= j < |rest| ==> rest[j].run != pq[m].run
  {
    var m := MinIndex(pq, col);
    RemoveQueued(runs, pos, pq, m);
    RemovePending(runs, pos, pq, m);
    RemoveOrdered(pq, out, col);
    RemoveAccounted(runs, pos, pq, out, m);
  }

  /** The run of the polled entry, and how far its iterator has read. */
  lemma PolledRun(runs: seq<Run>, pos: seq<nat>, pq: seq<Entry>, out: seq<Record>, col: nat)
    requires MergeState(runs, pos, pq, out, col) && |pq| > 0
    ensures pq[MinIndex(pq, col)].run < |runs| == |pos|
    ensures pos[pq[MinIndex(pq, col)].run] <= |runs[pq[MinIndex(pq, col)].run]|
  {
  }

  /** One iteration of the main loop when the polled run has more records:
      the next one takes the polled entry's place. */
  lemma PollRefill(runs: seq<Run>, pos: seq<nat>, pq: seq<Entry>, out: seq<Record>, col: nat)
    requires MergeState(runs, pos, pq, out, col) && AllSorted(runs, col) && |pq| > 0
    requires pos[pq[MinIndex(pq, col)].run] < |runs[pq[MinIndex(pq, col)].run]|
    ensures var e := pq[MinIndex(pq, col)];
            MergeState(runs, pos[e.run := pos[e.run] + 1], RemoveAt(pq, MinIndex(pq, col)) + [Entry(runs[e.run][pos[e.run]], e.run)],
                       out + [e.rec], col)
  {
    var m := MinIndex(pq, col);
    var e := pq[m];
    var rest := RemoveAt(pq, m);
    PollRemove(runs, pos, pq, out, col);
    assert Key(e.rec, col) <= Key(runs[e.run][pos[e.run]], col) by {
      assert e.rec == runs[e.run][pos[e.run] - 1];
      assert Sorted(runs[e.run], col);
    }
    Push(runs, pos, rest, out + [e.rec], col, |runs|, e.run);
    var pos' := pos[e.run := pos[e.run] + 1];
    var q := rest + [Entry(runs[e.run][pos[e.run]], e.run)];
    AtMostOnePerRun(q, |runs|);
    MergeSize(runs, pos', q, out + [e.rec]);
  }

  /** One iteration of the main loop when the polled run is used up. */
  lemma PollDrained(runs: seq<Run>, pos: seq<nat>, pq: seq<Entry>, out: seq<Record>, col: nat)
    requires MergeState(runs, pos, pq, out, col) && |pq| > 0
    requires pos[pq[MinIndex(pq, col)].run] == |runs[pq[MinIndex(pq, col)].run]|
    ensures MergeState(runs, pos, RemoveAt(pq, MinIndex(pq, col)), out + [pq[MinIndex(pq, col)].rec], col)
  {
    var m := MinIndex(pq, col);
    var rest := RemoveAt(pq, m);
    PollRemove(runs, pos, pq, out, col);
    AtMostOnePerRun(rest, |runs|);
    MergeSize(runs, pos, rest, out + [pq[m].rec]);
  }

  /** With the queue empty, every run has been read to its end. */
  lemma MergeDone(runs: seq<Run>, pos: seq<nat>, out: seq<Record>, col: nat)
    requires MergeInv(runs, |runs|, pos, [], out, col)
    ensures Sorted(out, col) && multiset(out) == multiset(Flatten(runs))
    ensures |out| == |Flatten(runs)|
  {
    assert Heads([]) == [];
    forall i | 0 <= i < |runs|
      ensures pos[i] == |runs[i]|
    {
      assert !HasEntry([], i);
    }
    TakenAll(runs, pos);
    assert |multiset(out)| == |multiset(Flatten(runs))|;
  }

  /** Entries for distinct runs below `n` number at most `n`. */
  lemma {:induction false} AtMostOnePerRun(pq: seq<Entry>, n: nat)
    requires forall j :: 0 <= j < |pq| ==> pq[j].run < n
    requires forall a, b :: 0 <= a < b < |pq| ==> pq[a].run != pq[b].run
    ensures |pq| <= n
    decreases n
  {
    if pq != [] {
      assert pq[0].run < n;
      var rest := WithoutRun(pq, n - 1);
      AtMostOnePerRun(rest, n - 1);
    }
  }

  /** The entries of `pq` for runs other than `i`; with one entry per run, at
      most one is dropped. */
  function WithoutRun(pq: seq<Entry>, i: nat): (r: seq<Entry>)
    requires forall j :: 0 <= j < |pq| ==> pq[j].run <= i
    requires forall a, b :: 0 <= a < b < |pq| ==> pq[a].run != pq[b].run
    ensures |r| >= |pq| - 1
    ensures forall j :: 0 <= j < |r| ==> r[j].run < i
    ensures forall a, b :: 0 <= a < b < |r| ==> r[a].run != r[b].run
    ensures forall j :: 0 <= j < |r| ==> r[j] in pq
  {
    if pq == [] then []
    else if pq[0].run == i then
      assert forall j :: 1 <= j < |pq| ==> pq[j].run != i by {
        assert forall j :: 1 <= j < |pq| ==> pq[0].run != pq[j].run;
      }
      pq[1..]
    else
      var rest := WithoutRun(pq[1..], i);
      assert forall j :: 0 <= j < |rest| ==> rest[j].run != pq[0].run by {
        forall j | 0 <= j < |rest|
          ensures rest[j].run != pq[0].run
        {
          var k :| 0 <= k < |pq[1..]| && pq[1..][k] == rest[j];
          assert pq[k + 1] == rest[j];
        }
      }
      [pq[0]] + rest
  }

  /** What was output and what is queued were read from the runs. */
  lemma MergeSize(runs: seq<Run>, pos: seq<nat>, pq: seq<Entry>, out: seq<Record>)
    requires Accounted(runs, pos, pq, out)
    ensures |out| + |pq| <= |Flatten(runs)|
  {
    TakenAtMost(runs, pos);
    assert |multiset(out) + multiset(Heads(pq))| == |out| + |pq|;
  }

  // ------------------------------------------------------ mergeSortedRuns

  /** mergeSortedRuns: a k-way merge of sorted runs through a priority queue
      holding at most one entry per run. */
  /** The first loop of mergeSortedRuns: an iterator per run, and the first
      record of every non-empty run in the queue. */
  method OpenRuns(runs: seq<Run>, col: nat) returns (iteratorList: seq<nat>, pq: seq<Entry>)
    ensures MergeInv(runs, |runs|, iteratorList, pq, [], col)
    ensures |pq| <= |runs|
  {
    pq := [];
    iteratorList := [];
    InitEmpty(runs, col);
    assert iteratorList + Zeros(|runs|) == Zeros(|runs|);
    var i := 0;
    while i < |runs|
      invariant 0 <= i <= |runs| && |iteratorList| == i
      invariant MergeInv(runs, i, iteratorList + Zeros(|runs| - i), pq, [], col)
    {
      InitStep(runs, i, iteratorList, pq, col);
      if |runs[i]| > 0 {
        pq := pq + [Entry(runs[i][0], i)];
        iteratorList := iteratorList + [1];
      } else {
        iteratorList := iteratorList + [0];
      }
      i := i + 1;
    }
    assert iteratorList + Zeros(0) == iteratorList;
    AtMostOnePerRun(pq, |runs|);
  }

  /** The merge invariant together with the bounds that make the main loop terminate. */
  ghost predicate MergeState(runs: seq<Run>, pos: seq<nat>, pq: seq<Entry>, out: seq<Record>, col: nat) {
    MergeInv(runs, |runs|, pos, pq, out, col) && |pq| <= |runs| && |out| + |pq| <= |Flatten(runs)|
  }

  /** One iteration of the main loop of mergeSortedRuns: poll the entry with
      the least key, output its record, and queue the next record of its run. */
  method PollOnce(runs: seq<Run>, col: nat, iteratorList: seq<nat>, pq: seq<Entry>, sortedList: seq<Record>)
      returns (iteratorList': seq<nat>, pq': seq<Entry>, sortedList': seq<Record>)
    requires AllSorted(runs, col) && MergeState(runs, iteratorList, pq, sortedList, col) && |pq| > 0
    ensures MergeState(runs, iteratorList', pq', sortedList', col)
    ensures |sortedList'| == |sortedList| + 1
  {
    PolledRun(runs, iteratorList, pq, sortedList, col);
    var m := MinIndex(pq, col);
    var temp := pq[m];
    pq' := RemoveAt(pq, m);
    sortedList' := sortedList + [temp.rec];
    iteratorList' := iteratorList;
    var iteratorIndex := temp.run;
    if iteratorList[iteratorIndex] < |runs[iteratorIndex]| {
      PollRefill(runs, iteratorList, pq, sortedList, col);
      pq' := pq' + [Entry(runs[iteratorIndex][iteratorList[iteratorIndex]], iteratorIndex)];
      iteratorList' := iteratorList[iteratorIndex := iteratorList[iteratorIndex] + 1];
    } else {
      PollDrained(runs, iteratorList, pq, sortedList, col);
    }
  }

  /** mergeSortedRuns: a k-way merge of sorted runs through a priority queue
      holding at most one entry per run; the loop polls once per record. */
  method MergeSortedRuns(runs: seq<Run>, numBuffers: nat, col: nat) returns (merged: Run)
    requires |runs| <= numBuffers - 1
    requires AllSorted(runs, col)
    ensures Sorted(merged, col) && multiset(merged) == multiset(Flatten(runs))
    ensures |merged| == |Flatten(runs)|
  {
    var sortedList: seq<Record> := [];
    var iteratorList: seq<nat>, pq: seq<Entry> := OpenRuns(runs, col);
    MergeSize(runs, iteratorList, pq, sortedList);
    while |pq| > 0
      invariant MergeState(runs, iteratorList, pq, sortedList, col)
      decreases |Flatten(runs)| - |sortedList|
    {
      iteratorList, pq, sortedList := PollOnce(runs, col, iteratorList, pq, sortedList);
    }
    MergeDone(runs, iteratorList, sortedList, col);
    merged := sortedList;
  }

  // ------------------------------------------------------ mergePass

  /** Merged run j is sorted and holds exactly the records of group j. */
  ghost predicate MergedGroups(out: seq<Run>, groups: seq<seq<Run>>, col: nat) {
    && |out| <= |groups|
    && forall j :: 0 <= j < |out| ==> Sorted(out[j], col) && multiset(out[j]) == multiset(Flatten(groups[j]))
  }

  /** Merging every group loses and adds no record. */
  lemma {:induction false} MergedGroupsKeepRecords(out: seq<Run>, groups: seq<seq<Run>>, col: nat)
    requires MergedGroups(out, groups, col) && |out| == |groups|
    ensures AllSorted(out, col) && multiset(Flatten(out)) == multiset(Flatten(Flatten(groups)))
  {
    if out != [] {
      assert MergedGroups(out[1..], groups[1..], col) by {
        forall j | 0 <= j < |out| - 1
          ensures out[1..][j] == out[j + 1] && groups[1..][j] == groups[j + 1]
        {
        }
      }
      MergedGroupsKeepRecords(out[1..], groups[1..], col);
      FlattenAppend(groups[0], Flatten(groups[1..]));
      forall i | 0 <= i < |out|
        ensures Sorted(out[i], col)
      {
      }
    }
  }

  /** The first loop of mergePass: merge the n / k full groups of k = numBuffers - 1 runs. */
  method MergeFullGroups(runs: seq<Run>, numBuffers: nat, col: nat)
    returns (sortedRuns: seq<Run>, lowerBound: int, upperBound: int)
    requires numBuffers >= 2 && AllSorted(runs, col)
    ensures |sortedRuns| == |runs| / (numBuffers - 1)
    ensures lowerBound == |sortedRuns| * (numBuffers - 1) && upperBound == lowerBound + (numBuffers - 1)
    ensures MergedGroups(sortedRuns, Chunks(runs, numBuffers - 1), col)
  {
    sortedRuns := [];
    var buffersAvailable := numBuffers - 1;
    var numPartitions := |runs| / buffersAvailable;
    lowerBound := 0;
    upperBound := buffersAvailable;
    var i := 0;
    while i < numPartitions
      invariant 0 <= i <= numPartitions && |sortedRuns| == i
      invariant lowerBound == i * buffersAvailable && upperBound == lowerBound + buffersAvailable
      invariant MergedGroups(sortedRuns, Chunks(runs, buffersAvailable), col)
    {
      FullGroupAt(runs, buffersAvailable, i, lowerBound, col);
      var runGroup := runs[lowerBound..upperBound];
      lowerBound := lowerBound + buffersAvailable;
      upperBound := upperBound + buffersAvailable;
      var sortedGroup := MergeSortedRuns(runGroup, numBuffers, col);
      MergedGroupsSnoc(sortedRuns, Chunks(runs, buffersAvailable), sortedGroup, col);
      sortedRuns := sortedRuns + [sortedGroup];
      i := i + 1;
    }
  }

  /** Group i of the pass starts at lo = i * k and holds k runs, or the runs
      that are left; as a slice of sorted runs, its runs are sorted. */
  lemma GroupAt(runs: seq<Run>, k: nat, i: nat, lo: nat, col: nat)
    requires k > 0 && AllSorted(runs, col) && i < |Chunks(runs, k)| && lo == i * k
    ensures lo < |runs|
    ensures var hi := if lo + k <= |runs| then lo + k else |runs|;
            runs[lo..hi] == Chunks(runs, k)[i] && AllSorted(runs[lo..hi], col)
  {
    ChunkAt(runs, k, i, lo);
  }

  /** Group i < n / k is a full group of k runs. */
  lemma FullGroupAt(runs: seq<Run>, k: nat, i: nat, lo: nat, col: nat)
    requires k > 0 && AllSorted(runs, col) && i < |runs| / k && lo == i * k
    ensures lo + k <= |runs| && (i + 1) * k == lo + k
    ensures i < |Chunks(runs, k)| && runs[lo..lo + k] == Chunks(runs, k)[i] && AllSorted(runs[lo..lo + k], col)
  {
    FullChunk(|runs|, k, i);
    MulStep(i + 1, k);
    ChunksCount(runs, k);
    GroupAt(runs, k, i, lo, col);
  }

  /** With q = n / k full groups and some runs left over, the group after
      them holds exactly the runs from q * k on. */
  lemma LeftoverGroup(runs: seq<Run>, k: nat, q: nat, lo: nat, col: nat)
    requires k > 0 && AllSorted(runs, col) && q == |runs| / k && lo == q * k && |runs| % k > 0
    ensures |Chunks(runs, k)| == q + 1 && lo < |runs|
    ensures runs[lo..] == Chunks(runs, k)[q] && AllSorted(runs[lo..], col)
  {
    ChunksCount(runs, k);
    assert |runs| == q * k + |runs| % k;
    GroupAt(runs, k, q, lo, col);
  }

  /** One more merged group. */
  lemma MergedGroupsSnoc(out: seq<Run>, groups: seq<seq<Run>>, run: Run, col: nat)
    requires MergedGroups(out, groups, col) && |out| < |groups|
    requires Sorted(run, col) && multiset(run) == multiset(Flatten(groups[|out|]))
    ensures MergedGroups(out + [run], groups, col)
  {
    assert forall j :: 0 <= j < |out| ==> (out + [run])[j] == out[j];
  }

  /** mergePass, with its final group corrected to the runs left after the
      full groups: consecutive groups of numBuffers - 1 runs, the last one
      shorter, each merged into one run. */
  method MergePass(runs: seq<Run>, numBuffers: nat, col: nat) returns (sortedRuns: seq<Run>)
    requires numBuffers >= 2 && AllSorted(runs, col)
    ensures |sortedRuns| == NumChunks(|runs|, numBuffers - 1)
    ensures MergedGroups(sortedRuns, Chunks(runs, numBuffers - 1), col)
    ensures AllSorted(sortedRuns, col) && multiset(Flatten(sortedRuns)) == multiset(Flatten(runs))
  {
    var lowerBound, upperBound;
    sortedRuns, lowerBound, upperBound := MergeFullGroups(runs, numBuffers, col);
    var buffersAvailable := numBuffers - 1;
    var leftOver := |runs| % buffersAvailable;
    ChunksCount(runs, buffersAvailable);
    if leftOver > 0 {
      LeftoverGroup(runs, buffersAvailable, |sortedRuns|, lowerBound, col);
      var runGroup := runs[lowerBound..];
      var sortedGroup := MergeSortedRuns(runGroup, numBuffers, col);
      MergedGroupsSnoc(sortedRuns, Chunks(runs, buffersAvailable), sortedGroup, col);
      sortedRuns := sortedRuns + [sortedGroup];
    }
    MergedGroupsKeepRecords(sortedRuns, Chunks(runs, buffersAvailable), col);
    FlattenChunks(runs, buffersAvailable);
  }

  /** The bounds for which mergePass as written stays inside the list: no
      leftover runs, or groups of two runs (leftover at most one). */
  predicate LeftoverInRange(n: nat, k: nat)
    requires k > 0
  {
    n % k == 0 || k == 2
  }

  /** mergePass as written: the leftover loop runs `leftOver` times over
      subList(lowerBound, upperBound - 1), moving both bounds on by a full
      group each time. None stands for the IndexOutOfBoundsException subList
      throws once those bounds leave the list. */
  method MergePassAsWritten(runs: seq<Run>, numBuffers: nat, col: nat) returns (r: Option<seq<Run>>)
    requires numBuffers >= 2 && AllSorted(runs, col)
    ensures r.Some? <==> LeftoverInRange(|runs|, numBuffers - 1)
    ensures r.Some? ==> |r.value| == NumChunks(|runs|, numBuffers - 1)
    ensures r.Some? ==> MergedGroups(r.value, Chunks(runs, numBuffers - 1), col)
  {
    var sortedRuns, lowerBound, upperBound := MergeFullGroups(runs, numBuffers, col);
    var buffersAvailable := numBuffers - 1;
    var leftOver := |runs| % buffersAvailable;
    ghost var q := |sortedRuns|;
    ghost var base := lowerBound;
    assert |runs| == base + leftOver;
    ChunksCount(runs, buffersAvailable);
    var i := 0;
    while i < leftOver
      invariant 0 <= i <= 1 && i <= leftOver
      invariant lowerBound == base + (if i == 0 then 0 else buffersAvailable)
      invariant upperBound == lowerBound + buffersAvailable
      invariant i == 1 ==> leftOver == buffersAvailable - 1
      invariant |sortedRuns| == q + i
      invariant MergedGroups(sortedRuns, Chunks(runs, buffersAvailable), col)
    {
      if lowerBound > upperBound - 1 || upperBound - 1 > |runs| {
        return None;
      }
      assert i == 0 && upperBound - 1 == |runs|;
      LeftoverGroup(runs, buffersAvailable, q, base, col);
      var runGroup := runs[lowerBound..upperBound - 1];
      assert runGroup == Chunks(runs, buffersAvailable)[|sortedRuns|];
      lowerBound := lowerBound + buffersAvailable;
      upperBound := upperBound + buffersAvailable;
      var sortedGroup := MergeSortedRuns(runGroup, numBuffers, col);
      MergedGroupsSnoc(sortedRuns, Chunks(runs, buffersAvailable), sortedGroup, col);
      sortedRuns := sortedRuns + [sortedGroup];
      i := i + 1;
    }
    return Some(sortedRuns);
  }

  // ------------------------------------------------------ sort

  /** The runs of the first i blocks, one sorted run per block, each a permutation of its block. */
  ghost predicate RunsOfBlocks(runs: seq<Run>, blocks: seq<seq<Record>>, i: nat, col: nat) {
    && i <= |blocks| && |runs| == i && AllSorted(runs, col)
    && (forall j :: 0 <= j < i ==> multiset(runs[j]) == multiset(blocks[j]))
    && multiset(Flatten(runs)) == multiset(Flatten(blocks[..i]))
  }

  lemma AppendRun(runs: seq<Run>, blocks: seq<seq<Record>>, i: nat, run: Run, col: nat)
    requires i < |blocks| && RunsOfBlocks(runs, blocks, i, col)
    requires Sorted(run, col) && multiset(run) == multiset(blocks[i])
    ensures RunsOfBlocks(runs + [run], blocks, i + 1, col)
  {
    var r := runs + [run];
    assert forall j :: 0 <= j < i ==> r[j] == runs[j];
    assert r[i] == run;
    FlattenAppend(runs, [run]);
    FlattenSingle(run);
    assert blocks[..i + 1] == blocks[..i] + [blocks[i]];
    FlattenAppend(blocks[..i], [blocks[i]]);
    FlattenSingle(blocks[i]);
  }

  /** Once every block has its run, the runs hold the records of the source. */
  lemma AllBlocksRun(source: seq<Record>, blockSize: nat, runs: seq<Run>, col: nat)
    requires blockSize > 0
    requires RunsOfBlocks(runs, Chunks(source, blockSize), |Chunks(source, blockSize)|, col)
    ensures multiset(Flatten(runs)) == multiset(source)
    ensures |runs| > 0 <==> source != []
  {
    var blocks := Chunks(source, blockSize);
    assert blocks[..|blocks|] == blocks;
    ChunksShape(source, blockSize);
  }

  /** Phase 1 of sort: every block of numBuffers pages of the source, in
      order, sorted into a run. */
  method InitialRuns(source: seq<Record>, numBuffers: nat, pageSize: nat, col: nat) returns (sortedRuns: seq<Run>)
    requires numBuffers > 0 && pageSize > 0
    ensures |sortedRuns| == |Chunks(source, numBuffers * pageSize)|
    ensures forall j :: 0 <= j < |sortedRuns| ==>
              multiset(sortedRuns[j]) == multiset(Chunks(source, numBuffers * pageSize)[j])
    ensures AllSorted(sortedRuns, col) && multiset(Flatten(sortedRuns)) == multiset(source)
    ensures |sortedRuns| > 0 <==> source != []
  {
    var blockSize := numBuffers * pageSize;
    var blocks := Chunks(source, blockSize);
    sortedRuns := [];
    var i := 0;
    while i < |blocks|
      invariant RunsOfBlocks(sortedRuns, blocks, i, col)
    {
      var sortedRun := SortRun(blocks[i], col);
      AppendRun(sortedRuns, blocks, i, sortedRun, col);
      sortedRuns := sortedRuns + [sortedRun];
      i := i + 1;
    }
    AllBlocksRun(source, blockSize, sortedRuns, col);
  }

  /** sort, with the corrected merge pass: the runs of phase 1 are merged
      pass after pass until at most one is left, and that one is returned.
      None when the source is empty, where sortedRuns.get(0) throws. Each
      pass is MergePass, not MergePassAsWritten, so the model does not throw
      where the leftover loop of mergePass does. */
  method Sort(source: seq<Record>, numBuffers: nat, pageSize: nat, col: nat) returns (r: Option<Run>)
    requires numBuffers >= 3 && pageSize > 0
    ensures r.None? <==> source == []
    ensures r.Some? ==> Sorted(r.value, col) && multiset(r.value) == multiset(source)
  {
    var sortedRuns := InitialRuns(source, numBuffers, pageSize, col);
    while |sortedRuns| > 1
      invariant AllSorted(sortedRuns, col)
      invariant multiset(Flatten(sortedRuns)) == multiset(source)
      invariant source != [] <==> |sortedRuns| > 0
      decreases |sortedRuns|
    {
      NumChunksBounds(|sortedRuns|, numBuffers - 1);
      sortedRuns := MergePass(sortedRuns, numBuffers, col);
    }
    if |sortedRuns| == 0 {
      return None;
    }
    assert sortedRuns == [sortedRuns[0]];
    FlattenSingle(sortedRuns[0]);
    r := Some(sortedRuns[0]);
  }

  // ------------------------------------------------------ the operator

  /** The operator's cached result: backtrackingIterator runs sort() on first
      use and serves every later call from the stored run. */
  class SortOperator {
    const source: seq<Record>
    const numBuffers: nat
    const pageSize: nat
    const sortColumnIndex: nat
    var sortedRecords: Option<Run>
    /** How many times sort() has produced a run. */
    ghost var sorts: nat

    ghost predicate Valid()
      reads this
    {
      && numBuffers >= 3 && pageSize > 0
      && sorts == (if sortedRecords.Some? then 1 else 0)
      && (sortedRecords.Some? ==>
            && source != []
            && Sorted(sortedRecords.value, sortColumnIndex)
            && multiset(sortedRecords.value) == multiset(source))
    }

    constructor (source: seq<Record>, numBuffers: nat, pageSize: nat, sortColumnIndex: nat)
      requires numBuffers >= 3 && pageSize > 0
      ensures Valid() && sortedRecords == None && sorts == 0
      ensures this.source == source && this.numBuffers == numBuffers
      ensures this.pageSize == pageSize && this.sortColumnIndex == sortColumnIndex
    {
      this.source := source;
      this.numBuffers := numBuffers;
      this.pageSize := pageSize;
      this.sortColumnIndex := sortColumnIndex;
      sortedRecords := None;
      sorts := 0;
    }

    /** backtrackingIterator: the sorted run, computed at most once by Sort
        (which uses the corrected merge pass). */
    method BacktrackingIterator() returns (r: Option<Run>)
      requires Valid()
      modifies this
      ensures Valid() && sorts <= 1
      ensures old(sortedRecords).Some? ==> r == old(sortedRecords) && sortedRecords == old(sortedRecords) && sorts == old(sorts)
      ensures r.None? <==> source == []
      ensures r.Some? ==> sortedRecords == r && Sorted(r.value, sortColumnIndex) && multiset(r.value) == multiset(source)
    {
      if sortedRecords.None? {
        var s := Sort(source, numBuffers, pageSize, sortColumnIndex);
        if s.Some? {
          sorts := sorts + 1;
        }
        sortedRecords := s;
      }
      r := sortedRecords;
    }
  }
}
