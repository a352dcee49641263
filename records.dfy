/** Records as the query operators see them: a sequence of values, compared
    by the value in one column. Blocks and pages of records are consecutive
    chunks of a sequence. */
module Records {

  /** The value of one field; DataBox.compareTo is an integer comparison here. */
  type Value = int

  type Record = seq<Value>

  /** The value in column `col`; 0 for a record too short to have that column
      (a record of the operator's schema always has it). */
  function Key(r: Record, col: nat): Value {
    if col < |r| then r[col] else 0
  }

  /** RecordComparator.compare: the sign of the comparison of the two sort-column values. */
  function Compare(r1: Record, r2: Record, col: nat): (r: int)
    ensures r < 0 <==> Key(r1, col) < Key(r2, col)
    ensures r == 0 <==> Key(r1, col) == Key(r2, col)
    ensures r > 0 <==> Key(r1, col) > Key(r2, col)
    ensures -1 <= r <= 1
  {
    if Key(r1, col) < Key(r2, col) then -1 else if Key(r1, col) == Key(r2, col) then 0 else 1
  }

  /** Records are ordered by the sort column alone: records that agree there
      compare the same against everything, and the order is a total preorder. */
  lemma CompareOnlyByKey(a: Record, a': Record, b: Record, col: nat)
    requires Key(a, col) == Key(a', col)
    ensures Compare(a, b, col) == Compare(a', b, col) && Compare(b, a, col) == Compare(b, a', col)
    ensures Compare(a, a', col) == 0
  {
  }

  lemma CompareTotalPreorder(a: Record, b: Record, c: Record, col: nat)
    ensures Compare(a, a, col) == 0
    ensures Compare(a, b, col) == -Compare(b, a, col)
    ensures Compare(a, b, col) <= 0 && Compare(b, c, col) <= 0 ==> Compare(a, c, col) <= 0
  {
  }

  /** Non-decreasing in the sort column. */
  ghost predicate Sorted(s: seq<Record>, col: nat) {
    forall i, j :: 0 <= i < j < |s| ==> Key(s[i], col) <= Key(s[j], col)
  }

  /** `x` placed before the first record of `s` whose key is at least its own. */
  function Insert(x: Record, s: seq<Record>, col: nat): (r: seq<Record>)
    requires Sorted(s, col)
    ensures Sorted(r, col) && multiset(r) == multiset(s) + multiset{x} && |r| == |s| + 1
  {
    if s == [] then [x]
    else if Key(x, col) <= Key(s[0], col) then [x] + s
    else
      var rest := Insert(x, s[1..], col);
      InsertAfterHead(x, s, rest, col);
      [s[0]] + rest
  }

  /** When `x` goes after the head of `s`, the head stays first. */
  lemma InsertAfterHead(x: Record, s: seq<Record>, rest: seq<Record>, col: nat)
    requires Sorted(s, col) && s != [] && Key(s[0], col) < Key(x, col)
    requires Sorted(rest, col) && multiset(rest) == multiset(s[1..]) + multiset{x}
    ensures Sorted([s[0]] + rest, col) && multiset([s[0]] + rest) == multiset(s) + multiset{x}
  {
    assert s == [s[0]] + s[1..];
    forall j | 0 <= j < |rest|
      ensures Key(s[0], col) <= Key(rest[j], col)
    {
      assert rest[j] in multiset(rest);
      if rest[j] != x {
        assert rest[j] in s[1..];
        var k :| 0 <= k < |s[1..]| && s[1..][k] == rest[j];
        assert s[k + 1] == rest[j];
      }
    }
    var r := [s[0]] + rest;
    forall a, b | 0 <= a < b < |r|
      ensures Key(r[a], col) <= Key(r[b], col)
    {
      if a > 0 {
        assert r[a] == rest[a - 1] && r[b] == rest[b - 1];
      }
    }
  }

  /** listOfRecords.sort(comparator): insertion sort by the sort column. */
  function SortByKey(s: seq<Record>, col: nat): (r: seq<Record>)
    ensures Sorted(r, col) && multiset(r) == multiset(s)
  {
    if s == [] then []
    else
      assert s == [s[0]] + s[1..];
      Insert(s[0], SortByKey(s[1..], col), col)
  }

  /** The records of `ss`, one sequence after the other. */
  function Flatten<T>(ss: seq<seq<T>>): seq<T> {
    if ss == [] then [] else ss[0] + Flatten(ss[1..])
  }

  lemma {:induction false} FlattenAppend<T>(a: seq<seq<T>>, b: seq<seq<T>>)
    ensures Flatten(a + b) == Flatten(a) + Flatten(b)
  {
    if a == [] {
      assert a + b == b;
    } else {
      assert (a + b)[1..] == a[1..] + b;
      FlattenAppend(a[1..], b);
    }
  }

  lemma FlattenSingle<T>(a: seq<T>)
    ensures Flatten([a]) == a
  {
    assert [a][1..] == [];
  }

  // ------------------------------------------------------ division

  lemma {:induction false} MulAtLeast(a: nat, k: nat)
    requires a >= 1
    ensures a * k >= k
  {
    if a > 1 {
      MulAtLeast(a - 1, k);
      assert a * k == (a - 1) * k + k;
    }
  }

  /** Quotient and remainder are the only ones. */
  lemma DivUnique(n: nat, k: nat, q: int, r: int)
    requires k > 0 && n == q * k + r && 0 <= r < k
    ensures n / k == q && n % k == r
  {
    var q', r' := n / k, n % k;
    assert n == q' * k + r';
    assert (q - q') * k == r' - r;
    if q' > q {
      MulAtLeast(q' - q, k);
    } else if q' < q {
      MulAtLeast(q - q', k);
    }
  }

  lemma DivStep(n: nat, k: nat)
    requires n >= k > 0
    ensures (n - k) / k == n / k - 1 && (n - k) % k == n % k
  {
    var q, r := (n - k) / k, (n - k) % k;
    assert n - k == q * k + r && 0 <= r < k;
    assert n == (q + 1) * k + r;
    DivUnique(n, k, q + 1, r);
  }

  // ------------------------------------------------------ chunks

  /** The number of chunks of size `k` (the last one maybe shorter) `n` items make. */
  function NumChunks(n: nat, k: nat): nat
    requires k > 0
  {
    n / k + (if n % k == 0 then 0 else 1)
  }

  /** getBlockIterator applied until the input runs out: consecutive chunks of
      `k` items, the last one shorter when `k` does not divide the length. */
  function Chunks<T>(s: seq<T>, k: nat): seq<seq<T>>
    requires k > 0
    decreases |s|
  {
    if s == [] then []
    else if |s| <= k then [s]
    else [s[..k]] + Chunks(s[k..], k)
  }

  /** The chunks put back together are the input; each holds between 1 and
      `k` items, and all but the last exactly `k`. */
  lemma {:induction false} ChunksShape<T>(s: seq<T>, k: nat)
    requires k > 0
    ensures Flatten(Chunks(s, k)) == s
    ensures forall j :: 0 <= j < |Chunks(s, k)| ==> 0 < |Chunks(s, k)[j]| <= k
    ensures forall j :: 0 <= j < |Chunks(s, k)| - 1 ==> |Chunks(s, k)[j]| == k
    decreases |s|
  {
    var r := Chunks(s, k);
    if |s| > 0 && |s| <= k {
      FlattenSingle(s);
    } else if |s| > k {
      var rest := Chunks(s[k..], k);
      ChunksShape(s[k..], k);
      assert r[1..] == rest;
      assert s == s[..k] + s[k..];
      assert forall j :: 1 <= j < |r| ==> r[j] == rest[j - 1];
    }
  }

  /** A non-empty input has chunks, and each holds between 1 and `k` items. */
  lemma ChunkSizes<T>(s: seq<T>, k: nat)
    requires k > 0
    ensures s != [] ==> |Chunks(s, k)| > 0
    ensures forall j :: 0 <= j < |Chunks(s, k)| ==> 0 < |Chunks(s, k)[j]| <= k
  {
    ChunksShape(s, k);
  }

  /** The chunks put back together are the input. */
  lemma FlattenChunks<T>(s: seq<T>, k: nat)
    requires k > 0
    ensures Flatten(Chunks(s, k)) == s
  {
    ChunksShape(s, k);
  }

  /** There are NumChunks(|s|, k) chunks. */
  lemma {:induction false} ChunksCount<T>(s: seq<T>, k: nat)
    requires k > 0
    ensures |Chunks(s, k)| == NumChunks(|s|, k)
    decreases |s|
  {
    if s == [] {
      DivUnique(0, k, 0, 0);
    } else if |s| <= k {
      if |s| == k { DivUnique(|s|, k, 1, 0); } else { DivUnique(|s|, k, 0, |s|); }
    } else {
      ChunksCount(s[k..], k);
      DivStep(|s|, k);
    }
  }

  /** Chunk `i` is the slice of `s` from lo = i * k, of length k or what is left. */
  lemma {:induction false} ChunkAt<T>(s: seq<T>, k: nat, i: nat, lo: nat)
    requires k > 0 && i < |Chunks(s, k)| && lo == i * k
    ensures lo < |s|
    ensures Chunks(s, k)[i] == s[lo .. if lo + k <= |s| then lo + k else |s|]
    decreases |s|
  {
    if i == 0 {
      ChunkFirst(s, k);
    } else {
      ChunkAfterFirst(s, k, i);
      MulStep(i, k);
      var lo': nat := (i - 1) * k;
      ChunkAt(s[k..], k, i - 1, lo');
      ShiftedChunk(s, k, i, lo');
    }
  }

  lemma ShiftedChunk<T>(s: seq<T>, k: nat, i: nat, lo': nat)
    requires k > 0 && 0 < i < |Chunks(s, k)|
    requires |s| > k && i - 1 < |Chunks(s[k..], k)| && Chunks(s, k)[i] == Chunks(s[k..], k)[i - 1]
    requires lo' < |s[k..]|
    requires Chunks(s[k..], k)[i - 1] == s[k..][lo' .. if lo' + k <= |s| - k then lo' + k else |s| - k]
    ensures lo' + k < |s|
    ensures Chunks(s, k)[i] == s[lo' + k .. if lo' + 2 * k <= |s| then lo' + 2 * k else |s|]
  {
    var hi' := if lo' + k <= |s| - k then lo' + k else |s| - k;
    SliceShift(s, k, lo', hi');
  }

  lemma SliceShift<T>(s: seq<T>, k: nat, a: nat, b: nat)
    requires k <= |s| && a <= b <= |s| - k
    ensures s[k..][a..b] == s[a + k .. b + k]
  {
  }

  lemma MulStep(i: nat, k: nat)
    requires i > 0
    ensures (i - 1) * k >= 0 && i * k == (i - 1) * k + k
  {
  }

  lemma ChunkFirst<T>(s: seq<T>, k: nat)
    requires k > 0 && 0 < |Chunks(s, k)|
    ensures 0 < |s| && Chunks(s, k)[0] == s[.. if k <= |s| then k else |s|]
  {
  }

  lemma ChunkAfterFirst<T>(s: seq<T>, k: nat, i: nat)
    requires k > 0 && 0 < i < |Chunks(s, k)|
    ensures |s| > k && i - 1 < |Chunks(s[k..], k)| && Chunks(s, k)[i] == Chunks(s[k..], k)[i - 1]
  {
  }

  lemma {:induction false} MulMono(a: nat, b: nat, k: nat)
    requires a <= b
    ensures a * k <= b * k
    decreases b - a
  {
    if a < b {
      MulMono(a, b - 1, k);
      assert b * k == (b - 1) * k + k;
    }
  }

  /** The first n / k chunks are full. */
  lemma FullChunk(n: nat, k: nat, i: nat)
    requires k > 0 && i < n / k
    ensures (i + 1) * k <= n
  {
    MulMono(i + 1, n / k, k);
  }

  /** Grouping never adds groups, and strictly reduces them when groups have
      room for two and there are at least two items. */
  lemma NumChunksBounds(n: nat, k: nat)
    requires k > 0
    ensures n > 0 ==> NumChunks(n, k) > 0
    ensures n > 1 && k >= 2 ==> NumChunks(n, k) < n
  {
    var q, r := n / k, n % k;
    assert n == q * k + r;
    if n > 1 && k >= 2 {
      MulMono(2, k, q);
      assert q * k >= 2 * q;
    }
    if n > 0 && q == 0 {
      assert r == n;
    }
  }
}
