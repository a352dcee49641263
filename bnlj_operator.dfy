/** BNLJOperator: the block nested loop equijoin. The left source is read a
    block of numBuffers - 2 pages at a time, the right source a page at a
    time; for every block, every page, every record of the block and every
    record of the page, a pair whose join columns agree is output. */
module BlockNestedLoopJoin {
  import opened Wrappers
  import opened Records

  // ------------------------------------------------------ the output

  /** The records of `rs` that join with `l`, each concatenated to it. */
  function Matches(l: Record, rs: seq<Record>, lc: nat, rc: nat): seq<Record> {
    if rs == [] then []
    else (if Key(l, lc) == Key(rs[0], rc) then [l + rs[0]] else []) + Matches(l, rs[1..], lc, rc)
  }

  /** Every matching pair of `ls` and `rs`, left record by left record: the
      output of a simple nested loop join, and of one block against one page. */
  function JoinRecords(ls: seq<Record>, rs: seq<Record>, lc: nat, rc: nat): seq<Record> {
    if ls == [] then []
    else Matches(ls[0], rs, lc, rc) + JoinRecords(ls[1..], rs, lc, rc)
  }

  /** One block of the left source against every page of the right source. */
  function JoinBlockPages(block: seq<Record>, pages: seq<seq<Record>>, lc: nat, rc: nat): seq<Record> {
    if pages == [] then []
    else JoinRecords(block, pages[0], lc, rc) + JoinBlockPages(block, pages[1..], lc, rc)
  }

  /** The block nested loop join: every block against every page, in order. */
  function BlockJoin(blocks: seq<seq<Record>>, pages: seq<seq<Record>>, lc: nat, rc: nat): seq<Record> {
    if blocks == [] then []
    else JoinBlockPages(blocks[0], pages, lc, rc) + BlockJoin(blocks[1..], pages, lc, rc)
  }

  lemma {:induction false} MatchesAppend(l: Record, p: seq<Record>, q: seq<Record>, lc: nat, rc: nat)
    ensures Matches(l, p + q, lc, rc) == Matches(l, p, lc, rc) + Matches(l, q, lc, rc)
  {
    if p != [] {
      assert (p + q)[1..] == p[1..] + q;
      MatchesAppend(l, p[1..], q, lc, rc);
    } else {
      assert p + q == q;
    }
  }

  lemma {:induction false} JoinRecordsAppendLeft(a: seq<Record>, b: seq<Record>, rs: seq<Record>, lc: nat, rc: nat)
    ensures JoinRecords(a + b, rs, lc, rc) == JoinRecords(a, rs, lc, rc) + JoinRecords(b, rs, lc, rc)
  {
    if a != [] {
      assert (a + b)[1..] == a[1..] + b;
      JoinRecordsAppendLeft(a[1..], b, rs, lc, rc);
    } else {
      assert a + b == b;
    }
  }

  lemma {:induction false} JoinRecordsAppendRight(ls: seq<Record>, p: seq<Record>, q: seq<Record>, lc: nat, rc: nat)
    ensures multiset(JoinRecords(ls, p + q, lc, rc))
         == multiset(JoinRecords(ls, p, lc, rc)) + multiset(JoinRecords(ls, q, lc, rc))
  {
    if ls != [] {
      MatchesAppend(ls[0], p, q, lc, rc);
      JoinRecordsAppendRight(ls[1..], p, q, lc, rc);
    }
  }

  /** A block against a run of pages yields the pairs of the block against
      all their records, in another order. */
  lemma {:induction false} JoinBlockPagesFlat(block: seq<Record>, pages: seq<seq<Record>>, lc: nat, rc: nat)
    ensures multiset(JoinBlockPages(block, pages, lc, rc)) == multiset(JoinRecords(block, Flatten(pages), lc, rc))
  {
    if pages == [] {
      JoinRecordsNoRight(block, lc, rc);
    } else {
      JoinBlockPagesFlat(block, pages[1..], lc, rc);
      JoinRecordsAppendRight(block, pages[0], Flatten(pages[1..]), lc, rc);
    }
  }

  lemma {:induction false} JoinRecordsNoRight(ls: seq<Record>, lc: nat, rc: nat)
    ensures JoinRecords(ls, [], lc, rc) == []
  {
    if ls != [] {
      JoinRecordsNoRight(ls[1..], lc, rc);
    }
  }

  /** The block nested loop join outputs exactly the pairs of the simple
      nested loop join over all the records, in block order. */
  lemma {:induction false} BlockJoinIsNestedLoopJoin(blocks: seq<seq<Record>>, pages: seq<seq<Record>>, lc: nat, rc: nat)
    ensures multiset(BlockJoin(blocks, pages, lc, rc))
         == multiset(JoinRecords(Flatten(blocks), Flatten(pages), lc, rc))
  {
    if blocks != [] {
      BlockJoinIsNestedLoopJoin(blocks[1..], pages, lc, rc);
      JoinBlockPagesFlat(blocks[0], pages, lc, rc);
      JoinRecordsAppendLeft(blocks[0], Flatten(blocks[1..]), Flatten(pages), lc, rc);
    }
  }

  /** The join over the blocks and pages a source is cut into holds the
      pairs of the join over the sources themselves. */
  lemma BlockJoinOfChunks(left: seq<Record>, right: seq<Record>, blockSize: nat, pageSize: nat, lc: nat, rc: nat)
    requires blockSize > 0 && pageSize > 0
    ensures multiset(BlockJoin(Chunks(left, blockSize), Chunks(right, pageSize), lc, rc))
         == multiset(JoinRecords(left, right, lc, rc))
  {
    ChunksShape(left, blockSize);
    ChunksShape(right, pageSize);
    BlockJoinIsNestedLoopJoin(Chunks(left, blockSize), Chunks(right, pageSize), lc, rc);
  }

  /** A record is output for `l` exactly when it is `l` concatenated with a
      right record whose join column agrees. */
  lemma {:induction false} MatchesMembers(l: Record, rs: seq<Record>, lc: nat, rc: nat, x: Record)
    ensures x in Matches(l, rs, lc, rc) <==> exists j :: 0 <= j < |rs| && Key(l, lc) == Key(rs[j], rc) && x == l + rs[j]
  {
    if rs != [] {
      MatchesMembers(l, rs[1..], lc, rc, x);
      if exists j :: 0 <= j < |rs| && Key(l, lc) == Key(rs[j], rc) && x == l + rs[j] {
        var j :| 0 <= j < |rs| && Key(l, lc) == Key(rs[j], rc) && x == l + rs[j];
        if j > 0 {
          assert rs[1..][j - 1] == rs[j];
        }
      }
      if x in Matches(l, rs[1..], lc, rc) {
        var j :| 0 <= j < |rs[1..]| && Key(l, lc) == Key(rs[1..][j], rc) && x == l + rs[1..][j];
        assert rs[j + 1] == rs[1..][j];
      }
    }
  }

  /** Every output record is a left record concatenated with a right record
      whose join columns compare equal, and every such pair is output. */
  lemma {:induction false} JoinRecordsMembers(ls: seq<Record>, rs: seq<Record>, lc: nat, rc: nat, x: Record)
    ensures x in JoinRecords(ls, rs, lc, rc) <==>
            exists i, j :: 0 <= i < |ls| && 0 <= j < |rs| && Key(ls[i], lc) == Key(rs[j], rc) && x == ls[i] + rs[j]
  {
    if ls != [] {
      MatchesMembers(ls[0], rs, lc, rc, x);
      JoinRecordsMembers(ls[1..], rs, lc, rc, x);
      if exists i, j :: 0 <= i < |ls| && 0 <= j < |rs| && Key(ls[i], lc) == Key(rs[j], rc) && x == ls[i] + rs[j] {
        var i, j :| 0 <= i < |ls| && 0 <= j < |rs| && Key(ls[i], lc) == Key(rs[j], rc) && x == ls[i] + rs[j];
        if i > 0 {
          assert ls[1..][i - 1] == ls[i];
        }
      }
      if x in JoinRecords(ls[1..], rs, lc, rc) {
        var i, j :| 0 <= i < |ls[1..]| && 0 <= j < |rs| && Key(ls[1..][i], lc) == Key(rs[j], rc) && x == ls[1..][i] + rs[j];
        assert ls[i + 1] == ls[1..][i];
      }
    }
  }

  // ------------------------------------------------------ where the iterator stands

  /** The output still to come when the iterator is at left block b - 1,
      left record lpos - 1 of it, right page p - 1, right record rpos of it. */
  function RestAt(blocks: seq<seq<Record>>, pages: seq<seq<Record>>, b: nat, lpos: nat, p: nat, rpos: nat, lc: nat, rc: nat): seq<Record>
    requires 1 <= b <= |blocks| && 1 <= lpos <= |blocks[b - 1]|
    requires 1 <= p <= |pages| && rpos <= |pages[p - 1]|
  {
    var block := blocks[b - 1];
    var page := pages[p - 1];
    Matches(block[lpos - 1], page[rpos..], lc, rc)
      + JoinRecords(block[lpos..], page, lc, rc)
      + JoinBlockPages(block, pages[p..], lc, rc)
      + BlockJoin(blocks[b..], pages, lc, rc)
  }

  /** At the very start the whole join is still to come. */
  lemma RestAtStart(blocks: seq<seq<Record>>, pages: seq<seq<Record>>, lc: nat, rc: nat)
    requires |blocks| > 0 && |blocks[0]| > 0 && |pages| > 0
    ensures RestAt(blocks, pages, 1, 1, 1, 0, lc, rc) == BlockJoin(blocks, pages, lc, rc)
  {
    assert pages[0][0..] == pages[0];
  }

  /** Case 1: the current right record is compared with the current left record. */
  lemma RestCompare(blocks: seq<seq<Record>>, pages: seq<seq<Record>>, b: nat, lpos: nat, p: nat, rpos: nat, lc: nat, rc: nat)
    requires 1 <= b <= |blocks| && 1 <= lpos <= |blocks[b - 1]|
    requires 1 <= p <= |pages| && rpos < |pages[p - 1]|
    ensures var l := blocks[b - 1][lpos - 1];
            var r := pages[p - 1][rpos];
            RestAt(blocks, pages, b, lpos, p, rpos, lc, rc)
              == (if Key(l, lc) == Key(r, rc) then [l + r] else []) + RestAt(blocks, pages, b, lpos, p, rpos + 1, lc, rc)
  {
    var page := pages[p - 1];
    assert page[rpos..][1..] == page[rpos + 1..];
  }

  /** Case 2: the page is done for this left record; the next left record starts it again. */
  lemma RestNextLeft(blocks: seq<seq<Record>>, pages: seq<seq<Record>>, b: nat, lpos: nat, p: nat, lc: nat, rc: nat)
    requires 1 <= b <= |blocks| && 1 <= lpos < |blocks[b - 1]|
    requires 1 <= p <= |pages|
    ensures RestAt(blocks, pages, b, lpos, p, |pages[p - 1]|, lc, rc) == RestAt(blocks, pages, b, lpos + 1, p, 0, lc, rc)
  {
    var block := blocks[b - 1];
    var page := pages[p - 1];
    assert page[|page|..] == [];
    assert page[0..] == page;
    assert block[lpos..][1..] == block[lpos + 1..];
  }

  /** Case 3: the block is done against this page; it starts again on the next page. */
  lemma RestNextPage(blocks: seq<seq<Record>>, pages: seq<seq<Record>>, b: nat, p: nat, lc: nat, rc: nat)
    requires 1 <= b <= |blocks| && 1 <= |blocks[b - 1]|
    requires 1 <= p < |pages| && 0 < |pages[p]|
    ensures RestAt(blocks, pages, b, |blocks[b - 1]|, p, |pages[p - 1]|, lc, rc) == RestAt(blocks, pages, b, 1, p + 1, 0, lc, rc)
  {
    var block := blocks[b - 1];
    var page := pages[p - 1];
    assert page[|page|..] == [];
    assert block[|block|..] == [];
    assert pages[p][0..] == pages[p];
    assert pages[p..][1..] == pages[p + 1..];
    assert block == [block[0]] + block[1..];
  }

  /** Case 4: the block is done against every page; the next block starts at the first page. */
  lemma RestNextBlock(blocks: seq<seq<Record>>, pages: seq<seq<Record>>, b: nat, lc: nat, rc: nat)
    requires 1 <= b < |blocks| && 1 <= |blocks[b - 1]| && 0 < |blocks[b]|
    requires 1 <= |pages| && 0 < |pages[0]|
    ensures RestAt(blocks, pages, b, |blocks[b - 1]|, |pages|, |pages[|pages| - 1]|, lc, rc) == RestAt(blocks, pages, b + 1, 1, 1, 0, lc, rc)
  {
    var block := blocks[b - 1];
    var page := pages[|pages| - 1];
    assert page[|page|..] == [];
    assert block[|block|..] == [];
    assert pages[|pages|..] == [];
    assert pages[0][0..] == pages[0];
    assert blocks[b..][1..] == blocks[b + 1..];
  }

  /** With every iterator exhausted nothing is left. */
  lemma RestExhausted(blocks: seq<seq<Record>>, pages: seq<seq<Record>>, lc: nat, rc: nat)
    requires 1 <= |blocks| && 1 <= |blocks[|blocks| - 1]| && 1 <= |pages|
    ensures RestAt(blocks, pages, |blocks|, |blocks[|blocks| - 1]|, |pages|, |pages[|pages| - 1]|, lc, rc) == []
  {
    var block := blocks[|blocks| - 1];
    var page := pages[|pages| - 1];
    assert page[|page|..] == [];
    assert block[|block|..] == [];
    assert pages[|pages|..] == [];
    assert blocks[|blocks|..] == [];
  }

  /** No block and no page is empty. */
  ghost predicate NonEmptyParts(blocks: seq<seq<Record>>, pages: seq<seq<Record>>) {
    && |blocks| > 0 && |pages| > 0
    && (forall i :: 0 <= i < |blocks| ==> |blocks[i]| > 0)
    && (forall i :: 0 <= i < |pages| ==> |pages[i]| > 0)
  }

  /** The output of fetchNextRecord called over and over from a position,
      one comparison at a time: case 1 compares the left record with the
      right record at rpos, case 2 moves to the next left record of the
      block, case 3 to the next right page, case 4 to the next left block. */
  function Walk(blocks: seq<seq<Record>>, pages: seq<seq<Record>>, b: nat, lpos: nat, p: nat, rpos: nat, lc: nat, rc: nat): seq<Record>
    requires NonEmptyParts(blocks, pages)
    requires 1 <= b <= |blocks| && 1 <= lpos <= |blocks[b - 1]|
    requires 1 <= p <= |pages| && rpos <= |pages[p - 1]|
    decreases |blocks| - b, |pages| - p, |blocks[b - 1]| - lpos, |pages[p - 1]| - rpos
  {
    var l := blocks[b - 1][lpos - 1];
    if rpos < |pages[p - 1]| then
      var r := pages[p - 1][rpos];
      (if Key(l, lc) == Key(r, rc) then [l + r] else []) + Walk(blocks, pages, b, lpos, p, rpos + 1, lc, rc)
    else if lpos < |blocks[b - 1]| then Walk(blocks, pages, b, lpos + 1, p, 0, lc, rc)
    else if p < |pages| then Walk(blocks, pages, b, 1, p + 1, 0, lc, rc)
    else if b < |blocks| then Walk(blocks, pages, b + 1, 1, 1, 0, lc, rc)
    else []
  }

  /** Case 1 of the walk: the comparison with the right record at `rpos`. */
  lemma WalkCompare(blocks: seq<seq<Record>>, pages: seq<seq<Record>>, b: nat, lpos: nat, p: nat, rpos: nat, lc: nat, rc: nat)
    requires NonEmptyParts(blocks, pages)
    requires 1 <= b <= |blocks| && 1 <= lpos <= |blocks[b - 1]|
    requires 1 <= p <= |pages| && rpos < |pages[p - 1]|
    ensures var l, r := blocks[b - 1][lpos - 1], pages[p - 1][rpos];
      Walk(blocks, pages, b, lpos, p, rpos, lc, rc)
      == (if Key(l, lc) == Key(r, rc) then [l + r] else []) + Walk(blocks, pages, b, lpos, p, rpos + 1, lc, rc)
  {
  }

  /** With every iterator at its end the walk yields nothing. */
  lemma WalkEnd(blocks: seq<seq<Record>>, pages: seq<seq<Record>>, lc: nat, rc: nat)
    requires NonEmptyParts(blocks, pages)
    ensures Walk(blocks, pages, |blocks|, |blocks[|blocks| - 1]|, |pages|, |pages[|pages| - 1]|, lc, rc) == []
  {
  }

  /** Walking the four cases from any position yields exactly the join
      output still due from there. */
  lemma {:induction false} WalkIsRest(blocks: seq<seq<Record>>, pages: seq<seq<Record>>, b: nat, lpos: nat, p: nat, rpos: nat, lc: nat, rc: nat)
    requires NonEmptyParts(blocks, pages)
    requires 1 <= b <= |blocks| && 1 <= lpos <= |blocks[b - 1]|
    requires 1 <= p <= |pages| && rpos <= |pages[p - 1]|
    ensures Walk(blocks, pages, b, lpos, p, rpos, lc, rc) == RestAt(blocks, pages, b, lpos, p, rpos, lc, rc)
    decreases |blocks| - b, |pages| - p, |blocks[b - 1]| - lpos, |pages[p - 1]| - rpos
  {
    if rpos < |pages[p - 1]| {
      WalkCompare(blocks, pages, b, lpos, p, rpos, lc, rc);
      WalkIsRest(blocks, pages, b, lpos, p, rpos + 1, lc, rc);
      RestCompare(blocks, pages, b, lpos, p, rpos, lc, rc);
    } else if lpos < |blocks[b - 1]| {
      assert Walk(blocks, pages, b, lpos, p, rpos, lc, rc) == Walk(blocks, pages, b, lpos + 1, p, 0, lc, rc);
      WalkIsRest(blocks, pages, b, lpos + 1, p, 0, lc, rc);
      RestNextLeft(blocks, pages, b, lpos, p, lc, rc);
    } else if p < |pages| {
      assert Walk(blocks, pages, b, lpos, p, rpos, lc, rc) == Walk(blocks, pages, b, 1, p + 1, 0, lc, rc);
      WalkIsRest(blocks, pages, b, 1, p + 1, 0, lc, rc);
      RestNextPage(blocks, pages, b, p, lc, rc);
    } else if b < |blocks| {
      assert Walk(blocks, pages, b, lpos, p, rpos, lc, rc) == Walk(blocks, pages, b + 1, 1, 1, 0, lc, rc);
      WalkIsRest(blocks, pages, b + 1, 1, 1, 0, lc, rc);
      RestNextBlock(blocks, pages, b, lc, rc);
    } else {
      assert Walk(blocks, pages, b, lpos, p, rpos, lc, rc) == [];
      RestExhausted(blocks, pages, lc, rc);
    }
  }

  /** From the start, the walk yields the whole block nested loop join. */
  lemma WalkFromStart(blocks: seq<seq<Record>>, pages: seq<seq<Record>>, lc: nat, rc: nat)
    requires NonEmptyParts(blocks, pages)
    ensures Walk(blocks, pages, 1, 1, 1, 0, lc, rc) == BlockJoin(blocks, pages, lc, rc)
  {
    WalkIsRest(blocks, pages, 1, 1, 1, 0, lc, rc);
    RestAtStart(blocks, pages, lc, rc);
  }

  // ------------------------------------------------------ backtracking iterators

  /** A BacktrackingIterator over `items`: `pos` is the index of the next
      item, `mark` the index reset() returns to. */
  datatype Cursor<T> = Cursor(items: seq<T>, pos: nat, mark: nat) {
    predicate HasNext() {
      pos < |items|
    }

    function Peek(): T
      requires HasNext()
    {
      items[pos]
    }

    function Advance(): (c: Cursor<T>)
      requires HasNext()
      ensures c.items == items && c.pos == pos + 1 && c.mark == mark
    {
      this.(pos := pos + 1)
    }

    /** markNext: the next item is the one reset() comes back to. */
    function MarkNext(): (c: Cursor<T>)
      ensures c.items == items && c.pos == pos && c.mark == pos
    {
      this.(mark := pos)
    }

    function Reset(): (c: Cursor<T>)
      ensures c.items == items && c.pos == mark && c.mark == mark
    {
      this.(pos := mark)
    }
  }

  // ------------------------------------------------------ the iterator

  /** BNLJIterator over a left source cut into blocks of numBuffers - 2
      pages and a right source cut into pages. */
  class BNLJIterator {
    const leftBlocks: seq<seq<Record>>
    const rightPages: seq<seq<Record>>
    const leftColumn: nat
    const rightColumn: nat
    var leftSourceIterator: Cursor<seq<Record>>
    var rightSourceIterator: Cursor<seq<Record>>
    var leftBlockIterator: Cursor<Record>
    var rightPageIterator: Cursor<Record>
    var leftRecord: Option<Record>
    var nextRecord: Option<Record>

    /** Every iterator stands inside its input, the left record is the one
        the block iterator returned last, and the block and page iterators
        are marked at their start. */
    ghost predicate Valid()
      reads this
    {
      && NonEmptyParts(leftBlocks, rightPages)
      && leftSourceIterator.items == leftBlocks
      && 1 <= leftSourceIterator.pos <= |leftBlocks|
      && leftBlockIterator.items == leftBlocks[leftSourceIterator.pos - 1]
      && 1 <= leftBlockIterator.pos <= |leftBlockIterator.items| && leftBlockIterator.mark == 0
      && leftRecord == Some(leftBlockIterator.items[leftBlockIterator.pos - 1])
      && rightSourceIterator.items == rightPages
      && 1 <= rightSourceIterator.pos <= |rightPages| && rightSourceIterator.mark == 0
      && rightPageIterator.items == rightPages[rightSourceIterator.pos - 1]
      && rightPageIterator.pos <= |rightPageIterator.items| && rightPageIterator.mark == 0
    }

    /** The join output that fetchNextRecord has yet to find. */
    ghost function Rest(): seq<Record>
      reads this
      requires Valid()
    {
      Walk(leftBlocks, rightPages, leftSourceIterator.pos, leftBlockIterator.pos,
           rightSourceIterator.pos, rightPageIterator.pos, leftColumn, rightColumn)
    }

    /** Everything the iterator will still yield: the cached record, then the rest. */
    ghost function Remaining(): seq<Record>
      reads this
      requires Valid()
    {
      (if nextRecord.Some? then [nextRecord.value] else []) + Rest()
    }

    /** The iterator over a join of two non-empty inputs: blocks of
        numBuffers - 2 pages of `pageSize` records on the left, single pages
        on the right. */
    constructor (left: seq<Record>, right: seq<Record>, numBuffers: nat, pageSize: nat, leftColumn: nat, rightColumn: nat)
      requires left != [] && right != [] && numBuffers >= 3 && pageSize > 0
      ensures Valid() && nextRecord == None
      ensures leftBlocks == Chunks(left, (numBuffers - 2) * pageSize) && rightPages == Chunks(right, pageSize)
      ensures forall i :: 0 <= i < |leftBlocks| ==> |leftBlocks[i]| <= (numBuffers - 2) * pageSize
      ensures forall i :: 0 <= i < |rightPages| ==> |rightPages[i]| <= pageSize
      ensures Remaining() == BlockJoin(leftBlocks, rightPages, leftColumn, rightColumn)
      ensures multiset(Remaining()) == multiset(JoinRecords(left, right, leftColumn, rightColumn))
    {
      var blockSize := (numBuffers - 2) * pageSize;
      MulStep(numBuffers - 2, pageSize);
      ChunkSizes(left, blockSize);
      ChunkSizes(right, pageSize);
      leftBlocks := Chunks(left, blockSize);
      rightPages := Chunks(right, pageSize);
      this.leftColumn := leftColumn;
      this.rightColumn := rightColumn;
      new;
      assert NonEmptyParts(leftBlocks, rightPages);
      assert |leftBlocks[0]| > 0;
      leftSourceIterator := Cursor(leftBlocks, 0, 0);
      FetchNextLeftBlock();
      assert leftSourceIterator == Cursor(leftBlocks, 1, 0);
      assert leftBlockIterator == Cursor(leftBlocks[0], 1, 0) && leftRecord == Some(leftBlocks[0][0]);
      rightSourceIterator := Cursor(rightPages, 0, 0).MarkNext();
      FetchNextRightPage();
      assert rightSourceIterator == Cursor(rightPages, 1, 0) && rightPageIterator == Cursor(rightPages[0], 0, 0);
      nextRecord := None;
      WalkFromStart(leftBlocks, rightPages, leftColumn, rightColumn);
      assert Remaining() == BlockJoin(leftBlocks, rightPages, leftColumn, rightColumn);
      BlockJoinOfChunks(left, right, blockSize, pageSize, leftColumn, rightColumn);
    }

    /** fetchNextLeftBlock, once the left source is known to have another
        block: a marked iterator over that block, and its first record. */
    method FetchNextLeftBlock()
      requires leftSourceIterator.HasNext()
      modifies this
      ensures leftSourceIterator == old(leftSourceIterator).Advance()
      ensures leftBlockIterator.items == old(leftSourceIterator.Peek()) && leftBlockIterator.mark == 0
      ensures leftBlockIterator.items != [] ==> leftBlockIterator.pos == 1 && leftRecord == Some(leftBlockIterator.items[0])
      ensures leftBlockIterator.items == [] ==> leftBlockIterator.pos == 0 && leftRecord == old(leftRecord)
      ensures rightSourceIterator == old(rightSourceIterator) && rightPageIterator == old(rightPageIterator)
      ensures nextRecord == old(nextRecord)
    {
      var block := leftSourceIterator.Peek();
      leftSourceIterator := leftSourceIterator.Advance();
      leftBlockIterator := Cursor(block, 0, 0).MarkNext();
      if leftBlockIterator.HasNext() {
        leftRecord := Some(leftBlockIterator.Peek());
        leftBlockIterator := leftBlockIterator.Advance();
      }
    }

    /** fetchNextRightPage, once the right source is known to have another
        page: a marked iterator over that page. */
    method FetchNextRightPage()
      requires rightSourceIterator.HasNext()
      modifies this
      ensures rightSourceIterator == old(rightSourceIterator).Advance()
      ensures rightPageIterator == Cursor(old(rightSourceIterator.Peek()), 0, 0)
      ensures leftSourceIterator == old(leftSourceIterator) && leftBlockIterator == old(leftBlockIterator)
      ensures leftRecord == old(leftRecord) && nextRecord == old(nextRecord)
    {
      var page := rightSourceIterator.Peek();
      rightSourceIterator := rightSourceIterator.Advance();
      rightPageIterator := Cursor(page, 0, 0).MarkNext();
    }

    /** Where the right page stands for the record in hand: the index of
        `rightRecord` when there is one, else the end of the page. */
    function Current(rightRecord: Option<Record>): nat
      reads this
    {
      if rightRecord.Some? && rightPageIterator.pos > 0 then rightPageIterator.pos - 1 else rightPageIterator.pos
    }

    /** `rightRecord` is the record the right page iterator returned last,
        or None once the page is used up. */
    ghost predicate InHand(rightRecord: Option<Record>)
      reads this
    {
      && (rightRecord.Some? ==> 1 <= rightPageIterator.pos <= |rightPageIterator.items|
                                && rightRecord.value == rightPageIterator.items[rightPageIterator.pos - 1])
      && (rightRecord.None? ==> rightPageIterator.pos == |rightPageIterator.items|)
    }

    /** The join output still to come, `rightRecord` included. */
    ghost function Pending(rightRecord: Option<Record>): seq<Record>
      reads this
      requires Valid() && InHand(rightRecord)
    {
      Walk(leftBlocks, rightPages, leftSourceIterator.pos, leftBlockIterator.pos,
           rightSourceIterator.pos, Current(rightRecord), leftColumn, rightColumn)
    }

    /** Case 1 of fetchNextRecord: the left record joined with the right
        record in hand when their keys match, else the next right record. */
    method CompareInHand(rightRecord: Option<Record>) returns (joined: Option<Record>, next: Option<Record>)
      requires Valid() && InHand(rightRecord) && rightRecord.Some?
      modifies this
      ensures Valid() && nextRecord == old(nextRecord)
      ensures joined.Some? ==> joined.value == old(leftRecord.value) + rightRecord.value && old(Pending(rightRecord)) == [joined.value] + Rest()
      ensures joined.None? ==> Key(old(leftRecord.value), leftColumn) != Key(rightRecord.value, rightColumn)
      ensures joined.None? ==> InHand(next) && old(Pending(rightRecord)) == Pending(next)
      ensures leftSourceIterator == old(leftSourceIterator) && leftBlockIterator == old(leftBlockIterator)
      ensures rightSourceIterator == old(rightSourceIterator) && rightPageIterator.items == old(rightPageIterator.items)
      ensures joined.None? ==> Current(next) == old(Current(rightRecord)) + 1
    {
      var l := leftRecord.value;
      if Key(l, leftColumn) == Key(rightRecord.value, rightColumn) {
        WalkCompare(leftBlocks, rightPages, leftSourceIterator.pos, leftBlockIterator.pos,
                    rightSourceIterator.pos, rightPageIterator.pos - 1, leftColumn, rightColumn);
        return Some(l + rightRecord.value), rightRecord;
      }
      joined := None;
      next := NextRightRecord(rightRecord);
    }

    /** Case 1 of fetchNextRecord without a match: the next record of the
        page, or None once the page is used up. */
    method NextRightRecord(rightRecord: Option<Record>) returns (next: Option<Record>)
      requires Valid() && InHand(rightRecord) && rightRecord.Some?
      requires Key(leftRecord.value, leftColumn) != Key(rightRecord.value, rightColumn)
      modifies this
      ensures Valid() && InHand(next) && nextRecord == old(nextRecord)
      ensures leftSourceIterator == old(leftSourceIterator) && leftBlockIterator == old(leftBlockIterator)
      ensures rightSourceIterator == old(rightSourceIterator) && rightPageIterator.items == old(rightPageIterator.items)
      ensures Current(next) == old(Current(rightRecord)) + 1
      ensures old(Pending(rightRecord)) == Pending(next)
    {
      WalkCompare(leftBlocks, rightPages, leftSourceIterator.pos, leftBlockIterator.pos,
                  rightSourceIterator.pos, Current(rightRecord), leftColumn, rightColumn);
      if rightPageIterator.HasNext() {
        next := Some(rightPageIterator.Peek());
        rightPageIterator := rightPageIterator.Advance();
      } else {
        next := None;
      }
    }

    /** Case 2 of fetchNextRecord: the page is used up for this left record;
        the next left record of the block starts the page again. */
    method NextLeftRecord() returns (rightRecord: Option<Record>)
      requires Valid() && rightPageIterator.pos == |rightPageIterator.items| && leftBlockIterator.HasNext()
      modifies this
      ensures Valid() && InHand(rightRecord) && rightRecord.Some? && nextRecord == old(nextRecord)
      ensures leftSourceIterator.pos == old(leftSourceIterator.pos) && rightSourceIterator.pos == old(rightSourceIterator.pos)
      ensures leftBlockIterator.pos == old(leftBlockIterator.pos) + 1
      ensures old(Rest()) == Pending(rightRecord)
    {
      rightPageIterator := rightPageIterator.Reset().MarkNext();
      rightRecord := Some(rightPageIterator.Peek());
      rightPageIterator := rightPageIterator.Advance();
      leftRecord := Some(leftBlockIterator.Peek());
      leftBlockIterator := leftBlockIterator.Advance();
    }

    /** Case 3 of fetchNextRecord: the block is used up against this page;
        the block starts again on the next page. */
    method NextRightPage() returns (rightRecord: Option<Record>)
      requires Valid() && rightPageIterator.pos == |rightPageIterator.items|
      requires !leftBlockIterator.HasNext() && rightSourceIterator.HasNext()
      modifies this
      ensures Valid() && InHand(rightRecord) && rightRecord.Some? && nextRecord == old(nextRecord)
      ensures leftSourceIterator.pos == old(leftSourceIterator.pos) && rightSourceIterator.pos == old(rightSourceIterator.pos) + 1
      ensures old(Rest()) == Pending(rightRecord)
    {
      leftBlockIterator := leftBlockIterator.Reset().MarkNext();
      leftRecord := Some(leftBlockIterator.Peek());
      leftBlockIterator := leftBlockIterator.Advance();
      FetchNextRightPage();
      rightPageIterator := rightPageIterator.MarkNext();
      rightRecord := Some(rightPageIterator.Peek());
      rightPageIterator := rightPageIterator.Advance();
    }

    /** Case 4 of fetchNextRecord: the block is used up against every page;
        the next block starts at the first page. */
    method NextLeftBlock() returns (rightRecord: Option<Record>)
      requires Valid() && rightPageIterator.pos == |rightPageIterator.items|
      requires !leftBlockIterator.HasNext() && !rightSourceIterator.HasNext() && leftSourceIterator.HasNext()
      modifies this
      ensures Valid() && InHand(rightRecord) && rightRecord.Some? && nextRecord == old(nextRecord)
      ensures leftSourceIterator.pos == old(leftSourceIterator.pos) + 1
      ensures old(Rest()) == Pending(rightRecord)
    {
      FetchNextLeftBlock();
      rightSourceIterator := rightSourceIterator.Reset().MarkNext();
      FetchNextRightPage();
      rightPageIterator := rightPageIterator.MarkNext();
      rightRecord := Some(rightPageIterator.Peek());
      rightPageIterator := rightPageIterator.Advance();
    }

    /** Cases 2 to 4 of fetchNextRecord, once the page is used up for the
        left record: the next right record to compare with, or None when
        every iterator is at its end. */
    method NextComparison() returns (rightRecord: Option<Record>)
      requires Valid() && rightPageIterator.pos == |rightPageIterator.items|
      modifies this
      ensures Valid() && InHand(rightRecord) && nextRecord == old(nextRecord)
      ensures rightRecord.None? ==> old(Rest()) == [] && Rest() == []
      ensures rightRecord.Some? ==> old(Rest()) == Pending(rightRecord)
      ensures rightRecord.Some? ==>
        || leftSourceIterator.pos > old(leftSourceIterator.pos)
        || (leftSourceIterator.pos == old(leftSourceIterator.pos) && rightSourceIterator.pos > old(rightSourceIterator.pos))
        || (leftSourceIterator.pos == old(leftSourceIterator.pos) && rightSourceIterator.pos == old(rightSourceIterator.pos)
            && leftBlockIterator.pos > old(leftBlockIterator.pos))
      ensures leftSourceIterator.pos >= old(leftSourceIterator.pos)
      ensures leftSourceIterator.pos == old(leftSourceIterator.pos) ==> rightSourceIterator.pos >= old(rightSourceIterator.pos)
    {
      if leftBlockIterator.HasNext() {
        rightRecord := NextLeftRecord();
      } else if rightSourceIterator.HasNext() {
        rightRecord := NextRightPage();
      } else if leftSourceIterator.HasNext() {
        rightRecord := NextLeftBlock();
      } else {
        WalkEnd(leftBlocks, rightPages, leftColumn, rightColumn);
        rightRecord := None;
      }
    }

    /** fetchNextRecord: the next record of the join, None once there is none. */
    method FetchNextRecord() returns (r: Option<Record>)
      requires Valid()
      modifies this
      ensures Valid() && nextRecord == old(nextRecord)
      ensures r.Some? ==> old(Rest()) == [r.value] + Rest()
      ensures r.None? ==> old(Rest()) == [] && Rest() == []
    {
      ghost var before := Rest();
      var rightRecord: Option<Record> := None;
      if rightPageIterator.HasNext() {
        rightRecord := Some(rightPageIterator.Peek());
        rightPageIterator := rightPageIterator.Advance();
      }
      while rightRecord.Some? || leftRecord.Some?
        invariant Valid() && InHand(rightRecord) && nextRecord == old(nextRecord)
        invariant before == Pending(rightRecord)
        decreases |leftBlocks| - leftSourceIterator.pos, |rightPages| - rightSourceIterator.pos,
                  |leftBlockIterator.items| - leftBlockIterator.pos, |rightPageIterator.items| - Current(rightRecord)
      {
        if rightRecord.Some? {
          var joined;
          joined, rightRecord := CompareInHand(rightRecord);
          if joined.Some? {
            return joined;
          }
        } else {
          rightRecord := NextComparison();
          if rightRecord.None? {
            break;
          }
        }
      }
      return None;
    }

    /** hasNext: fetch only when nothing is cached, and keep what was fetched. */
    method HasNext() returns (b: bool)
      requires Valid()
      modifies this
      ensures Valid() && Remaining() == old(Remaining())
      ensures b <==> Remaining() != []
      ensures b <==> nextRecord.Some?
      ensures old(nextRecord).Some? ==> nextRecord == old(nextRecord) && Rest() == old(Rest())
    {
      if nextRecord.None? {
        nextRecord := FetchNextRecord();
      }
      b := nextRecord.Some?;
    }

    /** next: the cached or freshly fetched record, which is then cleared;
        None where the source throws NoSuchElementException. */
    method Next() returns (r: Option<Record>)
      requires Valid()
      modifies this
      ensures Valid() && nextRecord == None
      ensures old(Remaining()) == [] ==> r == None && Remaining() == []
      ensures old(Remaining()) != [] ==> r == Some(old(Remaining())[0]) && Remaining() == old(Remaining())[1..]
    {
      var has := HasNext();
      if !has {
        return None;
      }
      r := nextRecord;
      nextRecord := None;
    }
  }
}
