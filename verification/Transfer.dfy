/**
  The arithmetic shared by the loops of tfs_write and tfs_read, for any block size B: how a transfer
  of n bytes at offset o is cut into copies of at most one block.
 */
module Transfer {
  /** One memcpy: len bytes at position `at` of block number `block` of the file. */
  datatype Copy = Copy(block: nat, at: nat, len: nat)

  /** end_write_blocks / end_read_blocks as the code computes it. */
  function EndBlocks(B: nat, o: nat, n: nat): nat
    requires B > 0
  {
    (o + n) / B + if n % B > 0 then 1 else 0
  }

  /** The copies that the loop makes from block i on, when the offset lies `at` bytes into a block and
      `left` bytes are to go. */
  function Copies(B: nat, i: nat, at: nat, end: nat, left: nat): (c: seq<Copy>)
    requires at < B
    decreases end - i
  {
    if i >= end then []
    else if i + 1 < end && left > B - at then
      [Copy(i, at, B - at)] + Copies(B, i + 1, 0, end, left - (B - at))
    else if left <= B then
      [Copy(i, at, left)]
    else
      [Copy(i, at, B)] + Copies(B, i + 1, at, end, left - B)
  }

  /** All the copies of a transfer. */
  function Plan(B: nat, o: nat, n: nat): seq<Copy>
    requires B > 0
  {
    Copies(B, o / B, o % B, EndBlocks(B, o, n), n)
  }

  function Total(c: seq<Copy>): (t: nat) {
    if c == [] then 0 else c[0].len + Total(c[1..])
  }

  /** The position where block i starts. */
  function BlockStart(B: nat, i: nat): nat {
    if i == 0 then 0 else BlockStart(B, i - 1) + B
  }

  ghost predicate InBlock(B: nat, c: Copy) {
    c.at + c.len <= B
  }

  /** The copies run on from position p without gap or overlap, and none crosses a block end. */
  ghost predicate Chained(B: nat, p: nat, c: seq<Copy>)
    decreases |c|
  {
    c == [] || (BlockStart(B, c[0].block) + c[0].at == p && InBlock(B, c[0]) && c[0].len > 0 && Chained(B, p + c[0].len, c[1..]))
  }

  /** The guard under which the code's end block covers the transfer. */
  predicate Regular(B: nat, o: nat, n: nat)
    requires B > 0
  {
    o % B == 0 || n % B != 0
  }

  /** The transfer is of exactly one block, at an offset that is not aligned: one copy that runs past its block. */
  predicate Straddles(B: nat, o: nat, n: nat)
    requires B > 0
  {
    n == B && o % B != 0
  }

  lemma {:induction false} BlockStartIsProduct(B: nat, i: nat)
    ensures BlockStart(B, i) == i * B
  {
    if i > 0 { BlockStartIsProduct(B, i - 1); }
  }

  lemma {:induction false} BlockStartOrdered(B: nat, i: nat, j: nat)
    requires i < j
    ensures BlockStart(B, i) + B <= BlockStart(B, j)
  {
    if i < j - 1 { BlockStartOrdered(B, i, j - 1); }
  }

  lemma {:induction false} BlockStartAdds(B: nat, i: nat, j: nat)
    ensures BlockStart(B, i + j) == BlockStart(B, i) + BlockStart(B, j)
  {
    if j > 0 { BlockStartAdds(B, i, j - 1); }
  }

  lemma DivModMeaning(B: nat, x: nat)
    requires B > 0
    ensures x == BlockStart(B, x / B) + x % B
  {
    var q, r := x / B, x % B;
    assert x == q * B + r;
    BlockStartIsProduct(B, q);
  }

  lemma DivMod(B: nat, i: nat, at: nat)
    requires at < B
    ensures (BlockStart(B, i) + at) / B == i && (BlockStart(B, i) + at) % B == at
  {
    var x := BlockStart(B, i) + at;
    DivModMeaning(B, x);
    if x / B < i { BlockStartOrdered(B, x / B, i); }
    else if i < x / B { BlockStartOrdered(B, i, x / B); }
  }

  lemma SumOfMultiple(B: nat, o: nat, n: nat)
    requires B > 0 && n % B == 0
    ensures (o + n) / B == o / B + n / B
  {
    var qo, ro, qn := o / B, o % B, n / B;
    DivModMeaning(B, o);
    DivModMeaning(B, n);
    BlockStartAdds(B, qo, qn);
    DivMod(B, qo + qn, ro);
  }

  /** The start of block x / B + 1 is past x. */
  lemma NextBlockIsPast(B: nat, x: nat)
    requires B > 0
    ensures BlockStart(B, x / B + 1) > x
  {
    DivModMeaning(B, x);
    assert BlockStart(B, x / B + 1) == BlockStart(B, x / B) + B;
  }

  lemma QuotientGrows(B: nat, o: nat, x: nat)
    requires B > 0 && o <= x
    ensures o / B <= x / B
  {
    var qo, q := o / B, x / B;
    DivModMeaning(B, o);
    NextBlockIsPast(B, x);
    if q + 1 < qo {
      BlockStartOrdered(B, q + 1, qo);
    }
  }

  /** The end block covers the transfer exactly when the transfer is regular; otherwise it is short
      by the part of the first block that lies before the offset. */
  lemma EndCovers(B: nat, o: nat, n: nat)
    requires B > 0 && n > 0
    ensures Regular(B, o, n) ==> BlockStart(B, EndBlocks(B, o, n)) >= o + n
    ensures !Regular(B, o, n) ==>
              EndBlocks(B, o, n) == o / B + n / B && BlockStart(B, EndBlocks(B, o, n)) == o + n - o % B
    ensures o / B < EndBlocks(B, o, n)
  {
    if n % B == 0 {
      DivModMeaning(B, o);
      DivModMeaning(B, n);
      SumOfMultiple(B, o, n);
      BlockStartAdds(B, o / B, n / B);
    } else {
      NextBlockIsPast(B, o + n);
      QuotientGrows(B, o, o + n);
    }
  }

  /** While the end block covers what is left, every copy stays in its block and all bytes move. */
  lemma {:induction false} CopiesExact(B: nat, i: nat, at: nat, end: nat, left: nat)
    requires at < B && left > 0 && i < end
    requires BlockStart(B, end) >= BlockStart(B, i) + at + left
    ensures var c := Copies(B, i, at, end, left);
            Total(c) == left && Chained(B, BlockStart(B, i) + at, c) && |c| > 0
    decreases end - i
  {
    var c := Copies(B, i, at, end, left);
    if i + 1 < end && left > B - at {
      CopiesExact(B, i + 1, 0, end, left - (B - at));
      assert c[1..] == Copies(B, i + 1, 0, end, left - (B - at));
    } else {
      assert c[1..] == [];
    }
  }

  /** When the end block is short by `short` bytes, the last iteration copies one whole block and
      `short` bytes are never moved. */
  lemma {:induction false} CopiesShort(B: nat, i: nat, end: nat, left: nat, short: nat)
    requires 0 < short < B && i < end
    requires BlockStart(B, end) + short == BlockStart(B, i) + left
    ensures var c := Copies(B, i, 0, end, left);
            Total(c) == left - short && Chained(B, BlockStart(B, i), c) && |c| > 0
    decreases end - i
  {
    var c := Copies(B, i, 0, end, left);
    assert BlockStart(B, i + 1) == BlockStart(B, i) + B;
    if i + 1 < end {
      BlockStartOrdered(B, i + 1, end);
      CopiesShort(B, i + 1, end, left - B, short);
      assert c[1..] == Copies(B, i + 1, 0, end, left - B);
    } else {
      assert c[1..] == [];
    }
  }

  /** The number of bytes that a transfer of n bytes at offset o moves. */
  function Moves(B: nat, o: nat, n: nat): (k: nat)
    requires B > 0
    ensures k <= n && (n > 0 ==> k > 0)
  {
    if Regular(B, o, n) || n <= B then n else n - o % B
  }

  lemma IrregularPlan(B: nat, o: nat, n: nat)
    requires B > 0 && n > 0 && !Regular(B, o, n)
    ensures n >= B
    ensures n == B ==> Plan(B, o, n) == [Copy(o / B, o % B, B)]
    ensures n > B ==> Total(Plan(B, o, n)) == n - o % B && Chained(B, o, Plan(B, o, n))
  {
    var i, at, end := o / B, o % B, EndBlocks(B, o, n);
    DivModMeaning(B, o);
    DivModMeaning(B, n);
    EndCovers(B, o, n);
    assert BlockStart(B, 1) == BlockStart(B, 0) + B == B;
    if n / B > 1 {
      BlockStartOrdered(B, 1, n / B);
      CopiesShort(B, i + 1, end, n - (B - at), at);
      var c := Plan(B, o, n);
      assert c[1..] == Copies(B, i + 1, 0, end, n - (B - at));
    }
  }

  /** A transfer moves all its bytes, in order and each inside its block, exactly when it is regular. An irregular
      transfer of one block is a single copy that runs past its block; a longer one moves all but o % B bytes. */
  lemma TransferExact(B: nat, o: nat, n: nat)
    requires B > 0 && n > 0
    ensures Regular(B, o, n) <==> Chained(B, o, Plan(B, o, n)) && Total(Plan(B, o, n)) == n
    ensures Total(Plan(B, o, n)) == Moves(B, o, n)
    ensures Chained(B, o, Plan(B, o, n)) <==> Regular(B, o, n) || n != B
    ensures !Regular(B, o, n) && n == B ==> Plan(B, o, n) == [Copy(o / B, o % B, B)]
  {
    var c := Plan(B, o, n);
    DivModMeaning(B, o);
    EndCovers(B, o, n);
    if Regular(B, o, n) {
      CopiesExact(B, o / B, o % B, EndBlocks(B, o, n), n);
    } else {
      IrregularPlan(B, o, n);
      if n == B {
        assert c[1..] == [];
        assert !InBlock(B, c[0]);
      }
    }
  }
}
