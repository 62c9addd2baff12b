/** First-fit allocation, seen from a table of marks: of data blocks, i-nodes and open-file entries. */
module FirstFit {
  import opened Config

  /** Entry b is the first FREE one. */
  predicate IsFirstFree(taken: seq<bool>, b: int) {
    0 <= b < |taken| && !taken[b] && forall c :: 0 <= c < b ==> taken[c]
  }

  predicate Full(taken: seq<bool>) {
    forall c :: 0 <= c < |taken| ==> taken[c]
  }

  /** The block that the (k+1)-th of a run of allocations will get, looking from block `from` on. */
  function NthFree(taken: seq<bool>, from: nat, k: nat): (b: int)
    requires from <= |taken|
    ensures b == NONE || (from <= b < |taken| && !taken[b])
    decreases |taken| - from
  {
    if from == |taken| then NONE
    else if taken[from] then NthFree(taken, from + 1, k)
    else if k == 0 then from
    else NthFree(taken, from + 1, k - 1)
  }

  /** The first FREE entry of a table, NONE if there is none. */
  function First(taken: seq<bool>): (b: int)
    ensures b == NONE || (0 <= b < |taken| && !taken[b])
  {
    NthFree(taken, 0, 0)
  }

  lemma FirstIsFirst(taken: seq<bool>)
    ensures if First(taken) == NONE then Full(taken) else IsFirstFree(taken, First(taken))
  {
    ZerothIsFirst(taken, 0);
  }

  lemma {:induction false} ZerothIsFirst(taken: seq<bool>, from: nat)
    requires from <= |taken|
    ensures var b := NthFree(taken, from, 0);
            forall c :: from <= c < (if b == NONE then |taken| else b) ==> taken[c]
    decreases |taken| - from
  {
    if from < |taken| && taken[from] { ZerothIsFirst(taken, from + 1); }
  }

  lemma {:induction false} FirstIsZeroth(taken: seq<bool>, b: int, from: nat)
    requires IsFirstFree(taken, b) && from <= b
    ensures NthFree(taken, from, 0) == b
    decreases b - from
  {
    if from < b { FirstIsZeroth(taken, b, from + 1); }
  }

  /** A block below the scan does not matter to it. */
  lemma {:induction false} TakenBelow(taken: seq<bool>, b: int, k: nat, from: nat)
    requires 0 <= b < from <= |taken|
    ensures NthFree(taken[b := true], from, k) == NthFree(taken, from, k)
    decreases |taken| - from
  {
    if from < |taken| {
      TakenBelow(taken, b, k, from + 1);
      if k > 0 { TakenBelow(taken, b, k - 1, from + 1); }
    }
  }

  /** After the first FREE block is taken, the run of allocations goes on where it would have. */
  lemma {:induction false} AllocShifts(taken: seq<bool>, b: int, k: nat, from: nat)
    requires IsFirstFree(taken, b) && from <= b && k > 0
    ensures NthFree(taken[b := true], from, k - 1) == NthFree(taken, from, k)
    decreases b - from
  {
    if from < b {
      AllocShifts(taken, b, k, from + 1);
    } else {
      TakenBelow(taken, b, k - 1, b + 1);
    }
  }

  lemma {:induction false} NthIsLater(taken: seq<bool>, b: int, k: nat, from: nat)
    requires IsFirstFree(taken, b) && from <= b && k > 0
    ensures NthFree(taken, from, k) == NONE || NthFree(taken, from, k) > b
    decreases b - from
  {
    if from < b { NthIsLater(taken, b, k, from + 1); }
  }
}
