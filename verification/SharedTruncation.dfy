/** Truncation among other threads: a block is marked FREE before its slot is emptied. */
module SharedTruncation {
  import opened Options
  import opened Config
  import opened Bytes
  import opened Disk
  import opened Directory
  import opened Ownership
  import opened Invariant
  import opened Truncation
  import opened Opening
  import opened Interleaving
  import opened Deadlock
  import opened Safety
  import opened SharedData

  lemma Freeing(fs: FS, X: set<(int, int)>, n: int, s: nat)
    requires Whole(fs, X) && (forall r :: (n, r) !in X)
    requires IsFile(fs, n) && ValidBlock(Slot(fs, n, s))
    ensures var fs' := MarkBlock(fs, Slot(fs, n, s), false);
            && Whole(fs', X + Window(n, s)) && Root(fs') == Root(fs)
            && forall m, r :: Slot(fs', m, r) == Slot(fs, m, r)
  {
    var fs' := MarkBlock(fs, Slot(fs, n, s), false);
    SameMaps(fs, fs');
    assert Owns(fs, n, s);
    hide Slot, Content, Exclusive;
    FreeOwned(fs, n, s, X);
    WholeKept(fs, X, fs', X + Window(n, s));
  }

  lemma FreeingDisturbsNobody(fs: FS, X: set<(int, int)>, n: int, s: nat, q: PC)
    requires Whole(fs, X) && (forall r :: (n, r) !in X)
    requires IsFile(fs, n) && ValidBlock(Slot(fs, n, s))
    requires MapsFree(X, q) && !MapsMatter(q, n) && Making(q) != Some(n)
    ensures Undisturbed(fs, X, MarkBlock(fs, Slot(fs, n, s), false), X + Window(n, s), q)
  {
    var fs' := MarkBlock(fs, Slot(fs, n, s), false);
    Freeing(fs, X, n, s);
    hide Slot, Content, Exclusive, DirOk, Whole, HeldAt;
    RootsStay(fs, X, fs', X + Window(n, s));
    assert Owns(fs, n, s);
    assert HandKept(fs, X, fs', X + Window(n, s), q) by {
      assert forall m, r :: Owns(fs', m, r) == Owns(fs, m, r);
    }
    OnlyFileDisturbs(fs, X, fs', X + Window(n, s), n, q);
  }

  lemma Clearing(fs: FS, X: set<(int, int)>, n: int, s: nat)
    requires Whole(fs, X + Window(n, s)) && IsFile(fs, n) && s <= INDEX_SLOT
    ensures var fs' := Cleared(fs, n, s);
            && Whole(fs', X) && Root(fs') == Root(fs)
            && (forall m, r :: m != n ==> Slot(fs', m, r) == Slot(fs, m, r))
            && (forall r :: Slot(fs', n, r) == if (n, r) in Window(n, s) then NONE else Slot(fs, n, r))
  {
    var fs' := Cleared(fs, n, s);
    ClearSlot(fs, fs', n, s, X);
    hide Slot, Content, Exclusive;
    WholeKept(fs, X + Window(n, s), fs', X);
  }

  lemma ClearingDisturbsNobody(fs: FS, X: set<(int, int)>, n: int, s: nat, q: PC)
    requires Whole(fs, X + Window(n, s)) && IsFile(fs, n) && s <= INDEX_SLOT
    requires MapsFree(X + Window(n, s), q) && !MapsMatter(q, n) && Making(q) != Some(n)
    ensures Undisturbed(fs, X + Window(n, s), Cleared(fs, n, s), X, q)
  {
    var fs' := Cleared(fs, n, s);
    Clearing(fs, X, n, s);
    hide Slot, Content, Exclusive, DirOk, Whole, HeldAt;
    RootsStay(fs, X + Window(n, s), fs', X);
    assert HandKept(fs, X + Window(n, s), fs', X, q) by {
      forall m, r | Owns(fs', m, r) ensures Owns(fs, m, r) && (m, r) !in Window(n, s) && Slot(fs', m, r) == Slot(fs, m, r) {
      }
    }
    OnlyFileDisturbs(fs, X + Window(n, s), fs', X, n, q);
  }

  lemma Resizing(fs: FS, X: set<(int, int)>, n: int)
    requires Whole(fs, X) && IsFile(fs, n)
    ensures var fs' := PutInode(fs, n, fs.inodes[n].(size := 0));
            && Whole(fs', X) && Root(fs') == Root(fs)
            && forall m, r :: Slot(fs', m, r) == Slot(fs, m, r)
  {
    var fs' := PutInode(fs, n, fs.inodes[n].(size := 0));
    SameMaps(fs, fs');
    SameOwnership(fs, fs', X);
    hide Slot, Content, Exclusive;
    WholeKept(fs, X, fs', X);
  }

  lemma ResizingDisturbsNobody(fs: FS, X: set<(int, int)>, n: int, q: PC)
    requires Whole(fs, X) && IsFile(fs, n)
    requires MapsFree(X, q) && !MapsMatter(q, n) && Making(q) != Some(n)
    ensures Undisturbed(fs, X, PutInode(fs, n, fs.inodes[n].(size := 0)), X, q)
  {
    var fs' := PutInode(fs, n, fs.inodes[n].(size := 0));
    Resizing(fs, X, n);
    hide Slot, Content, Exclusive, DirOk, Whole, HeldAt;
    RootsStay(fs, X, fs', X);
    assert HandKept(fs, X, fs', X, q) by {
      assert forall m, r :: Owns(fs', m, r) == Owns(fs, m, r);
    }
    OnlyFileDisturbs(fs, X, fs', X, n, q);
  }
}
