/** What tfs_open may do to the state: find, truncate or create the file, then add an open-file entry. */
module Opening {
  import opened Config
  import opened Bytes
  import opened Disk
  import opened Directory
  import opened Ownership
  import opened Files
  import opened Invariant
  import opened FirstFit
  import opened Tables
  import opened Truncation

  datatype Flags = Flags(create: bool, truncate: bool, append: bool)

  /** valid_pathname: a slash and at least one more byte. */
  predicate ValidPath(path: CString) {
    |path| > 1 && path[0] == 47
  }

  function FileName(path: CString): CString
    requires ValidPath(path)
  {
    assert forall b :: b in path[1..] ==> b in path;
    path[1..]
  }

  /** The state once a file that exists was opened for use: truncated if so asked. */
  ghost predicate Prepared(fs0: FS, mid: FS, n: int, truncate: bool, ok: bool)
    requires ValidInum(n)
  {
    var ino := fs0.inodes[n];
    if !truncate || ino.size == 0 then ok && mid == fs0
    else
      && ok == CanTruncate(ino)
      && TruncatedTo(fs0, mid, n, Leading(ino.direct, LoopLimit(ino.size)),
                     ok && WrittenBlocks(ino.size) >= MAX_DIRECT_BLOCKS, ok)
      && Exclusive(mid, {})
  }

  /** The state once a file was created and linked: the first FREE i-node, the first unused entry. */
  ghost predicate CreatedAndLinked(fs0: FS, mid: FS, n: int, name: CString)
    requires RootOk(fs0)
  {
    && IsFirstFree(fs0.inodeTaken, n)
    && exists i :: IsFirstUnused(Root(fs0), i) && LinkedAt(fs0, mid, n, i, name)
  }

  ghost predicate LinkedAt(fs0: FS, mid: FS, n: int, i: int, name: CString) {
    && ValidInum(n) && RootOk(Created(fs0, n)) && 0 <= i < MAX_DIR_ENTRIES
    && mid == Linked(Created(fs0, n), i, n, name)
  }

  /** Creation failed: nothing changed but the content of a FREE i-node. */
  ghost predicate NotCreated(fs0: FS, mid: FS)
    requires RootOk(fs0)
  {
    && (Full(fs0.inodeTaken) || AllUsed(Root(fs0)))
    && (mid == fs0 || exists n :: IsFirstFree(fs0.inodeTaken, n) && mid == fs0.(inodes := fs0.inodes[n := EMPTY_FILE]))
  }

  /** A created file is an empty file under its entry; all other files, and the other entries, are as they were. */
  lemma CreateKeepsWF(fs0: FS, mid: FS, n: int, name: CString)
    requires WF(fs0) && CreatedAndLinked(fs0, mid, n, name)
    ensures WF(mid) && IsFile(mid, n) && Content(mid, n) == []
    ensures OthersSame(fs0, mid, {ROOT_DIR_INUM})
    ensures exists i :: IsFirstUnused(Root(fs0), i) && Root(mid) == WithEntry(Root(fs0), i, n, name)
    ensures NoLeak(fs0) ==> NoLeak(mid)
    ensures mid.handleTaken == fs0.handleTaken && mid.handles == fs0.handles && mid.blockTaken == fs0.blockTaken
  {
    hide Slot, Content, Exclusive, AllCovered, EntryNum, NoLeak, NumsUnique;
    var i :| IsFirstUnused(Root(fs0), i) && LinkedAt(fs0, mid, n, i, name);
    var made := Created(fs0, n);
    assert n != ROOT_DIR_INUM;
    CreatedKeepsWF(fs0, n);
    CreatedKeeps(fs0, n);
    assert Content(made, ROOT_DIR_INUM) == Content(fs0, ROOT_DIR_INUM);
    NoEntryFor(fs0, n);
    LinkedKeepsWF(made, i, n, name);
    assert IsFirstUnused(Root(fs0), i) && Root(mid) == WithEntry(Root(fs0), i, n, name);
  }

  /** No directory entry refers to a FREE i-node. */
  lemma NoEntryFor(fs: FS, n: int)
    requires DirOk(fs) && ValidInum(n) && !fs.inodeTaken[n]
    ensures forall j :: 0 <= j < MAX_DIR_ENTRIES ==> EntryNum(Root(fs), j) != n
  {
    hide Content, EntryNum;
    forall j | 0 <= j < MAX_DIR_ENTRIES ensures EntryNum(Root(fs), j) != n {
      assert EntryNum(Root(fs), j) != NONE ==> IsFile(fs, EntryNum(Root(fs), j));
    }
  }

  lemma NotCreatedKeepsWF(fs0: FS, mid: FS)
    requires WF(fs0) && NotCreated(fs0, mid)
    ensures WF(mid) && OthersSame(fs0, mid, {})
    ensures NoLeak(fs0) ==> NoLeak(mid)
  {
    if mid != fs0 {
      var n :| IsFirstFree(fs0.inodeTaken, n) && mid == fs0.(inodes := fs0.inodes[n := EMPTY_FILE]);
      FreeInodeDoesNotShow(fs0, mid, n);
    }
  }

  lemma FreeInodeDoesNotShow(fs0: FS, mid: FS, n: int)
    requires WF(fs0) && ValidInum(n) && !fs0.inodeTaken[n] && mid == fs0.(inodes := fs0.inodes[n := EMPTY_FILE])
    ensures WF(mid) && OthersSame(fs0, mid, {})
    ensures NoLeak(fs0) ==> NoLeak(mid)
  {
    forall m, r | m != n ensures Slot(mid, m, r) == Slot(fs0, m, r) {
      assert ValidInum(m) ==> mid.inodes[m] == fs0.inodes[m];
    }
    hide Slot;
    assert forall m, r :: Owns(mid, m, r) == Owns(fs0, m, r);
    forall m | ValidInum(m) && fs0.inodeTaken[m] ensures Content(mid, m) == Content(fs0, m) {
      ContentFrame(fs0, mid, m);
    }
    hide Content, ByteOf;
    assert AllCovered(mid) by {
      forall m | IsFile(mid, m) ensures Covered(mid, m) {
        assert Covered(fs0, m);
        forall i | 0 <= i && i * BLOCK_SIZE < mid.inodes[m].size ensures BlockNo(mid, m, i) != NONE {
          assert BlockNo(fs0, m, i) != NONE;
        }
      }
    }
    assert Content(mid, ROOT_DIR_INUM) == Content(fs0, ROOT_DIR_INUM);
    assert DirOk(mid) by {
      forall i | 0 <= i < MAX_DIR_ENTRIES && EntryNum(Root(mid), i) != NONE ensures IsFile(mid, EntryNum(Root(mid), i)) {
        assert IsFile(fs0, EntryNum(Root(fs0), i));
      }
    }
    if NoLeak(fs0) {
      forall b | ValidBlock(b) && mid.blockTaken[b] ensures Held(mid, b) {
        assert Held(fs0, b);
        var m, r :| Owns(fs0, m, r) && Slot(fs0, m, r) == b;
        assert Owns(mid, m, r) && Slot(mid, m, r) == b;
      }
    }
  }

  /** An open with the truncate flag is safe for the open handles: the guard that a caller can check. */
  ghost predicate TruncationSafe(fs0: FS, n: int)
    requires ValidInum(n)
  {
    fs0.inodes[n].size == 0 || (CanTruncate(fs0.inodes[n]) && NoneBeyondStart(fs0, n))
  }

  lemma PreparedKeepsWF(fs0: FS, mid: FS, n: int, truncate: bool, ok: bool)
    requires WF(fs0) && IsFile(fs0, n) && Prepared(fs0, mid, n, truncate, ok)
    ensures Exclusive(mid, {}) && DirOk(mid) && OthersSame(fs0, mid, {n})
    ensures WF(mid) <==> !truncate || TruncationSafe(fs0, n)
    ensures IsFile(mid, n) && Root(mid) == Root(fs0)
    ensures mid.handleTaken == fs0.handleTaken && mid.handles == fs0.handles
    ensures ok ==> Content(mid, n) == if truncate then [] else Content(fs0, n)
  {
    var ino := fs0.inodes[n];
    if truncate && ino.size > 0 {
      TruncatedOthers(fs0, mid, n, Leading(ino.direct, LoopLimit(ino.size)),
                      ok && WrittenBlocks(ino.size) >= MAX_DIRECT_BLOCKS, ok);
      TruncationKeepsWFIff(fs0, mid, n);
      assert Content(mid, ROOT_DIR_INUM) == Content(fs0, ROOT_DIR_INUM);
    }
  }

  /** In a well-formed state, adding an open-file entry for a file keeps it so; in any other, it does not mend it. */
  lemma OpenedKeepsWFIff(fs: FS, h: int, n: int, offset: nat)
    requires Exclusive(fs, {}) && DirOk(fs) && ValidHandle(h) && !fs.handleTaken[h]
    requires IsFile(fs, n) && offset <= fs.inodes[n].size
    ensures WF(Opened(fs, h, n, offset)) <==> WF(fs)
    ensures Exclusive(Opened(fs, h, n, offset), {})
  {
    var fs' := Opened(fs, h, n, offset);
    SameMaps(fs, fs');
    SameOwnership(fs, fs', {});
    if WF(fs) {
      OpenedKeepsWF(fs, h, n, offset);
    }
    if WF(fs') {
      OpenedMendsNothing(fs, h, n, offset);
    }
  }

  lemma OpenedMendsNothing(fs: FS, h: int, n: int, offset: nat)
    requires Exclusive(fs, {}) && DirOk(fs) && ValidHandle(h) && !fs.handleTaken[h]
    requires WF(Opened(fs, h, n, offset))
    ensures WF(fs)
  {
    var fs' := Opened(fs, h, n, offset);
    SameMaps(fs, fs');
    hide Slot, Exclusive, DirOk, Content;
    CountUpdate(fs.handleTaken, h, true);
    forall m | IsFile(fs, m) ensures Covered(fs, m) {
      assert IsFile(fs', m) && Covered(fs', m);
      forall i | 0 <= i && i * BLOCK_SIZE < fs.inodes[m].size ensures BlockNo(fs, m, i) != NONE {
        assert BlockNo(fs', m, i) != NONE;
      }
    }
    forall g | ValidHandle(g) && fs.handleTaken[g]
      ensures IsFile(fs, fs.handles[g].inum) && fs.handles[g].offset <= fs.inodes[fs.handles[g].inum].size
    {
      assert fs'.handleTaken[g] && fs'.handles[g] == fs.handles[g];
    }
  }

  // ---------------------------------------------------------------- the whole of tfs_open

  /** The i-number that a lookup returns is that of a file. */
  lemma FoundIsFile(fs: FS, name: CString)
    requires DirOk(fs)
    ensures Find(Root(fs), name) == NONE || IsFile(fs, Find(Root(fs), name))
  {
    hide Content, EntryNum;
    var n := FindFrom(Root(fs), name, 0);
    if n != NONE {
      var j :| 0 <= j < MAX_DIR_ENTRIES && Answers(Root(fs), j, name) && EntryNum(Root(fs), j) == n;
    }
  }

  /** The outcome of tfs_open, in all its cases. */
  ghost predicate OpenEffect(fs0: FS, fs: FS, path: CString, flags: Flags, r: int, n: int, mid: FS)
    requires DirOk(fs0)
  {
    if !ValidPath(path) then r == NONE && fs == fs0
    else
      var name := FileName(path);
      var found := Find(Root(fs0), name);
      if found != NONE then
        && n == found && ValidInum(n)
        && exists ok :: Prepared(fs0, mid, n, flags.truncate, ok) &&
             if ok then HandleAdded(mid, fs, r, n, if flags.append then mid.inodes[n].size else 0)
             else r == NONE && fs == mid
      else if !flags.create then r == NONE && fs == fs0
      else if n == NONE then r == NONE && fs == mid && NotCreated(fs0, mid)
      else CreatedAndLinked(fs0, mid, n, name) && HandleAdded(mid, fs, r, n, 0)
  }

  /** The first FREE open-file entry now refers to file n; if there is none, the open fails and nothing changes. */
  ghost predicate HandleAdded(mid: FS, fs: FS, r: int, n: int, offset: nat) {
    if r == NONE then Full(mid.handleTaken) && fs == mid
    else IsFirstFree(mid.handleTaken, r) && fs == Opened(mid, r, n, offset)
  }

  /** The opens that keep the state well formed: all but truncations that fail or that leave a handle past the end. */
  ghost predicate OpenIsSafe(fs0: FS, path: CString, flags: Flags)
    requires DirOk(fs0)
  {
    ValidPath(path) && flags.truncate && Find(Root(fs0), FileName(path)) != NONE ==>
      ValidInum(Find(Root(fs0), FileName(path))) && TruncationSafe(fs0, Find(Root(fs0), FileName(path)))
  }

  /** Any open leaves blocks exclusively owned; it leaves the state well formed exactly when it is safe. */
  lemma OpenKeepsWFIff(fs0: FS, fs: FS, path: CString, flags: Flags, r: int, n: int, mid: FS)
    requires WF(fs0) && OpenEffect(fs0, fs, path, flags, r, n, mid)
    ensures Exclusive(fs, {})
    ensures WF(fs) <==> OpenIsSafe(fs0, path, flags)
  {
    hide AllCovered, HandlesOk, CountOk, RootOk, NumsUnique, Slot, Content, EntryNum, Find, Prepared,
         CreatedAndLinked, NotCreated, TruncationSafe;
    if ValidPath(path) {
      var found := Find(Root(fs0), FileName(path));
      FoundIsFile(fs0, FileName(path));
      if found != NONE {
        var ok :| Prepared(fs0, mid, n, flags.truncate, ok) &&
             if ok then HandleAdded(mid, fs, r, n, if flags.append then mid.inodes[n].size else 0)
             else r == NONE && fs == mid;
        PreparedKeepsWF(fs0, mid, n, flags.truncate, ok);
        if r != NONE { OpenedKeepsWFIff(mid, r, n, if flags.append then mid.inodes[n].size else 0); }
      } else if flags.create && n == NONE {
        NotCreatedKeepsWF(fs0, mid);
      } else if flags.create {
        CreateKeepsWF(fs0, mid, n, FileName(path));
        if r != NONE { OpenedKeepsWFIff(mid, r, n, 0); }
      }
    }
  }
}
