/**
  What a caller sees of an open of the file called `name`, in terms of the directory, the contents and the open-file
  table alone: the same for both parts, but for the truncations that parte-1 cannot carry out.
 */
module OpenOutcome {
  import opened Config
  import opened Bytes
  import opened Disk
  import opened Directory
  import opened Ownership
  import opened Files
  import opened Invariant
  import opened FirstFit
  import opened Tables
  import opened Truncation
  import opened Opening

  const SLASH: Byte := 47

  /** No open-file entry changed. */
  ghost predicate SameHandles(fs0: FS, fs: FS) {
    fs.handles == fs0.handles && fs.handleTaken == fs0.handleTaken && fs.openCount == fs0.openCount
  }

  /** The first FREE open-file entry, and no other, now holds the file at the offset; if all are TAKEN the answer is -1. */
  ghost predicate GivesHandle(fs0: FS, fs: FS, r: int, n: int, offset: nat) {
    if Full(fs0.handleTaken) then r == -1 && SameHandles(fs0, fs)
    else
      && IsFirstFree(fs0.handleTaken, r) && fs.openCount == fs0.openCount + 1 && |fs0.handles| == |fs0.handleTaken|
      && fs.handles == fs0.handles[r := OpenFile(n, offset)] && fs.handleTaken == fs0.handleTaken[r := true]
  }

  /** The file was there: it is emptied if so asked, and opened at its start, or at its end to append. No other file and no name
      changes; nor does anything but the open-file table unless it is to be emptied. */
  ghost predicate OpensFile(fs0: FS, fs: FS, n: int, flags: Flags, r: int) {
    var c := if flags.truncate then [] else Content(fs0, n);
    && RootOk(fs0) && RootOk(fs) && Root(fs) == Root(fs0) && fs.inodeTaken == fs0.inodeTaken && OthersSame(fs0, fs, {n})
    && (!flags.truncate ==> fs.inodes == fs0.inodes && fs.data == fs0.data && fs.blockTaken == fs0.blockTaken)
    && Content(fs, n) == c && GivesHandle(fs0, fs, r, n, if flags.append then |c| else 0)
  }

  /** The file could not be emptied: the answer is -1, and only that file may have changed. */
  ghost predicate KeepsShut(fs0: FS, fs: FS, n: int, r: int) {
    && r == -1 && SameHandles(fs0, fs) && RootOk(fs0) && RootOk(fs) && Root(fs) == Root(fs0)
    && fs.inodeTaken == fs0.inodeTaken && OthersSame(fs0, fs, {n})
  }

  /** A new file: the first FREE i-node, empty, under the first unused entry; opened at its start. Nothing else changes. */
  ghost predicate MakesFile(fs0: FS, fs: FS, name: CString, n: int, i: int, r: int) {
    && RootOk(fs0) && RootOk(fs) && IsFirstFree(fs0.inodeTaken, n) && IsFirstUnused(Root(fs0), i)
    && fs.inodeTaken == fs0.inodeTaken[n := true] && IsFile(fs, n) && Content(fs, n) == []
    && Root(fs) == WithEntry(Root(fs0), i, n, name)
    && (|name| < MAX_FILE_NAME && Find(Root(fs0), name) == NONE ==> Find(Root(fs), name) == n)
    && OthersSame(fs0, fs, {ROOT_DIR_INUM}) && fs.blockTaken == fs0.blockTaken && GivesHandle(fs0, fs, r, n, 0)
  }

  /** No file was made: the answer is -1, and no file, name or handle changes. */
  ghost predicate MakesNothing(fs0: FS, fs: FS, r: int) {
    && r == -1 && SameHandles(fs0, fs) && RootOk(fs0) && RootOk(fs) && Root(fs) == Root(fs0)
    && fs.inodeTaken == fs0.inodeTaken && fs.blockTaken == fs0.blockTaken && fs.data == fs0.data && OthersSame(fs0, fs, {})
  }

  /** A creating open of a name that is not there makes the file if an i-node and an entry are free for it. */
  ghost predicate Creates(fs0: FS, fs: FS, name: CString, r: int)
    requires RootOk(fs0)
  {
    if name == [] || Full(fs0.inodeTaken) || AllUsed(Root(fs0)) then MakesNothing(fs0, fs, r)
    else exists n, i :: MakesFile(fs0, fs, name, n, i, r)
  }

  /** The open of the file called name; `can` tells whether the file can be emptied. */
  ghost predicate Outcome(fs0: FS, fs: FS, name: CString, flags: Flags, r: int, can: bool)
    requires RootOk(fs0)
  {
    var n := Find(Root(fs0), name);
    if n != NONE then if flags.truncate && !can then KeepsShut(fs0, fs, n, r) else OpensFile(fs0, fs, n, flags, r)
    else if flags.create then Creates(fs0, fs, name, r)
    else r == -1 && fs == fs0
  }

  /** The truncation of parte-1 goes through on file n. */
  predicate CanEmpty(fs: FS, n: int) {
    ValidInum(n) ==> CanTruncate(fs.inodes[n])
  }

  // ---------------------------------------------------------------- what tfs_open does is that

  /** A name of at most 39 bytes that was not there is found once its entry is filled. */
  lemma AddedIsFound(c: seq<Byte>, i: int, n: Int32, name: CString)
    requires |c| == BLOCK_SIZE && 0 <= i < MAX_DIR_ENTRIES && n != NONE && |name| < MAX_FILE_NAME && Find(c, name) == NONE
    ensures Find(WithEntry(c, i, n, name), name) == n
  {
    hide EntryNum, EntryName, WithEntry, StoredName;
    var c' := WithEntry(c, i, n, name);
    WithEntryAt(c, i, n, name);
    StoredIsFound(name);
    assert Answers(c', i, name);
    forall j | 0 <= j < MAX_DIR_ENTRIES && j != i ensures !Answers(c', j, name) {
      assert !Answers(c, j, name);
    }
  }

  lemma HandleIsGiven(mid: FS, fs: FS, r: int, n: int, offset: nat)
    requires HandleAdded(mid, fs, r, n, offset)
    ensures GivesHandle(mid, fs, r, n, offset)
  {
  }

  /** An open-file entry shows in no file and no name. */
  lemma EntryDoesNotShow(mid: FS, fs: FS, r: int, n: int, offset: nat)
    requires Exclusive(mid, {}) && DirOk(mid) && HandleAdded(mid, fs, r, n, offset)
    ensures OthersSame(mid, fs, {}) && (forall m :: Content(fs, m) == Content(mid, m)) && RootOk(fs) && Root(fs) == Root(mid)
    ensures fs.inodeTaken == mid.inodeTaken && fs.inodes == mid.inodes && fs.data == mid.data && fs.blockTaken == mid.blockTaken
  {
    hide Slot, Content, Exclusive, EntryNum, NumsUnique;
    if r != NONE { TableDoesNotShow(mid, fs); }
  }

  lemma FoundOutcome(fs0: FS, mid: FS, fs: FS, n: int, flags: Flags, r: int, ok: bool)
    requires WF(fs0) && IsFile(fs0, n) && Prepared(fs0, mid, n, flags.truncate, ok)
    requires if ok then HandleAdded(mid, fs, r, n, if flags.append then mid.inodes[n].size else 0) else r == NONE && fs == mid
    ensures if flags.truncate && !CanTruncate(fs0.inodes[n]) then KeepsShut(fs0, fs, n, r) else OpensFile(fs0, fs, n, flags, r)
  {
    hide Slot, Content, Exclusive, AllCovered, HandlesOk, EntryNum, NumsUnique, CountOk, TruncationSafe;
    PreparedKeepsWF(fs0, mid, n, flags.truncate, ok);
    assert |Content(mid, n)| == mid.inodes[n].size;
    if ok {
      HandleIsGiven(mid, fs, r, n, if flags.append then mid.inodes[n].size else 0);
      EntryDoesNotShow(mid, fs, r, n, if flags.append then mid.inodes[n].size else 0);
    }
  }

  lemma MadeOutcome(fs0: FS, mid: FS, fs: FS, n: int, name: CString, r: int)
    requires WF(fs0) && CreatedAndLinked(fs0, mid, n, name) && HandleAdded(mid, fs, r, n, 0)
    ensures exists i :: MakesFile(fs0, fs, name, n, i, r)
  {
    hide Slot, Content, Exclusive, AllCovered, HandlesOk, EntryNum, NumsUnique, CountOk, Find, WithEntry, NoLeak;
    CreateKeepsWF(fs0, mid, n, name);
    var i :| IsFirstUnused(Root(fs0), i) && Root(mid) == WithEntry(Root(fs0), i, n, name);
    MadeTables(fs0, mid, n, name);
    if |name| < MAX_FILE_NAME && Find(Root(fs0), name) == NONE { AddedIsFound(Root(fs0), i, n, name); }
    HandleIsGiven(mid, fs, r, n, 0);
    EntryDoesNotShow(mid, fs, r, n, 0);
    assert MakesFile(fs0, fs, name, n, i, r);
  }

  lemma MadeTables(fs0: FS, mid: FS, n: int, name: CString)
    requires RootOk(fs0) && CreatedAndLinked(fs0, mid, n, name)
    ensures mid.inodeTaken == fs0.inodeTaken[n := true] && mid.openCount == fs0.openCount
  {
    hide Slot, EntryNum;
  }

  lemma NothingOutcome(fs0: FS, mid: FS, r: int)
    requires WF(fs0) && NotCreated(fs0, mid) && r == NONE
    ensures MakesNothing(fs0, mid, r) && (Full(fs0.inodeTaken) || AllUsed(Root(fs0)))
  {
    hide Slot, Content, Exclusive, AllCovered, HandlesOk, EntryNum, NumsUnique, NoLeak;
    NotCreatedKeepsWF(fs0, mid);
  }

  lemma MadeIsPossible(fs0: FS, mid: FS, n: int, name: CString)
    requires RootOk(fs0) && CreatedAndLinked(fs0, mid, n, name)
    ensures !Full(fs0.inodeTaken) && !AllUsed(Root(fs0))
  {
    hide Slot, EntryNum, Content;
  }

  /** A slash and at least one more byte name a file: what tfs_open of such a path does is what is said above of the open of the
      rest of it. Any other path is answered with -1 and changes nothing. */
  lemma OpenIsAsAsked(fs0: FS, fs: FS, path: CString, flags: Flags, r: int, n: int, mid: FS, name: CString)
    requires WF(fs0) && OpenEffect(fs0, fs, path, flags, r, n, mid)
    ensures name != [] && path == [SLASH] + name ==>
              Outcome(fs0, fs, name, flags, r, CanEmpty(fs0, Find(Root(fs0), name)))
    ensures |path| < 2 || path[0] != SLASH ==> r == -1 && fs == fs0
  {
    hide Slot, Content, Exclusive, AllCovered, HandlesOk, EntryNum, NumsUnique, CountOk, Find, Prepared, CreatedAndLinked,
         NotCreated, OpensFile, KeepsShut, MakesFile, MakesNothing, HandleAdded;
    if name != [] && path == [SLASH] + name {
      assert FileName(path) == name;
      FoundIsFile(fs0, name);
      var found := Find(Root(fs0), name);
      if found != NONE {
        var ok :| Prepared(fs0, mid, n, flags.truncate, ok) &&
             if ok then HandleAdded(mid, fs, r, n, if flags.append then mid.inodes[n].size else 0)
             else r == NONE && fs == mid;
        FoundOutcome(fs0, mid, fs, n, flags, r, ok);
      } else if flags.create && n == NONE {
        NothingOutcome(fs0, mid, r);
      } else if flags.create {
        MadeIsPossible(fs0, mid, n, name);
        MadeOutcome(fs0, mid, fs, n, name, r);
      }
    }
  }
}
