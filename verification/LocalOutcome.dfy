/** What a caller sees of the open, the write and the close of parte-2, said without the functions that carry them out. */
module LocalOutcome {
  import opened Config
  import opened Bytes
  import opened Disk
  import opened Directory
  import opened Ownership
  import opened Files
  import opened Invariant
  import opened FirstFit
  import opened Tables
  import opened Truncation
  import opened Opening
  import opened OpenOutcome
  import opened SingleBlock

  // ---------------------------------------------------------------- open

  lemma HandedIsAdded(fs: FS, n: int, offset: nat)
    ensures HandleAdded(fs, Handed(fs, n, offset).0, Handed(fs, n, offset).1, n, offset)
  {
    FirstIsFirst(fs.handleTaken);
  }

  lemma ExistingOutcome(fs: FS, n: int, flags: Flags)
    requires SmallWF(fs) && IsFile(fs, n)
    ensures var mid := if flags.truncate then Emptied(fs, n) else fs;
            var (fs', r) := Handed(mid, n, if flags.append then mid.inodes[n].size else 0);
            OpensFile(fs, fs', n, flags, r)
  {
    hide Slot, Content, Exclusive, AllCovered, HandlesOk, EntryNum, NumsUnique, CountOk, Small, Handed,
         NoneBeyondStart, HandleAdded;
    var mid := if flags.truncate then Emptied(fs, n) else fs;
    if flags.truncate { EmptiedKeepsWFIff(fs, n); }
    assert |Content(mid, n)| == mid.inodes[n].size;
    var off := if flags.append then mid.inodes[n].size else 0;
    var (fs', r) := Handed(mid, n, off);
    HandedIsAdded(mid, n, off);
    HandleIsGiven(mid, fs', r, n, off);
    EntryDoesNotShow(mid, fs', r, n, off);
  }

  lemma LinkOutcome(fs: FS, name: CString)
    requires SmallWF(fs) && name != [] && !Full(fs.inodeTaken) && !AllUsed(Root(fs))
    ensures exists n, i :: MakesFile(fs, LocalCreate(fs, name).0, name, n, i, LocalCreate(fs, name).1)
  {
    hide Slot, Content, Exclusive, AllCovered, HandlesOk, EntryNum, NumsUnique, CountOk, Small, Handed, HandleAdded, MakesFile,
         FreeEntry;
    FirstIsFirst(fs.inodeTaken);
    EntryIsFirst(Root(fs), 0);
    var n, i := First(fs.inodeTaken), FreeEntry(Root(fs), 0);
    CreatedKeepsWF(fs, n);
    var mid := Linked(Created(fs, n), i, n, name);
    assert LinkedAt(fs, mid, n, i, name);
    HandedIsAdded(mid, n, 0);
    assert LocalCreate(fs, name) == Handed(mid, n, 0);
    MadeOutcome(fs, mid, Handed(mid, n, 0).0, n, name, Handed(mid, n, 0).1);
  }

  lemma NoLinkOutcome(fs: FS, name: CString)
    requires SmallWF(fs) && (name == [] || Full(fs.inodeTaken) || AllUsed(Root(fs)))
    ensures MakesNothing(fs, LocalCreate(fs, name).0, LocalCreate(fs, name).1)
  {
    hide Slot, Content, Exclusive, AllCovered, HandlesOk, EntryNum, NumsUnique, CountOk, Small, NoLeak;
    FirstIsFirst(fs.inodeTaken);
    EntryIsFirst(Root(fs), 0);
    var n := First(fs.inodeTaken);
    if n != NONE { FreeInodeDoesNotShow(fs, PutInode(fs, n, EMPTY_FILE), n); }
  }

  lemma CreationOutcome(fs: FS, name: CString)
    requires SmallWF(fs)
    ensures Creates(fs, LocalCreate(fs, name).0, name, LocalCreate(fs, name).1)
  {
    hide Slot, Content, EntryNum, MakesFile, MakesNothing, LocalCreate, Exclusive, AllCovered, HandlesOk, CountOk, Small;
    if name == [] || Full(fs.inodeTaken) || AllUsed(Root(fs)) { NoLinkOutcome(fs, name); } else { LinkOutcome(fs, name); }
  }

  /** A slash and the name of a file that is there opens that file. */
  lemma LocalOpenFinds(fs: FS, path: CString, flags: Flags, name: CString)
    requires SmallWF(fs) && name != [] && path == [SLASH] + name && Find(Root(fs), name) != NONE
    ensures OpensFile(fs, LocalOpen(fs, path, flags).0, Find(Root(fs), name), flags, LocalOpen(fs, path, flags).1)
  {
    hide Slot, Content, EntryNum, Find, Handed, Emptied, Exclusive, AllCovered, NumsUnique, CountOk, Small, OpensFile;
    assert FileName(path) == name;
    FoundIsFile(fs, name);
    ExistingOutcome(fs, Find(Root(fs), name), flags);
  }

  /** Any other path is not found: with the create flag a file is made that is named by what follows the first byte, whatever that
      is; without it the answer is -1 and nothing changes. */
  lemma LocalOpenMakes(fs: FS, path: CString, flags: Flags, name: CString)
    requires SmallWF(fs) && (if path == [] then name == [] else name == path[1..])
    requires name == [] || path[0] != SLASH || Find(Root(fs), name) == NONE
    ensures var (fs', r) := LocalOpen(fs, path, flags);
            if flags.create then Creates(fs, fs', name, r) else r == -1 && fs' == fs
  {
    hide Slot, Content, EntryNum, Find, LocalCreate, Creates, Exclusive, AllCovered, NumsUnique, CountOk, Small;
    CreationOutcome(fs, name);
  }

  // ---------------------------------------------------------------- close

  /** A close of an open handle frees its entry, and no other, and counts it out; any other close is answered with -1 and changes
      nothing. */
  lemma CloseFreesLocally(fs: FS, h: int)
    requires SmallWF(fs)
    ensures var (fs', r) := LocalClose(fs, h);
            && (r == 0 <==> ValidHandle(h) && fs.handleTaken[h])
            && (r == 0 ==>
                  && fs'.handleTaken == fs.handleTaken[h := false] && fs'.openCount == fs.openCount - 1
                  && fs'.handles == fs.handles && fs'.inodeTaken == fs.inodeTaken && fs'.blockTaken == fs.blockTaken
                  && OthersSame(fs, fs', {}) && RootOk(fs') && Root(fs') == Root(fs))
            && (r != 0 ==> r == -1 && fs' == fs)
  {
    hide Slot, Content, Exclusive, AllCovered, EntryNum, NumsUnique, CountOk, Small;
    if ValidHandle(h) && fs.handleTaken[h] { TableDoesNotShow(fs, LocalClose(fs, h).0); }
  }
}
