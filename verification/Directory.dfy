/** The root directory: fixed-size entries of a 40-byte name and an i-number, packed in one block. */
module Directory {
  import opened Config
  import opened Bytes

  /** A C string, without its terminating NUL. */
  type CString = s: seq<Byte> | 0 !in s

  /** The i-number in entry i of directory content c. */
  function EntryNum(c: seq<Byte>, i: int): Int32
    requires |c| == BLOCK_SIZE && 0 <= i < MAX_DIR_ENTRIES
  {
    IntAt(c, DIR_ENTRY_SIZE * i + MAX_FILE_NAME)
  }

  /** The 40 bytes of the name field of entry i. */
  function EntryName(c: seq<Byte>, i: int): (raw: seq<Byte>)
    requires |c| == BLOCK_SIZE && 0 <= i < MAX_DIR_ENTRIES
    ensures |raw| == MAX_FILE_NAME
  {
    c[DIR_ENTRY_SIZE * i..DIR_ENTRY_SIZE * i + MAX_FILE_NAME]
  }

  /** strncmp(raw, name, MAX_FILE_NAME) == 0: the bytes agree up to the first NUL of name. */
  predicate NameMatches(raw: seq<Byte>, name: CString)
    requires |raw| == MAX_FILE_NAME
  {
    forall k :: 0 <= k < MAX_FILE_NAME && k <= |name| ==> raw[k] == if k < |name| then name[k] else 0
  }

  /** What strncpy of at most 39 bytes and the final NUL leave in the name field. */
  function StoredName(name: CString): (raw: seq<Byte>)
    ensures |raw| == MAX_FILE_NAME
  {
    seq(MAX_FILE_NAME, k requires 0 <= k < MAX_FILE_NAME =>
      if k < MAX_FILE_NAME - 1 && k < |name| then name[k] else 0)
  }

  /** The part of a name that an entry can hold. */
  function Truncated(name: CString): (r: CString)
  {
    if |name| < MAX_FILE_NAME then name else name[..MAX_FILE_NAME - 1]
  }

  /** A stored name answers to exactly one name: its first 39 bytes. */
  lemma StoredMatches(t: CString, name: CString)
    ensures NameMatches(StoredName(t), name) <==> name == Truncated(t)
  {
    var raw := StoredName(t);
    var u := Truncated(t);
    if |name| < |u| {
      assert u[|name|] in u && raw[|name|] == u[|name|];
    } else if |name| > |u| {
      assert name[|u|] in name && raw[|u|] == 0;
    } else if name != u {
      var k :| 0 <= k < |u| && name[k] != u[k];
      assert raw[k] == u[k];
    }
  }

  /** A name added to the directory is found under that name exactly when it has at most 39 bytes. */
  lemma StoredIsFound(t: CString)
    ensures NameMatches(StoredName(t), t) <==> |t| < MAX_FILE_NAME
  {
    StoredMatches(t, t);
  }

  /** Entry i is in use and answers to name. */
  predicate Answers(c: seq<Byte>, i: int, name: CString)
    requires |c| == BLOCK_SIZE
  {
    0 <= i < MAX_DIR_ENTRIES && EntryNum(c, i) != NONE && NameMatches(EntryName(c, i), name)
  }

  /** The i-number of the first entry from i on that answers to name, NONE if there is none. */
  function FindFrom(c: seq<Byte>, name: CString, i: nat): (n: int)
    requires |c| == BLOCK_SIZE && i <= MAX_DIR_ENTRIES
    ensures n == NONE <==> forall j :: i <= j < MAX_DIR_ENTRIES ==> !Answers(c, j, name)
    ensures n != NONE ==> exists j :: i <= j < MAX_DIR_ENTRIES && Answers(c, j, name) && EntryNum(c, j) == n
    decreases MAX_DIR_ENTRIES - i
  {
    if i == MAX_DIR_ENTRIES then NONE
    else if Answers(c, i, name) then EntryNum(c, i)
    else FindFrom(c, name, i + 1)
  }

  function Find(c: seq<Byte>, name: CString): (n: int)
    requires |c| == BLOCK_SIZE
    ensures n == NONE <==> forall j :: 0 <= j < MAX_DIR_ENTRIES ==> !Answers(c, j, name)
  {
    FindFrom(c, name, 0)
  }

  /** Entry i is the first one that is not in use. */
  predicate IsFirstUnused(c: seq<Byte>, i: int)
    requires |c| == BLOCK_SIZE
  {
    0 <= i < MAX_DIR_ENTRIES && EntryNum(c, i) == NONE && forall j :: 0 <= j < i ==> EntryNum(c, j) != NONE
  }

  /** Every entry is in use. */
  predicate AllUsed(c: seq<Byte>)
    requires |c| == BLOCK_SIZE
  {
    forall j :: 0 <= j < MAX_DIR_ENTRIES ==> EntryNum(c, j) != NONE
  }

  /** The first entry that answers to a name is what the scan finds. */
  lemma {:induction false} FirstIsFound(c: seq<Byte>, name: CString, i: nat, from: nat)
    requires |c| == BLOCK_SIZE && from <= i && Answers(c, i, name)
    requires forall j :: from <= j < i ==> !Answers(c, j, name)
    ensures FindFrom(c, name, from) == EntryNum(c, i)
    ensures from == 0 ==> Find(c, name) == EntryNum(c, i)
    decreases i - from
  {
    hide EntryNum, NameMatches;
    if from < i { FirstIsFound(c, name, i, from + 1); }
  }

  /** No two entries in use answer to the same name. */
  ghost predicate NamesUnique(c: seq<Byte>)
    requires |c| == BLOCK_SIZE
  {
    forall i, j, name {:trigger Answers(c, i, name), Answers(c, j, name)} ::
      Answers(c, i, name) && Answers(c, j, name) ==> i == j
  }

  /** No two entries in use hold the same i-number. */
  ghost predicate NumsUnique(c: seq<Byte>)
    requires |c| == BLOCK_SIZE
  {
    forall i, j {:trigger EntryNum(c, i), EntryNum(c, j)} ::
      0 <= i < j < MAX_DIR_ENTRIES && EntryNum(c, i) != NONE ==> EntryNum(c, i) != EntryNum(c, j)
  }

  /** When names are unique, an entry that answers to name is the one the scan finds. */
  lemma FindUnique(c: seq<Byte>, name: CString, i: int)
    requires |c| == BLOCK_SIZE && NamesUnique(c) && Answers(c, i, name)
    ensures Find(c, name) == EntryNum(c, i)
  {
  }

  /** The directory after entry i was filled with i-number n and a name. */
  function WithEntry(c: seq<Byte>, i: int, n: Int32, name: CString): (c': seq<Byte>)
    requires |c| == BLOCK_SIZE && 0 <= i < MAX_DIR_ENTRIES
    ensures |c'| == BLOCK_SIZE
  {
    Patch(c, DIR_ENTRY_SIZE * i, StoredName(name) + EncodeInt(n))
  }

  lemma WithEntryAt(c: seq<Byte>, i: int, n: Int32, name: CString)
    requires |c| == BLOCK_SIZE && 0 <= i < MAX_DIR_ENTRIES
    ensures var c' := WithEntry(c, i, n, name);
            && EntryNum(c', i) == n && EntryName(c', i) == StoredName(name)
            && forall j :: 0 <= j < MAX_DIR_ENTRIES && j != i ==>
                 EntryNum(c', j) == EntryNum(c, j) && EntryName(c', j) == EntryName(c, j)
  {
    var c' := WithEntry(c, i, n, name);
    var s := StoredName(name) + EncodeInt(n);
    assert c'[DIR_ENTRY_SIZE * i..DIR_ENTRY_SIZE * i + DIR_ENTRY_SIZE] == s;
    assert EntryNum(c', i) == IntAt(EncodeInt(n), 0);
    forall j | 0 <= j < MAX_DIR_ENTRIES && j != i
      ensures EntryNum(c', j) == EntryNum(c, j) && EntryName(c', j) == EntryName(c, j)
    {
      assert DIR_ENTRY_SIZE * j + DIR_ENTRY_SIZE <= DIR_ENTRY_SIZE * i || DIR_ENTRY_SIZE * j >= DIR_ENTRY_SIZE * i + DIR_ENTRY_SIZE;
    }
  }

  /** Filling a free entry keeps names unique exactly when no entry answers to the stored part of the name;
      a name of at most 39 bytes is then found, and the lookup of every other name is unchanged. */
  lemma AddKeepsUnique(c: seq<Byte>, i: int, n: Int32, name: CString)
    requires |c| == BLOCK_SIZE && NamesUnique(c)
    requires 0 <= i < MAX_DIR_ENTRIES && EntryNum(c, i) == NONE && n != NONE
    ensures var c' := WithEntry(c, i, n, name);
            && (NamesUnique(c') <==> Find(c, Truncated(name)) == NONE)
            && (forall other :: other != Truncated(name) ==> Find(c', other) == Find(c, other))
            && (Find(c, Truncated(name)) == NONE ==> Find(c', Truncated(name)) == n)
  {
    var c' := WithEntry(c, i, n, name);
    var u := Truncated(name);
    WithEntryAt(c, i, n, name);
    StoredMatches(name, u);
    assert Answers(c', i, u);
    forall j, other | j != i ensures Answers(c', j, other) == Answers(c, j, other) {
    }
    if Find(c, u) == NONE {
      forall a, b, x | Answers(c', a, x) && Answers(c', b, x) ensures a == b {
        StoredMatches(name, x);
        assert a != i ==> Answers(c, a, x);
        assert b != i ==> Answers(c, b, x);
      }
      FindUnique(c', u, i);
    } else {
      var j :| 0 <= j < MAX_DIR_ENTRIES && Answers(c, j, u);
      assert Answers(c', j, u) && j != i;
    }
    forall other | other != u ensures Find(c', other) == Find(c, other) {
      StoredMatches(name, other);
      FindSame(c, c', other, 0);
    }
  }

  lemma {:induction false} FindSame(c: seq<Byte>, c': seq<Byte>, name: CString, i: nat)
    requires |c| == |c'| == BLOCK_SIZE && i <= MAX_DIR_ENTRIES
    requires forall j :: i <= j < MAX_DIR_ENTRIES ==> Answers(c', j, name) == Answers(c, j, name)
    requires forall j :: i <= j < MAX_DIR_ENTRIES && Answers(c, j, name) ==> EntryNum(c', j) == EntryNum(c, j)
    ensures FindFrom(c', name, i) == FindFrom(c, name, i)
    decreases MAX_DIR_ENTRIES - i
  {
    if i < MAX_DIR_ENTRIES {
      assert Answers(c', i, name) == Answers(c, i, name);
      FindSame(c, c', name, i + 1);
    }
  }
}
