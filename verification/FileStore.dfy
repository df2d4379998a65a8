/** The inode layer as its callers see it: a row of files, each a type, a link count and a
    sequence of bytes, on a disk with room for a fixed number of blocks.  Any sequence of
    calls gets the replies that this flat store gives, panics included. */
module FileStore {
  import opened Common
  import opened FsImage
  import opened FsOwnership
  import opened FileSystem
  import opened FileContent

  datatype File = File(typ: int, nlink: int, data: seq<Byte>)

  datatype Store = Store(files: seq<File>, capacity: nat)

  /** The blocks that the files take up. */
  function Used(files: seq<File>): (n: nat) {
    if files == [] then 0 else Used(files[..|files| - 1]) + BlocksOf(|files[|files| - 1].data|)
  }

  lemma {:induction false} UsedUpdate(files: seq<File>, i: nat, x: File)
    requires i < |files|
    ensures Used(files[i := x]) == Used(files) - BlocksOf(|files[i].data|) + BlocksOf(|x.data|)
  {
    hide BlocksOf;
    var rest := files[..|files| - 1];
    if i < |rest| {
      UsedUpdate(rest, i, x);
      assert files[i := x][..|files| - 1] == rest[i := x];
    } else {
      assert files[i := x][..|files| - 1] == rest;
    }
  }

  // ----- calls and replies

  datatype Call =
    | Create(typ: int)                           // ialloc
    | Read(inum: nat, off: nat, n: nat)          // ilock and readi
    | Write(inum: nat, off: nat, src: seq<Byte>) // ilock and writei
    | Send(inum: nat, off: nat, src: seq<Byte>)  // filewrite of a file open at off
    | Truncate(inum: nat)                        // ilock and itrunc
    | Relink(inum: nat, nlink: int)              // ilock, a new link count, iupdate
    | Drop(inum: nat)                            // iput of the last reference
  {
    predicate Fits(ninodes: nat) {
      && (Create? || inum < ninodes)
      && (Read? ==> off < UINT_MOD && n < UINT_MOD) && (Write? || Send? ==> off < UINT_MOD && |src| < UINT_MOD)
    }
  }

  datatype Reply = Made(inum: nat) | Got(bytes: seq<Byte>) | Put(n: int) | Done | Panic

  /** The lowest free file from i on, or the number of files. */
  function FirstFree(files: seq<File>, i: nat): (k: nat)
    requires i <= |files|
    ensures i <= k <= |files| && (k < |files| ==> files[k].typ == 0)
    ensures forall j :: i <= j < k ==> files[j].typ != 0
    decreases |files| - i
  {
    if i == |files| || files[i].typ == 0 then i else FirstFree(files, i + 1)
  }

  lemma {:induction false} FirstFreeIs(files: seq<File>, i: nat, k: nat)
    requires i <= k < |files| && files[k].typ == 0 && forall j :: i <= j < k ==> files[j].typ != 0
    ensures FirstFree(files, i) == k
  {
    assert files[FirstFree(files, i)].typ == 0;
  }

  /** readi's slice. */
  function Slice(c: seq<Byte>, off: nat, n: nat): (r: seq<Byte>) {
    if off > |c| || off + n >= UINT_MOD then []
    else c[off..if off + n > |c| then |c| else off + n]
  }

  /** What the flat store does with a call.  A file of type 0 cannot be locked; a write
      panics when the files would take up more blocks than there are. */
  function Answer(s: Store, c: Call): (r: (Store, Reply))
    requires c.Fits(|s.files|)
  {
    match c
    case Create(typ) =>
      var k := if |s.files| == 0 then 0 else FirstFree(s.files, 1);
      if k < |s.files| then (s.(files := s.files[k := File(typ, 0, [])]), Made(k)) else (s, Panic)
    case Read(i, off, n) =>
      if s.files[i].typ == 0 then (s, Panic) else (s, Got(Slice(s.files[i].data, off, n)))
    case Write(i, off, src) =>
      var f := s.files[i];
      if f.typ == 0 then (s, Panic)
      else if OutOfBounds(|f.data|, off, |src|) then (s, Put(-1))
      else
        var files := s.files[i := f.(data := Splice(f.data, off, src))];
        if Used(files) > s.capacity then (s, Panic) else (s.(files := files), Put(|src|))
    case Send(i, off, src) =>
      var f := s.files[i];
      if src == [] then (s, Put(0))
      else if f.typ == 0 then (s, Panic)
      else
        var sent := if |f.data| <= MAXBYTES then Sendable(|f.data|, off, |src|) else 0;
        var reply := Put(if sent == |src| then |src| else -1);
        if off > |f.data| then (s, reply)
        else
          var files := s.files[i := f.(data := Splice(f.data, off, src[..sent]))];
          if Used(files) > s.capacity then (s, Panic) else (s.(files := files), reply)
    case Truncate(i) =>
      var f := s.files[i];
      if f.typ == 0 then (s, Panic) else (s.(files := s.files[i := f.(data := [])]), Done)
    case Relink(i, nlink) =>
      var f := s.files[i];
      if f.typ == 0 then (s, Panic) else (s.(files := s.files[i := f.(nlink := nlink)]), Done)
    case Drop(i) =>
      if s.files[i].nlink == 0 then (s.(files := s.files[i := File(0, 0, [])]), Done) else (s, Done)
  }

  ghost predicate AllFit(cs: seq<Call>, ninodes: nat) {
    forall k :: 0 <= k < |cs| ==> cs[k].Fits(ninodes)
  }

  lemma AnswerSize(s: Store, c: Call)
    requires c.Fits(|s.files|)
    ensures |Answer(s, c).0.files| == |s.files| && Answer(s, c).0.capacity == s.capacity
  {
  }

  /** The store after the calls cs, up to the first that panics, and the replies. */
  ghost function Answers(s: Store, cs: seq<Call>): (r: (Store, seq<Reply>))
    requires AllFit(cs, |s.files|)
    decreases |cs|
  {
    if cs == [] then (s, [])
    else
      var (s', reply) := Answer(s, cs[0]);
      AnswerSize(s, cs[0]);
      if reply.Panic? then (s', [Panic])
      else
        assert forall k :: 0 <= k < |cs[1..]| ==> cs[1..][k] == cs[k + 1];
        var (s'', replies) := Answers(s', cs[1..]);
        (s'', [reply] + replies)
  }

  // ----- the flat store of a file system

  ghost function FileOf(fs: Fs, i: nat): (f: File)
    requires i < |fs.inodes| && fs.inodes[i].size <= MAXBYTES
  {
    File(fs.inodes[i].typ, fs.inodes[i].nlink, Content(fs, i))
  }

  ghost predicate Sized(fs: Fs) {
    forall i: nat :: i < |fs.inodes| ==> fs.inodes[i].size <= MAXBYTES
  }

  ghost function FilesOf(fs: Fs): (r: seq<File>)
    requires Sized(fs)
    ensures |r| == |fs.inodes| && forall i: nat :: i < |r| ==> r[i] == FileOf(fs, i)
  {
    seq(|fs.inodes|, i requires 0 <= i < |fs.inodes| => FileOf(fs, i))
  }

  ghost function StoreOf(fs: Fs): (s: Store)
    requires Sized(fs) && fs.Shape()
  {
    Store(FilesOf(fs), fs.sb.size - fs.sb.datastart)
  }

  lemma TightIsSized(fs: Fs)
    requires Tight(fs)
    ensures Sized(fs) && Solid(fs)
  {
    TightIsSolid(fs);
    forall i: nat | i < |fs.inodes|
      ensures fs.inodes[i].size <= MAXBYTES
    {
      assert TightFile(fs, i);
    }
  }

  // ----- free blocks are what the files leave over

  /** The slots of the first n blocks of a file. */
  ghost function FirstSlots(inum: nat, n: nat): (r: set<Slot>)
    requires n <= MAXFILE
  {
    if n == 0 then {} else FirstSlots(inum, n - 1) + {FileSlot(inum, n - 1)}
  }

  function BlockNo(s: Slot): (bn: nat) {
    match s
    case Direct(_, i) => i
    case Table(_) => MAXFILE
    case Entry(_, j) => NDIRECT + j
  }

  /** s is the slot of one of the first n blocks of file inum. */
  predicate Among(s: Slot, inum: nat, n: nat) {
    s.inum == inum && BlockNo(s) < n && (s.Direct? ==> s.i < NDIRECT)
  }

  lemma {:induction false} FirstSlotsAre(inum: nat, n: nat)
    requires n <= MAXFILE
    ensures |FirstSlots(inum, n)| == n
    ensures forall s: Slot :: s in FirstSlots(inum, n) <==> Among(s, inum, n)
  {
    if n > 0 {
      FirstSlotsAre(inum, n - 1);
      forall s: Slot
        ensures Among(s, inum, n) <==> Among(s, inum, n - 1) || s == FileSlot(inum, n - 1)
      {
        AmongNext(s, inum, n - 1);
      }
      AmongNext(FileSlot(inum, n - 1), inum, n - 1);
      hide Among;
    }
  }

  lemma AmongNext(s: Slot, inum: nat, n: nat)
    requires n < MAXFILE
    ensures Among(s, inum, n + 1) <==> Among(s, inum, n) || s == FileSlot(inum, n)
    ensures !Among(FileSlot(inum, n), inum, n)
  {
  }

  /** The slots a file of the given size uses. */
  ghost function SlotsOf(inum: nat, size: nat): (r: set<Slot>)
    requires size <= MAXBYTES
  {
    FirstSlots(inum, (size + BSIZE - 1) / BSIZE) + if size > NDIRECT * BSIZE then {Table(inum)} else {}
  }

  lemma SlotsOfAre(fs: Fs, inum: nat, s: Slot)
    requires inum < |fs.inodes| && TightFile(fs, inum)
    ensures s in SlotsOf(inum, fs.inodes[inum].size) <==> s.In(fs) && s.inum == inum && Addr(fs, s) != 0
    ensures |SlotsOf(inum, fs.inodes[inum].size)| == BlocksOf(fs.inodes[inum].size)
  {
    hide Addr, TableOf;
    var size := fs.inodes[inum].size;
    var n := (size + BSIZE - 1) / BSIZE;
    FirstSlotsAre(inum, n);
    assert !Among(Table(inum), inum, n);
    TableAddr(fs, inum);
    if s.In(fs) && s.inum == inum && !s.Table? {
      assert s == FileSlot(inum, BlockNo(s));
      Ceiling(size, BlockNo(s));
    }
  }

  lemma TableAddr(fs: Fs, inum: nat)
    requires inum < |fs.inodes|
    ensures TableOf(fs, inum) != {} <==> Addr(fs, Table(inum)) != 0
  {
  }

  /** All slots in use of the first n files. */
  ghost function SlotsBelow(fs: Fs, n: nat): (r: set<Slot>)
    requires n <= |fs.inodes| && Sized(fs)
  {
    if n == 0 then {} else SlotsBelow(fs, n - 1) + SlotsOf(n - 1, fs.inodes[n - 1].size)
  }

  lemma {:induction false} SlotsBelowAre(fs: Fs, n: nat)
    requires n <= |fs.inodes| && Tight(fs) && Sized(fs)
    ensures forall s: Slot :: s in SlotsBelow(fs, n) <==> s.In(fs) && s.inum < n && Addr(fs, s) != 0
    ensures |SlotsBelow(fs, n)| == Used(FilesOf(fs)[..n])
  {
    hide Addr, SlotsOf, BlocksOf, TightFile;
    if n > 0 {
      SlotsBelowAre(fs, n - 1);
      var last := SlotsOf(n - 1, fs.inodes[n - 1].size);
      assert TightFile(fs, n - 1);
      forall s: Slot
        ensures s in last <==> s.In(fs) && s.inum == n - 1 && Addr(fs, s) != 0
      {
        SlotsOfAre(fs, n - 1, s);
      }
      SlotsOfAre(fs, n - 1, Table(n - 1));
      assert SlotsBelow(fs, n - 1) !! last;
      assert FilesOf(fs)[..n][..n - 1] == FilesOf(fs)[..n - 1];
    }
  }

  lemma {:induction false} OneBlockEach(owner: Owner)
    requires forall a: nat, b: nat :: a in owner && b in owner && a != b ==> owner[a] != owner[b]
    ensures |owner.Keys| == |owner.Values|
  {
    if owner != map[] {
      var a :| a in owner;
      var rest := owner - {a};
      OneBlockEach(rest);
      assert owner.Keys == rest.Keys + {a};
      assert owner.Values == rest.Values + {owner[a]} by {
        forall s | s in owner.Values
          ensures s in rest.Values + {owner[a]}
        {
          var b :| b in owner && owner[b] == s;
          assert b != a ==> b in rest && rest[b] == s;
        }
      }
      assert owner[a] !in rest.Values;
    }
  }

  predicate Within(lo: nat, x: nat, hi: nat) { lo <= x < hi }

  ghost function Range(lo: nat, hi: nat): (r: set<nat>) {
    set x: nat | x < hi && Within(lo, x, hi)
  }

  lemma {:induction false} RangeSize(lo: nat, hi: nat)
    requires lo <= hi
    ensures |Range(lo, hi)| == hi - lo
  {
    if lo < hi {
      RangeSize(lo, hi - 1);
      assert Range(lo, hi) == Range(lo, hi - 1) + {hi - 1};
    } else {
      assert Range(lo, hi) == {};
    }
  }

  /** The free blocks of a sound file system are the capacity less what the files use. */
  lemma FreeIsSpare(fs: Fs, owner: Owner)
    requires Owned(fs, owner, Whole) && Tight(fs) && Sized(fs)
    ensures |Free(fs)| == fs.sb.size - fs.sb.datastart - Used(FilesOf(fs))
  {
    hide Owned, Free, Tight, SlotsBelow;
    OwnedShape(fs, owner);
    OwnerSlots(fs, owner);
    SlotsBelowAre(fs, |fs.inodes|);
    assert FilesOf(fs)[..|fs.inodes|] == FilesOf(fs);
    forall x: nat
      ensures x in Range(fs.sb.datastart, fs.sb.size) <==> x in Free(fs) || x in owner.Keys
      ensures !(x in Free(fs) && x in owner.Keys)
    {
      FreeIsUnowned(fs, owner, x);
      if x in owner { OwnedAt(fs, owner, x); }
    }
    Partition(fs.sb.datastart, fs.sb.size, Free(fs), owner.Keys);
  }

  lemma OwnedShape(fs: Fs, owner: Owner)
    requires Owned(fs, owner, Whole)
    ensures fs.Shape()
  {
  }

  lemma Partition(lo: nat, hi: nat, a: set<nat>, b: set<nat>)
    requires lo <= hi
    requires forall x: nat :: x in Range(lo, hi) <==> x in a || x in b
    requires forall x: nat :: !(x in a && x in b)
    ensures |a| + |b| == hi - lo
  {
    RangeSize(lo, hi);
    assert Range(lo, hi) == a + b;
    assert a !! b;
  }

  lemma OwnerSlots(fs: Fs, owner: Owner)
    requires Owned(fs, owner, Whole) && Tight(fs) && Sized(fs)
    ensures |owner.Keys| == |SlotsBelow(fs, |fs.inodes|)|
  {
    hide Addr;
    SlotsBelowAre(fs, |fs.inodes|);
    forall a: nat | a in owner
      ensures owner[a].In(fs) && Addr(fs, owner[a]) == a != 0
    {
      OwnedAt(fs, owner, a);
    }
    OneBlockEach(owner);
    forall s: Slot
      ensures s in owner.Values <==> s in SlotsBelow(fs, |fs.inodes|)
    {
      if s in SlotsBelow(fs, |fs.inodes|) {
        assert Live(fs, Whole, s) == Addr(fs, s);
        assert owner[Addr(fs, s)] == s;
      }
      if s in owner.Values {
        var a :| a in owner && owner[a] == s;
        assert s.In(fs) && Addr(fs, s) != 0;
      }
    }
    assert owner.Values == SlotsBelow(fs, |fs.inodes|);
  }

  // ----- the calls

  /** st stands for the flat store s. */
  ghost predicate Stands(st: InodeLayer, s: Store)
    reads st
  {
    Sound(st) && Sized(st.View()) && StoreOf(st.View()) == s
  }

  lemma StandsFacts(st: InodeLayer, s: Store)
    requires Stands(st, s)
    ensures st.View().Shape() && Solid(st.View()) && |s.files| == |st.inodes|
    ensures |Free(st.View())| == s.capacity - Used(s.files)
    ensures forall i :: 0 <= i < |st.inodes| ==>
              && s.files[i].typ == st.inodes[i].typ && s.files[i].nlink == st.inodes[i].nlink
              && |s.files[i].data| == st.inodes[i].size
  {
    hide Content;
    TightIsSolid(st.View());
    FreeIsSpare(st.View(), st.owner);
    forall i: nat | i < |st.inodes|
      ensures s.files[i] == FileOf(st.View(), i)
    {
    }
  }

  /** Two file systems of which only file i differs. */
  lemma OneFile(fs: Fs, fs': Fs, i: nat, f: File)
    requires Sized(fs) && Sized(fs') && fs.Shape() && fs'.Shape() && fs'.sb == fs.sb && i < |fs.inodes|
    requires Solid(fs) && Solid(fs') && OthersKept(fs, fs', i) && FileOf(fs', i) == f
    ensures StoreOf(fs') == StoreOf(fs).(files := FilesOf(fs)[i := f])
  {
    hide Content, Solid;
    assert FilesOf(fs') == FilesOf(fs)[i := f];
  }

  /** Changing types and link counts moves no byte. */
  lemma RetypedFile(fs: Fs, fs': Fs, i: nat)
    requires Tight(fs) && i < |fs.inodes| && |fs'.inodes| == |fs.inodes| && fs'.blocks == fs.blocks && fs'.sb == fs.sb
    requires fs'.inodes == fs.inodes[i := fs.inodes[i].(typ := fs'.inodes[i].typ, nlink := fs'.inodes[i].nlink)]
    ensures Tight(fs') && Solid(fs) && Solid(fs') && OthersKept(fs, fs', i)
    ensures fs.inodes[i].size <= MAXBYTES && Content(fs', i) == Content(fs, i)
  {
    TightIsSolid(fs);
    forall k: nat, bn: nat | k < |fs.inodes| && bn < MAXFILE
      ensures Addr(fs', FileSlot(k, bn)) == Addr(fs, FileSlot(k, bn))
    {
    }
    forall k: nat | k < |fs'.inodes|
      ensures TightFile(fs', k) && Content(fs', k) == Content(fs, k)
    {
      assert TightFile(fs, k);
      hide Addr;
      assert TableOf(fs', k) == TableOf(fs, k);
    }
    TightIsSolid(fs');
  }

  method DoCreate(st: InodeLayer, typ: int, ghost s: Store) returns (r: Reply)
    requires Stands(st, s)
    modifies st`inodes, st`dinodes, st`logged
    ensures r == Answer(s, Create(typ)).1
    ensures !r.Panic? ==> Stands(st, Answer(s, Create(typ)).0)
  {
    hide Owned, Tight, Content, Used;
    StandsFacts(st, s);
    ghost var v := st.View();
    var inum, ok := st.Ialloc(typ);
    if !ok { return Panic; }
    FirstFreeIs(s.files, 1, inum);
    EmptyFile(v, inum);
    RetypedFile(v, st.View(), inum);
    TightIsSized(st.View());
    OneFile(v, st.View(), inum, File(typ, 0, []));
    r := Made(inum);
  }

  /** A free inode is the empty file. */
  lemma EmptyFile(fs: Fs, i: nat)
    requires i < |fs.inodes| && fs.inodes[i].size == 0
    ensures Content(fs, i) == []
  {
  }

  method DoRead(st: InodeLayer, inum: nat, off: nat, n: nat, ghost s: Store) returns (r: Reply)
    requires Stands(st, s) && inum < |st.inodes| && off < UINT_MOD && n < UINT_MOD
    modifies st`blocks, st`inodes, st`owner, st`logged
    ensures r == Answer(s, Read(inum, off, n)).1
    ensures !r.Panic? ==> Stands(st, s)
  {
    hide Owned, Tight, Content, Used, Solid;
    StandsFacts(st, s);
    if st.inodes[inum].typ == 0 { return Panic; }
    assert s.files[inum] == FileOf(st.View(), inum);
    var bytes := Readi(st, inum, off, n);
    r := Got(bytes);
  }

  method DoWrite(st: InodeLayer, inum: nat, off: nat, src: seq<Byte>, ghost s: Store) returns (r: Reply)
    requires Stands(st, s) && inum < |st.inodes| && off < UINT_MOD && |src| < UINT_MOD
    modifies st`blocks, st`inodes, st`dinodes, st`owner, st`logged
    ensures r == Answer(s, Write(inum, off, src)).1
    ensures !r.Panic? ==> Stands(st, Answer(s, Write(inum, off, src)).0)
  {
    hide Owned, Tight, Content, Used, Solid, Need, Free, Extended, OthersKept, BlocksOf;
    StandsFacts(st, s);
    if st.inodes[inum].typ == 0 { return Panic; }
    ghost var v := st.View();
    assert s.files[inum] == FileOf(v, inum);
    WriteRoom(v, s, inum, off, src);
    var n, ok := Writei(st, inum, off, src);
    if !ok { return Panic; }
    r := Put(n);
    if n >= 0 {
      TightIsSized(st.View());
      ExtendedInodes(v, st.View(), inum, off, |src|);
      ExtendedShape(v, st.View(), inum, off, |src|);
      OneFile(v, st.View(), inum, s.files[inum].(data := Splice(s.files[inum].data, off, src)));
    }
  }

  method DoSend(st: InodeLayer, inum: nat, off: nat, src: seq<Byte>, ghost s: Store) returns (r: Reply)
    requires Stands(st, s) && inum < |st.inodes| && off < UINT_MOD && |src| < UINT_MOD
    modifies st`blocks, st`inodes, st`dinodes, st`owner, st`logged
    ensures r == Answer(s, Send(inum, off, src)).1
    ensures !r.Panic? ==> Stands(st, Answer(s, Send(inum, off, src)).0)
  {
    hide Owned, Tight, Content, Used, Solid, Need, Free, OthersKept, BlocksOf, Sendable, Reached;
    StandsFacts(st, s);
    if src == [] { return Put(0); }
    if st.inodes[inum].typ == 0 { return Panic; }
    ghost var v := st.View();
    assert s.files[inum] == FileOf(v, inum);
    var f := new OpenFile(inum, true, off);
    var n, ok;
    ghost var sent, logs;
    n, ok, sent, logs := FileWrite(st, f, src);
    if off <= v.inodes[inum].size {
      SendRoom(v, s, inum, off, src, sent);
    }
    if !ok { return Panic; }
    r := Put(n);
    TightIsSized(st.View());
    ValidShape(st);
    SentFile(v, st.View(), s, inum, off, src, sent);
  }

  lemma SendRoom(fs: Fs, s: Store, inum: nat, off: nat, src: seq<Byte>, sent: nat)
    requires fs.Shape() && Tight(fs) && Sized(fs) && StoreOf(fs) == s && inum < |fs.inodes|
    requires |Free(fs)| == s.capacity - Used(s.files) && off <= fs.inodes[inum].size
    requires sent <= |src| && off + sent <= MAXBYTES
    ensures off <= |s.files[inum].data|
    ensures Need(fs, inum, off, sent) <= |Free(fs)| <==>
            Used(s.files[inum := s.files[inum].(data := Splice(s.files[inum].data, off, src[..sent]))]) <= s.capacity
  {
    hide Need, Free, Used, Content;
    assert |src[..sent]| == sent;
    assert s.files[inum] == FileOf(fs, inum);
    WriteRoom(fs, s, inum, off, src[..sent]);
  }

  lemma SentFile(fs: Fs, fs': Fs, s: Store, inum: nat, off: nat, src: seq<Byte>, sent: nat)
    requires Solid(fs) && Solid(fs') && Sized(fs) && Sized(fs') && fs.Shape() && fs'.Shape() && fs'.sb == fs.sb
    requires Reached(fs, fs', inum, off, src, sent) && StoreOf(fs) == s
    ensures inum < |s.files|
    ensures var f := s.files[inum];
            StoreOf(fs') == if off > |f.data| then s
                            else s.(files := s.files[inum := f.(data := Splice(f.data, off, src[..sent]))])
  {
    hide Solid, Content, OthersKept;
    var f := s.files[inum];
    assert f == FileOf(fs, inum);
    if off > |f.data| {
      OneFile(fs, fs', inum, f);
      assert s.files[inum := f] == s.files;
    } else {
      OneFile(fs, fs', inum, f.(data := Splice(f.data, off, src[..sent])));
    }
  }

  lemma ExtendedShape(fs: Fs, fs': Fs, inum: nat, off: nat, n: nat)
    requires Extended(fs, fs', inum, off, n)
    ensures fs.Shape() && fs'.Shape() && fs'.sb == fs.sb && inum < |fs.inodes| == |fs'.inodes|
    ensures fs'.inodes[inum].typ == fs.inodes[inum].typ && fs'.inodes[inum].nlink == fs.inodes[inum].nlink
  {
    hide Addr, Free, Need;
  }

  /** The blocks a write needs are free exactly when the files still fit afterwards. */
  lemma WriteRoom(fs: Fs, s: Store, inum: nat, off: nat, src: seq<Byte>)
    requires fs.Shape() && Tight(fs) && Sized(fs) && StoreOf(fs) == s && inum < |fs.inodes|
    requires |Free(fs)| == s.capacity - Used(s.files)
    ensures !OutOfBounds(fs.inodes[inum].size, off, |src|) ==>
              off <= |s.files[inum].data| && off + |src| <= MAXBYTES
              && (Need(fs, inum, off, |src|) <= |Free(fs)| <==>
                    Used(s.files[inum := s.files[inum].(data := Splice(s.files[inum].data, off, src))]) <= s.capacity)
  {
    hide Content, Used, BlocksOf, Need, Free;
    assert s.files[inum] == FileOf(fs, inum);
    if !OutOfBounds(fs.inodes[inum].size, off, |src|) {
      assert TightFile(fs, inum);
      NeedIsGrowth(fs, inum, off, |src|);
      var f := s.files[inum].(data := Splice(s.files[inum].data, off, src));
      assert |f.data| == Max(fs.inodes[inum].size, off + |src|);
      UsedUpdate(s.files, inum, f);
    }
  }

  /** File inum emptied and perhaps retyped, with the other files left alone. */
  lemma EmptiedFile(fs: Fs, owner: Owner, fs': Fs, inum: nat)
    requires Owned(fs, owner, Whole) && Tight(fs) && OnlyMeta(fs, fs', inum) && inum < |fs.inodes|
    requires fs'.inodes[inum].size == 0 && fs'.inodes[inum].addrs == seq(NDIRECT + 1, _ => 0)
    ensures Tight(fs') && Solid(fs) && Solid(fs') && OthersKept(fs, fs', inum)
  {
    TightIsSolid(fs);
    TruncKeepsFiles(fs, owner, fs', inum);
    hide OthersKept, Solid;
    forall k: nat | k < |fs'.inodes|
      ensures TightFile(fs', k)
    {
      if k == inum {
        NoSlots(fs', inum);
      } else {
        UntouchedFile(fs, owner, fs', inum, k);
        assert TightFile(fs, k);
        hide Addr;
        assert TableOf(fs', k) == TableOf(fs, k);
      }
    }
  }

  lemma NoSlots(fs: Fs, inum: nat)
    requires inum < |fs.inodes| && fs.inodes[inum].size == 0 && fs.inodes[inum].addrs == seq(NDIRECT + 1, _ => 0)
    ensures TightFile(fs, inum)
  {
  }

  method DoTruncate(st: InodeLayer, inum: nat, ghost s: Store) returns (r: Reply)
    requires Stands(st, s) && inum < |st.inodes|
    modifies st`blocks, st`inodes, st`dinodes, st`owner, st`logged
    ensures r == Answer(s, Truncate(inum)).1
    ensures !r.Panic? ==> Stands(st, Answer(s, Truncate(inum)).0)
  {
    hide Owned, Tight, Content, Used, Solid, OthersKept, OnlyMeta;
    StandsFacts(st, s);
    if st.inodes[inum].typ == 0 { return Panic; }
    ghost var v, o := st.View(), st.owner;
    assert s.files[inum] == FileOf(v, inum);
    st.Itrunc(inum);
    MetaInodes(v, st.View(), inum);
    EmptiedFile(v, o, st.View(), inum);
    TightIsSized(st.View());
    EmptyFile(st.View(), inum);
    ValidShape(st);
    OneFile(v, st.View(), inum, s.files[inum].(data := []));
    r := Done;
  }

  method DoDrop(st: InodeLayer, inum: nat, ghost s: Store) returns (r: Reply)
    requires Stands(st, s) && inum < |st.inodes|
    modifies st`blocks, st`inodes, st`dinodes, st`owner, st`logged
    ensures r == Answer(s, Drop(inum)).1
    ensures Stands(st, Answer(s, Drop(inum)).0)
  {
    hide Owned, Tight, Content, Used, Solid, OthersKept, OnlyMeta;
    StandsFacts(st, s);
    ghost var v, o := st.View(), st.owner;
    var ref := st.Iput(inum, 1, true);
    r := Done;
    MetaInodes(v, st.View(), inum);
    if v.inodes[inum].nlink == 0 {
      EmptiedFile(v, o, st.View(), inum);
      TightIsSized(st.View());
      EmptyFile(st.View(), inum);
      ValidShape(st);
      OneFile(v, st.View(), inum, File(0, 0, []));
    }
  }

  method DoRelink(st: InodeLayer, inum: nat, nlink: int, ghost s: Store) returns (r: Reply)
    requires Stands(st, s) && inum < |st.inodes|
    modifies st`inodes, st`dinodes, st`logged
    ensures r == Answer(s, Relink(inum, nlink)).1
    ensures !r.Panic? ==> Stands(st, Answer(s, Relink(inum, nlink)).0)
  {
    hide Owned, Tight, Content, Used, Solid, OthersKept;
    StandsFacts(st, s);
    if st.inodes[inum].typ == 0 { return Panic; }
    ghost var v := st.View();
    assert s.files[inum] == FileOf(v, inum);
    st.inodes := st.inodes[inum := st.inodes[inum].(nlink := nlink)];
    SizeIsFree(v, st.View(), st.owner);
    RetypedFile(v, st.View(), inum);
    st.Iupdate(inum);
    TightIsSized(st.View());
    ValidShape(st);
    OneFile(v, st.View(), inum, s.files[inum].(nlink := nlink));
    r := Done;
  }

  method Do(st: InodeLayer, c: Call, ghost s: Store) returns (r: Reply)
    requires Stands(st, s) && c.Fits(|st.inodes|) && |s.files| == |st.inodes|
    modifies st`blocks, st`inodes, st`dinodes, st`owner, st`logged
    ensures r == Answer(s, c).1
    ensures !r.Panic? ==> Stands(st, Answer(s, c).0)
  {
    hide Answer, Stands;
    match c {
      case Create(typ) => r := DoCreate(st, typ, s);
      case Read(i, off, n) =>
        ReadKeeps(s, c);
        r := DoRead(st, i, off, n, s);
      case Write(i, off, src) => r := DoWrite(st, i, off, src, s);
      case Send(i, off, src) => r := DoSend(st, i, off, src, s);
      case Truncate(i) => r := DoTruncate(st, i, s);
      case Relink(i, nlink) => r := DoRelink(st, i, nlink, s);
      case Drop(i) => r := DoDrop(st, i, s);
    }
  }

  lemma ReadKeeps(s: Store, c: Call)
    requires c.Read? && c.Fits(|s.files|)
    ensures Answer(s, c).0 == s
  {
  }

  /** Over any sequence of calls on a sound file system, the replies are the flat store's,
      a panic comes exactly where the flat store has one, and short of that the file
      system stays sound and stands for the flat store. */
  method Serve(st: InodeLayer, cs: seq<Call>, ghost s: Store) returns (replies: seq<Reply>)
    requires Stands(st, s) && AllFit(cs, |s.files|) && |s.files| == |st.inodes|
    modifies st`blocks, st`inodes, st`dinodes, st`owner, st`logged
    ensures replies == Answers(s, cs).1
    ensures Panic !in replies ==> Stands(st, Answers(s, cs).0)
  {
    hide Answer, Stands;
    replies := [];
    var k := 0;
    ghost var s' := s;
    assert cs[0..] == cs && [] + Answers(s, cs).1 == Answers(s, cs).1;
    while k < |cs|
      invariant k <= |cs| && Stands(st, s') && |s'.files| == |s.files| && Panic !in replies
      invariant AllFit(cs[k..], |s'.files|)
      invariant Answers(s, cs) == (Answers(s', cs[k..]).0, replies + Answers(s', cs[k..]).1)
    {
      StandsSize(st, s');
      ghost var c := cs[k..][0];
      assert cs[k..][1..] == cs[k + 1..];
      AnswerSize(s', cs[k]);
      var r := Do(st, cs[k], s');
      if r.Panic? {
        return replies + [r];
      }
      ghost var s'' := Answer(s', cs[k]).0;
      assert replies + ([r] + Answers(s'', cs[k + 1..]).1) == replies + [r] + Answers(s'', cs[k + 1..]).1;
      replies := replies + [r];
      s' := s'';
      k := k + 1;
    }
    assert cs[k..] == [];
  }

  lemma StandsSize(st: InodeLayer, s: Store)
    requires Stands(st, s)
    ensures |s.files| == |st.inodes|
  {
  }

  /** An empty file system is sound, so there is one to start from. */
  method Mkfs(sb: Super) returns (st: InodeLayer)
    requires sb.Valid()
    ensures fresh(st) && Stands(st, Store(seq(sb.ninodes, _ => File(0, 0, [])), sb.size - sb.datastart))
  {
    st := new InodeLayer.Format(sb);
    forall i: nat | i < |st.inodes|
      ensures TightFile(st.View(), i) && Content(st.View(), i) == []
    {
      NoSlots(st.View(), i);
      EmptyFile(st.View(), i);
    }
    ghost var files := seq(sb.ninodes, _ => File(0, 0, []));
    assert FilesOf(st.View()) == files;
  }

  /** Files never take up more than there is. */
  lemma {:induction false} NeverOverfull(s: Store, cs: seq<Call>)
    requires AllFit(cs, |s.files|) && Used(s.files) <= s.capacity
    ensures Used(Answers(s, cs).0.files) <= s.capacity
    decreases |cs|
  {
    if cs != [] {
      AnswerFits(s, cs[0]);
      AnswerSize(s, cs[0]);
      if !Answer(s, cs[0]).1.Panic? {
        assert forall k :: 0 <= k < |cs[1..]| ==> cs[1..][k] == cs[k + 1];
        NeverOverfull(Answer(s, cs[0]).0, cs[1..]);
      }
    }
  }

  lemma AnswerFits(s: Store, c: Call)
    requires c.Fits(|s.files|) && Used(s.files) <= s.capacity
    ensures Used(Answer(s, c).0.files) <= s.capacity
  {
    hide Used;
    match c {
      case Create(typ) =>
        if |s.files| > 0 {
          var k := FirstFree(s.files, 1);
          if k < |s.files| { UsedUpdate(s.files, k, File(typ, 0, [])); }
        }
      case Truncate(i) => UsedUpdate(s.files, i, s.files[i].(data := []));
      case Relink(i, nlink) => UsedUpdate(s.files, i, s.files[i].(nlink := nlink));
      case Drop(i) => UsedUpdate(s.files, i, File(0, 0, []));
      case _ =>
    }
  }
}
