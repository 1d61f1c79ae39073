/** Page directories and tables as they lie in physical frames, and the ledger that
    says which frame serves which purpose. */
module PageTables {
  import opened Common
  import opened Frames
  import Disk

  const ENTRIES := 1024
  const KERNEL_ENTRIES := 512 // directory entries every space shares with the kernel
  const USER_ENTRIES := 768
  const STACK_TABLE := 511    // the directory entry of the kernel stack window
  const KERNEL := 0           // the handle of the kernel's own space

  /** A directory or table entry, without the accessed and dirty bits. */
  datatype Word = Word(frame: nat, present: bool, writable: bool, user: bool, uncached: bool := false)

  /** A table or page of the kernel's: writable, not for the user, cached. */
  predicate IsKernel(w: Word) { w.present && w.writable && !w.user && !w.uncached }

  /** A private table. */
  predicate IsUserTable(w: Word) { w.present && w.writable && w.user && !w.uncached }

  /** A user page, writable or not. */
  predicate IsUser(w: Word) { w.present && w.user && !w.uncached }

  const NONE := Word(0, false, false, false)

  /** What a physical frame holds. */
  datatype Page = Table(words: seq<Word>) | Bytes(data: seq<Disk.byte>)

  /** `owned` is the bitmap of private tables, as directory indices. */
  datatype Space = Space(directory: nat, pages: nat, tables: nat, owned: set<nat>)

  datatype Store = Store(memory: map<nat, Page>, spaces: map<nat, Space>)

  /** What a frame is used for. */
  datatype Use =
    | Directory(space: nat)
    | Shared(index: nat)
    | Private(space: nat, index: nat)
    | User(space: nat, index: nat, entry: nat)
    | Stack(entry: nat)

  function WordAt(memory: map<nat, Page>, f: nat, k: nat): Word {
    if f in memory && memory[f].Table? && k < |memory[f].words| then memory[f].words[k] else NONE
  }

  function PutWord(memory: map<nat, Page>, f: nat, k: nat, w: Word): map<nat, Page> {
    if f in memory && memory[f].Table? && k < |memory[f].words| then memory[f := Table(memory[f].words[k := w])]
    else memory
  }

  function DirWord(st: Store, h: nat, i: nat): Word {
    if h in st.spaces then WordAt(st.memory, st.spaces[h].directory, i) else NONE
  }

  predicate InUser(h: nat, i: nat) { h != KERNEL && KERNEL_ENTRIES <= i < USER_ENTRIES }

  function UserWord(st: Store, h: nat, i: nat, j: nat): Word {
    if InUser(h, i) && DirWord(st, h, i).present then WordAt(st.memory, DirWord(st, h, i).frame, j) else NONE
  }

  function StackWord(st: Store, j: nat): Word {
    if DirWord(st, KERNEL, STACK_TABLE).present then WordAt(st.memory, DirWord(st, KERNEL, STACK_TABLE).frame, j)
    else NONE
  }

  function Frame(w: Word): Option<nat> { if w.present then Some(w.frame) else None }

  /** The frame serving a purpose, read off the tables themselves. */
  function FrameOf(st: Store, u: Use): Option<nat> {
    match u
    case Directory(h) => if h in st.spaces then Some(st.spaces[h].directory) else None
    case Shared(i) => if i < KERNEL_ENTRIES then Frame(DirWord(st, KERNEL, i)) else None
    case Private(h, i) => if InUser(h, i) then Frame(DirWord(st, h, i)) else None
    case User(h, i, j) => Frame(UserWord(st, h, i, j))
    case Stack(j) => Frame(StackWord(st, j))
  }

  /** `owner` is the inverse of `FrameOf`: every purpose has its own frame and every
      recorded frame serves the recorded purpose. */
  ghost predicate Inverse(st: Store, owner: map<nat, Use>) {
    && (forall u: Use :: FrameOf(st, u).Some? ==> FrameOf(st, u).value in owner && owner[FrameOf(st, u).value] == u)
    && (forall f :: f in owner ==> FrameOf(st, owner[f]) == Some(f))
  }

  predicate Data(u: Use) { u.User? || u.Stack? }

  ghost predicate Kinds(st: Store, owner: map<nat, Use>) {
    forall f :: f in owner ==> KindOk(st.memory, f, owner[f])
  }

  predicate KindOk(memory: map<nat, Page>, f: nat, u: Use) {
    && f in memory
    && if Data(u) then memory[f].Bytes? && |memory[f].data| == PAGE
       else memory[f].Table? && |memory[f].words| == ENTRIES
  }

  /** A directory entry agrees with the kernel's below the user half, and with the
      space's bitmap in it. */
  predicate DirOk(st: Store, h: nat, i: nat)
    requires h in st.spaces
  {
    var w := DirWord(st, h, i);
    if i < KERNEL_ENTRIES then w == DirWord(st, KERNEL, i) && (w == NONE || IsKernel(w))
    else if i in st.spaces[h].owned then IsUserTable(w)
    else w == NONE
  }

  ghost predicate Formed(st: Store) {
    && KERNEL in st.spaces && st.spaces[KERNEL].owned == {}
    && (forall h, i: nat :: h in st.spaces ==> DirOk(st, h, i))
    && (forall h, i :: h in st.spaces && i in st.spaces[h].owned ==> InUser(h, i))
    && (forall h, i, j :: UserWord(st, h, i, j) == NONE || IsUser(UserWord(st, h, i, j)))
    && (forall j :: StackWord(st, j) == NONE || IsKernel(StackWord(st, j)))
  }

  ghost function UsersOf(owner: map<nat, Use>, h: nat): set<nat> {
    set f | f in owner && owner[f].User? && owner[f].space == h
  }

  ghost function TablesOf(owner: map<nat, Use>, h: nat): set<nat> {
    set f | f in owner && owner[f].Private? && owner[f].space == h
  }

  /** The counters say how many frames the ledger records. */
  ghost predicate Counted(st: Store, owner: map<nat, Use>) {
    forall h :: h in st.spaces ==>
      st.spaces[h].pages == |UsersOf(owner, h)| && st.spaces[h].tables == |TablesOf(owner, h)|
  }

  ghost predicate Books(st: Store, owner: map<nat, Use>) {
    Inverse(st, owner) && Kinds(st, owner) && Formed(st) && Counted(st, owner)
  }

  ghost predicate TableEmpty(st: Store, h: nat, i: nat) {
    forall j: nat :: j < ENTRIES ==> !UserWord(st, h, i, j).present
  }

  ghost predicate NoneEmpty(st: Store) {
    forall h, i :: h in st.spaces && i in st.spaces[h].owned ==> !TableEmpty(st, h, i)
  }

  /** Allocated frames that the ledger does not account for. */
  ghost function Foreign(taken: seq<bool>, owner: map<nat, Use>): set<nat> {
    set p: nat | p < |taken| && taken[p] && p !in owner
  }

  ghost predicate Backed(taken: seq<bool>, owner: map<nat, Use>) {
    forall f :: f in owner ==> f < |taken| && taken[f]
  }

  // ----- Writing one word -----------------------------------------------------------------

  lemma PutGet(memory: map<nat, Page>, f: nat, k: nat, w: Word)
    requires f in memory && memory[f].Table? && k < |memory[f].words|
    ensures forall g, l ::
      WordAt(PutWord(memory, f, k, w), g, l) == if g == f && l == k then w else WordAt(memory, g, l)
  {
  }

  /** Directories and words outside one table are as they were. */
  ghost predicate SameDirs(st: Store, st': Store) {
    && st'.spaces.Keys == st.spaces.Keys
    && (forall h :: h in st.spaces ==> st'.spaces[h].directory == st.spaces[h].directory)
    && (forall h, i :: DirWord(st', h, i) == DirWord(st, h, i))
  }

  /** A write to a private table changes the one user word it is for. */
  lemma UserWrite(st: Store, owner: map<nat, Use>, h: nat, i: nat, j: nat, w: Word)
    requires Inverse(st, owner) && Kinds(st, owner) && FrameOf(st, Private(h, i)).Some? && j < ENTRIES
    ensures var st' := st.(memory := PutWord(st.memory, DirWord(st, h, i).frame, j, w));
      && SameDirs(st, st') && (forall k :: StackWord(st', k) == StackWord(st, k))
      && (forall g, k, l :: UserWord(st', g, k, l) == if g == h && k == i && l == j then w else UserWord(st, g, k, l))
  {
    var t := DirWord(st, h, i).frame;
    assert owner[t] == Private(h, i);
    var st' := st.(memory := PutWord(st.memory, t, j, w));
    PutGet(st.memory, t, j, w);
    forall g, k
      ensures DirWord(st', g, k) == DirWord(st, g, k)
    {
      if g in st.spaces { assert FrameOf(st, Directory(g)).Some?; }
    }
    assert FrameOf(st, Shared(STACK_TABLE)) == Frame(DirWord(st, KERNEL, STACK_TABLE));
    forall g, k, l
      ensures UserWord(st', g, k, l) == if g == h && k == i && l == j then w else UserWord(st, g, k, l)
    {
      assert FrameOf(st, Private(g, k)) == if InUser(g, k) then Frame(DirWord(st, g, k)) else None;
    }
  }

  /** A write to a shared table reaches no user word. */
  lemma StackWrite(st: Store, owner: map<nat, Use>, j: nat, w: Word)
    requires Inverse(st, owner) && Kinds(st, owner) && FrameOf(st, Shared(STACK_TABLE)).Some? && j < ENTRIES
    ensures var st' := st.(memory := PutWord(st.memory, DirWord(st, KERNEL, STACK_TABLE).frame, j, w));
      && SameDirs(st, st') && (forall g, k, l :: UserWord(st', g, k, l) == UserWord(st, g, k, l))
      && (forall l :: StackWord(st', l) == if l == j then w else StackWord(st, l))
  {
    var t := DirWord(st, KERNEL, STACK_TABLE).frame;
    assert owner[t] == Shared(STACK_TABLE);
    var st' := st.(memory := PutWord(st.memory, t, j, w));
    PutGet(st.memory, t, j, w);
    forall g, k
      ensures DirWord(st', g, k) == DirWord(st, g, k)
    {
      if g in st.spaces { assert FrameOf(st, Directory(g)).Some?; }
    }
    forall g, k, l
      ensures UserWord(st', g, k, l) == UserWord(st, g, k, l)
    {
      assert FrameOf(st, Private(g, k)) == if InUser(g, k) then Frame(DirWord(st, g, k)) else None;
    }
  }

  /** A write to a directory changes that one directory entry, and no table. */
  lemma DirWrite(st: Store, owner: map<nat, Use>, h: nat, i: nat, w: Word)
    requires Inverse(st, owner) && Kinds(st, owner) && h in st.spaces && i < ENTRIES
    ensures var st' := st.(memory := PutWord(st.memory, st.spaces[h].directory, i, w));
      && (forall g, k :: DirWord(st', g, k) == if g == h && k == i then w else DirWord(st, g, k))
      && (forall f, k :: f in owner && owner[f] != Directory(h) ==> WordAt(st'.memory, f, k) == WordAt(st.memory, f, k))
  {
    var t := st.spaces[h].directory;
    assert FrameOf(st, Directory(h)) == Some(t);
    PutGet(st.memory, t, i, w);
    var st' := st.(memory := PutWord(st.memory, t, i, w));
    forall g, k
      ensures DirWord(st', g, k) == if g == h && k == i then w else DirWord(st, g, k)
    {
      if g in st.spaces { assert FrameOf(st, Directory(g)) == Some(st.spaces[g].directory); }
    }
  }

  /** Filling a frame the ledger does not know changes nothing it does. */
  lemma FreshFrame(st: Store, owner: map<nat, Use>, f: nat, page: Page)
    requires Inverse(st, owner) && Kinds(st, owner) && f !in owner
    ensures var st' := st.(memory := st.memory[f := page]);
      && SameDirs(st, st') && (forall l :: StackWord(st', l) == StackWord(st, l))
      && (forall g, k, l :: UserWord(st', g, k, l) == UserWord(st, g, k, l))
  {
    var st' := st.(memory := st.memory[f := page]);
    forall g, k
      ensures DirWord(st', g, k) == DirWord(st, g, k)
    {
      if g in st.spaces { assert FrameOf(st, Directory(g)).Some?; }
    }
    assert FrameOf(st, Shared(STACK_TABLE)) == Frame(DirWord(st, KERNEL, STACK_TABLE));
    forall g, k, l
      ensures UserWord(st', g, k, l) == UserWord(st, g, k, l)
    {
      assert FrameOf(st, Private(g, k)) == if InUser(g, k) then Frame(DirWord(st, g, k)) else None;
    }
  }

  // ----- One purpose gained or lost ----------------------------------------------------------

  /** `u` gains the unrecorded frame `f`; nothing else changes its frame. */
  lemma Gained(st: Store, owner: map<nat, Use>, st': Store, u: Use, f: nat)
    requires Inverse(st, owner) && f !in owner && FrameOf(st, u).None? && FrameOf(st', u) == Some(f)
    requires forall v: Use :: v != u ==> FrameOf(st', v) == FrameOf(st, v)
    ensures Inverse(st', owner[f := u])
  {
  }

  lemma Lost(st: Store, owner: map<nat, Use>, st': Store, u: Use, f: nat)
    requires Inverse(st, owner) && FrameOf(st, u) == Some(f) && FrameOf(st', u).None?
    requires forall v: Use :: v != u ==> FrameOf(st', v) == FrameOf(st, v)
    ensures Inverse(st', owner - {f})
  {
  }

  lemma GainedCounts(owner: map<nat, Use>, f: nat, u: Use, h: nat)
    requires f !in owner
    ensures |UsersOf(owner[f := u], h)| == |UsersOf(owner, h)| + if u.User? && u.space == h then 1 else 0
    ensures |TablesOf(owner[f := u], h)| == |TablesOf(owner, h)| + if u.Private? && u.space == h then 1 else 0
  {
    GainedUsers(owner, f, u, h);
    GainedTables(owner, f, u, h);
    hide UsersOf, TablesOf;
  }

  lemma GainedUsers(owner: map<nat, Use>, f: nat, u: Use, h: nat)
    requires f !in owner
    ensures f !in UsersOf(owner, h) && UsersOf(owner[f := u], h) ==
      if u.User? && u.space == h then UsersOf(owner, h) + {f} else UsersOf(owner, h)
  {
  }

  lemma GainedTables(owner: map<nat, Use>, f: nat, u: Use, h: nat)
    requires f !in owner
    ensures f !in TablesOf(owner, h) && TablesOf(owner[f := u], h) ==
      if u.Private? && u.space == h then TablesOf(owner, h) + {f} else TablesOf(owner, h)
  {
  }

  lemma LostCounts(owner: map<nat, Use>, f: nat, h: nat)
    requires f in owner
    ensures |UsersOf(owner, h)| == |UsersOf(owner - {f}, h)| + if owner[f].User? && owner[f].space == h then 1 else 0
    ensures
      |TablesOf(owner, h)| == |TablesOf(owner - {f}, h)| + if owner[f].Private? && owner[f].space == h then 1 else 0
  {
    assert (owner - {f})[f := owner[f]] == owner;
    GainedCounts(owner - {f}, f, owner[f], h);
  }
}
