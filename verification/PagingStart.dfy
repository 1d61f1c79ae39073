/** Switching paging on: the kernel's directory and its identity map. */
module PagingStart {
  import opened Common
  import opened Frames
  import opened PageTables
  import opened PageSteps
  import opened PageRuns
  import opened Paging
  import opened KernelStacks
  import SpaceLife

  /** The pages between video memory and the end of the first mebibyte, never cached. */
  predicate IsDevice(p: nat) { 0xA0 <= p < 0x100 }

  /** Page `p` of the kernel's map. */
  function KernelWord(st: Store, p: nat): Word {
    if DirWord(st, KERNEL, p / ENTRIES).present
    then WordAt(st.memory, DirWord(st, KERNEL, p / ENTRIES).frame, p % ENTRIES)
    else NONE
  }

  /** Pages 1 up to `n` map to themselves, read-only where asked; nothing else is mapped. */
  ghost predicate Identity(st: Store, readOnly: set<nat>, n: nat) {
    forall p: nat :: KernelWord(st, p) == IdentityWord(readOnly, n, p)
  }

  function IdentityWord(readOnly: set<nat>, n: nat, p: nat): Word {
    if 1 <= p < n then Word(p, true, p !in readOnly, false, IsDevice(p)) else NONE
  }

  /** Tables for the pages 1 up to `n`. */
  function TablesFor(n: nat): nat { if n <= 1 then 0 else (n - 1) / ENTRIES + 1 }

  /** The state while the map is built: one space, the tables so far, no stacks. */
  ghost predicate Starting(st: Store, owner: map<nat, Use>, order: seq<nat>, n: nat) {
    && Books(st, owner) && order == [] && st.spaces.Keys == {KERNEL}
    && (forall i: nat :: DirWord(st, KERNEL, i).present <==> i < TablesFor(n))
    && |owner| == 1 + TablesFor(n)
  }

  lemma Empty(d: nat, st: Store)
    requires d in st.memory && st.memory[d] == EmptyTable() && st.spaces == map[KERNEL := Space(d, 0, 0, {})]
    ensures Starting(st, map[d := Directory(KERNEL)], [], 1) && forall readOnly :: Identity(st, readOnly, 1)
  {
    var owner: map<nat, Use> := map[d := Directory(KERNEL)];
    assert forall h, i :: DirWord(st, h, i) == NONE;
    forall u: Use
      ensures FrameOf(st, u) == if u == Directory(KERNEL) then Some(d) else None
    {
    }
    assert owner.Keys == {d} && |owner.Keys| == 1;
    assert UsersOf(owner, KERNEL) == {} && TablesOf(owner, KERNEL) == {};
  }

  /** A word of a shared table other than the stacks' is outside the ledger. */
  lemma SharedWrite(st: Store, owner: map<nat, Use>, i: nat, j: nat, w: Word, st': Store)
    requires Books(st, owner) && i < KERNEL_ENTRIES && i != STACK_TABLE && DirWord(st, KERNEL, i).present && j < ENTRIES
    requires st' == st.(memory := PutWord(st.memory, DirWord(st, KERNEL, i).frame, j, w))
    ensures Books(st', owner) && SameDirs(st, st') && (forall l :: StackWord(st', l) == StackWord(st, l))
    ensures forall g, k, l :: UserWord(st', g, k, l) == UserWord(st, g, k, l)
    ensures forall g: nat, l: nat ::
      WordAt(st'.memory, g, l) == if g == DirWord(st, KERNEL, i).frame && l == j then w else WordAt(st.memory, g, l)
  {
    var t := DirWord(st, KERNEL, i).frame;
    assert FrameOf(st, Shared(i)) == Some(t);
    assert KindOk(st.memory, t, owner[t]);
    PutGet(st.memory, t, j, w);
    SharedWords(st, owner, i, j, w, st');
    hide Inverse, Kinds, Formed, Counted, UserWord, DirWord, StackWord;
    forall u: Use ensures FrameOf(st', u) == FrameOf(st, u) { SameFrame(st, st', u); }
    InverseSame(st, owner, st');
    KindsPut(st, owner, t, j, w);
    KindsAll(st', owner);
    StillFormed(st, st', KERNEL);
    CountedSame(st, owner, st');
  }

  lemma SharedWords(st: Store, owner: map<nat, Use>, i: nat, j: nat, w: Word, st': Store)
    requires Books(st, owner) && i < KERNEL_ENTRIES && i != STACK_TABLE && DirWord(st, KERNEL, i).present
    requires st' == st.(memory := PutWord(st.memory, DirWord(st, KERNEL, i).frame, j, w))
    ensures SameDirs(st, st') && (forall l :: StackWord(st', l) == StackWord(st, l))
    ensures forall g, k, l :: UserWord(st', g, k, l) == UserWord(st, g, k, l)
  {
    hide Formed, Counted, Kinds;
    assert FrameOf(st, Shared(i)) == Some(DirWord(st, KERNEL, i).frame);
    forall g, k
      ensures DirWord(st', g, k) == DirWord(st, g, k)
    {
      if g in st.spaces { assert FrameOf(st, Directory(g)).Some?; }
    }
    assert FrameOf(st, Shared(STACK_TABLE)) == Frame(DirWord(st, KERNEL, STACK_TABLE));
    forall g, k, l
      ensures UserWord(st', g, k, l) == UserWord(st, g, k, l)
    {
      if InUser(g, k) && DirWord(st, g, k).present { TableFrame(st, owner, g, k); }
    }
  }

  /** A new table for pages the kernel's map does not cover yet. */
  lemma StartTable(st: Store, owner: map<nat, Use>, i: nat, f: nat, st': Store)
    requires Books(st, owner) && st.spaces.Keys == {KERNEL} && i < STACK_TABLE && DirWord(st, KERNEL, i) == NONE
    requires f !in owner
    requires st' ==
      st.(memory := PutWord(st.memory[f := EmptyTable()], st.spaces[KERNEL].directory, i, Word(f, true, true, false)))
    ensures Books(st', owner[f := Shared(i)])
    ensures forall k: nat ::
      DirWord(st', KERNEL, k) == if k == i then Word(f, true, true, false) else DirWord(st, KERNEL, k)
    ensures forall p: nat :: KernelWord(st', p) == KernelWord(st, p)
  {
    hide Inverse, Kinds, Formed, Counted, UserWord, DirWord, PutWord;
    var filled := st.(memory := st.memory[f := EmptyTable()]);
    FreshBooks(st, owner, f, filled);
    AreTables(filled, owner);
    WrittenNothing(filled.memory, st.spaces, i, Word(f, true, true, false));
    WrittenStep(filled.memory, filled.memory, st.spaces, {}, KERNEL, i, Word(f, true, true, false));
    assert {} + {KERNEL} == st.spaces.Keys;
    hide Written, Directories;
    WrittenPublished(filled, owner, st', i, Word(f, true, true, false));
    assert forall l :: StackWord(st', l) == StackWord(filled, l) by {
      SameStackWords(filled, owner, st', i, Word(f, true, true, false));
    }
    DirectoryFrame(st, owner, KERNEL);
    PutElsewhere(filled.memory, st.spaces[KERNEL].directory, i, Word(f, true, true, false), f);
    AddShared(filled, owner, i, f, st');
    forall p: nat
      ensures KernelWord(st', p) == KernelWord(st, p)
    {
      KernelWordKept(st, owner, i, f, st', p);
    }
  }

  lemma PutElsewhere(memory: map<nat, Page>, d: nat, i: nat, w: Word, f: nat)
    requires f != d && f in memory
    ensures f in PutWord(memory, d, i, w) && PutWord(memory, d, i, w)[f] == memory[f]
  {
  }

  lemma SameStackWords(st: Store, owner: map<nat, Use>, st': Store, i: nat, w: Word)
    requires Books(st, owner) && Published(st, st', i, w) && i < STACK_TABLE
    requires forall f :: f in owner && !owner[f].Directory? ==>
      f in st.memory && f in st'.memory && st'.memory[f] == st.memory[f]
    ensures forall l :: StackWord(st', l) == StackWord(st, l)
  {
    if DirWord(st, KERNEL, STACK_TABLE) != NONE { StackTableFrame(st, owner); }
  }

  lemma KernelWordKept(st: Store, owner: map<nat, Use>, i: nat, f: nat, st': Store, p: nat)
    requires Books(st, owner) && KERNEL in st.spaces && i < STACK_TABLE && DirWord(st, KERNEL, i) == NONE && f !in owner
    requires st' ==
      st.(memory := PutWord(st.memory[f := EmptyTable()], st.spaces[KERNEL].directory, i, Word(f, true, true, false)))
    requires forall k: nat ::
      DirWord(st', KERNEL, k) == if k == i then Word(f, true, true, false) else DirWord(st, KERNEL, k)
    ensures KernelWord(st', p) == KernelWord(st, p)
  {
    DirectoryFrame(st, owner, KERNEL);
    if p / ENTRIES != i && DirWord(st, KERNEL, p / ENTRIES).present {
      SharedFrame(st, owner, p / ENTRIES);
    }
  }

  lemma SharedFrame(st: Store, owner: map<nat, Use>, i: nat)
    requires Books(st, owner) && KERNEL in st.spaces && DirWord(st, KERNEL, i).present
    ensures i < KERNEL_ENTRIES && DirWord(st, KERNEL, i).frame in owner
    ensures owner[DirWord(st, KERNEL, i).frame] == Shared(i)
  {
    assert DirOk(st, KERNEL, i);
    assert FrameOf(st, Shared(i)) == Some(DirWord(st, KERNEL, i).frame);
  }

  /** One more page of the identity map. */
  lemma IdentityStep(st: Store, owner: map<nat, Use>, readOnly: set<nat>, p: nat, st': Store)
    requires Books(st, owner) && KERNEL in st.spaces && Identity(st, readOnly, p) && p >= 1 && p / ENTRIES < STACK_TABLE
    requires DirWord(st, KERNEL, p / ENTRIES).present
    requires SameDirs(st, st')
    requires
      var t := DirWord(st, KERNEL, p / ENTRIES).frame; var w := Word(p, true, p !in readOnly, false, IsDevice(p));
      forall g: nat, l: nat ::
        WordAt(st'.memory, g, l) == if g == t && l == p % ENTRIES then w else WordAt(st.memory, g, l)
    ensures Identity(st', readOnly, p + 1)
  {
    hide Inverse, Kinds, Formed, Counted, DirWord;
    SharedFrame(st, owner, p / ENTRIES);
    forall q: nat
      ensures KernelWord(st', q) == IdentityWord(readOnly, p + 1, q)
    {
      assert KernelWord(st, q) == IdentityWord(readOnly, p, q);
      if DirWord(st, KERNEL, q / ENTRIES).present { SharedFrame(st, owner, q / ENTRIES); }
    }
  }

  /** What the half-built map holds: its frames are recorded and backed. */
  ghost predicate Building(s: AddressSpaces, readOnly: set<nat>, p: nat)
    reads s, s.pmm
  {
    && s.pmm.Valid() && s.pmm.ready && Starting(s.St(), s.owner, s.order, p) && Backed(s.pmm.taken, s.owner)
    && Identity(s.St(), readOnly, p) && |s.pmm.taken| == PAGE_COUNT
  }

  /** Map page `p` to itself, making its table if it is the first there. */
  method MapIdentity(s: AddressSpaces, readOnly: set<nat>, p: nat) returns (ok: bool)
    requires Building(s, readOnly, p) && 1 <= p < PAGE_COUNT
    modifies s`memory, s`owner, s.pmm`taken, s.pmm`free, s.pmm`next
    ensures s.Account() == old(s.Account())
    ensures ok ==> Building(s, readOnly, p + 1)
    ensures !ok ==> Building(s, readOnly, p) && s.pmm.free == 0 && TablesFor(p + 1) == TablesFor(p) + 1
  {
    hide Books, Backed, Identity, PutWord, Foreign;
    var i := p / ENTRIES;
    TablesStep(p);
    AreTables(s.St(), s.owner);
    if !DirWord(s.St(), KERNEL, i).present {
      ok := InstallStartTable(s, readOnly, p, i);
      if !ok { return; }
    }
    ghost var before := s.St();
    var w := Word(p, true, p !in readOnly, false, IsDevice(p));
    s.memory := PutWord(s.memory, DirWord(s.St(), KERNEL, i).frame, p % ENTRIES, w);
    SharedWrite(before, s.owner, i, p % ENTRIES, w, s.St());
    IdentityStep(before, s.owner, readOnly, p, s.St());
    ok := true;
  }

  lemma TablesStep(p: nat)
    requires p >= 1
    ensures TablesFor(p + 1) == p / ENTRIES + 1 && TablesFor(p) <= TablesFor(p + 1) <= TablesFor(p) + 1
    ensures p / ENTRIES < TablesFor(p) <==> TablesFor(p + 1) == TablesFor(p)
  {
  }

  method InstallStartTable(s: AddressSpaces, readOnly: set<nat>, p: nat, i: nat) returns (ok: bool)
    requires Building(s, readOnly, p) && 1 <= p < PAGE_COUNT && i == p / ENTRIES && !DirWord(s.St(), KERNEL, i).present
    modifies s`memory, s`owner, s.pmm`taken, s.pmm`free, s.pmm`next
    ensures s.Account() == old(s.Account()) && s.pmm.Valid() && Backed(s.pmm.taken, s.owner)
    ensures |s.pmm.taken| == PAGE_COUNT && Identity(s.St(), readOnly, p)
    ensures ok <==> old(s.pmm.free) > 0
    ensures ok ==> Starting(s.St(), s.owner, s.order, p + 1)
    ensures !ok ==> Building(s, readOnly, p) && s.pmm.free == 0
  {
    hide Books, Backed, Foreign, PutWord, Identity;
    AreTables(s.St(), s.owner);
    BooksDir(s.St(), s.owner, KERNEL, i);
    TablesStep(p);
    var f := s.TakeFrame();
    if f == 0 { return false; }
    s.memory := s.memory[f := EmptyTable()];
    s.memory := PutWord(s.memory, s.spaces[KERNEL].directory, i, Word(f, true, true, false));
    StartTable(old(s.St()), s.owner, i, f, s.St());
    ForeignGained(old(s.pmm.taken), s.owner, f, Shared(i));
    SameIdentity(old(s.St()), s.St(), readOnly, p);
    s.owner := s.owner[f := Shared(i)];
    ok := true;
  }

  lemma SameIdentity(st: Store, st': Store, readOnly: set<nat>, p: nat)
    requires Identity(st, readOnly, p) && forall q: nat :: KernelWord(st', q) == KernelWord(st, q)
    ensures Identity(st', readOnly, p)
  {
    hide KernelWord;
  }

  ghost function SharedBelow(owner: map<nat, Use>, i: nat): set<nat> {
    set f | f in owner && owner[f].Shared? && owner[f].index < i
  }

  lemma SharedStep(st: Store, owner: map<nat, Use>, i: nat)
    requires Books(st, owner)
    ensures var w := DirWord(st, KERNEL, i);
      if w.present then w.frame in owner && w.frame !in SharedBelow(owner, i) &&
        SharedBelow(owner, i + 1) == SharedBelow(owner, i) + {w.frame}
                                             else SharedBelow(owner, i + 1) == SharedBelow(owner, i)
  {
    hide Kinds, Formed, Counted, DirWord;
    AreTables(st, owner);
    if DirWord(st, KERNEL, i).present { SharedFrame(st, owner, i); }
    forall f | f in owner && owner[f] == Shared(i)
      ensures DirWord(st, KERNEL, i).present && f == DirWord(st, KERNEL, i).frame
    {
      assert FrameOf(st, owner[f]) == Some(f);
    }
  }

  /** With one space and no stacks, the ledger is its directory and the shared tables. */
  lemma OnlyShared(st: Store, owner: map<nat, Use>, order: seq<nat>, n: nat)
    requires Starting(st, owner, order, n) && n <= PAGE_COUNT
    ensures owner.Keys == SharedBelow(owner, ENTRIES) + {st.spaces[KERNEL].directory}
    ensures st.spaces[KERNEL].directory !in SharedBelow(owner, ENTRIES)
  {
    DirectoryFrame(st, owner, KERNEL);
    forall f | f in owner
      ensures f == st.spaces[KERNEL].directory || (owner[f].Shared? && owner[f].index < ENTRIES)
    {
      assert FrameOf(st, owner[f]) == Some(f);
    }
  }

  /** Give everything back: the tables, then the directory. */
  method Abandon(s: AddressSpaces, readOnly: set<nat>, p: nat)
    requires Building(s, readOnly, p) && p <= PAGE_COUNT
    modifies s.pmm`taken, s.pmm`free, s.pmm`next
    ensures s.pmm.Valid() && SpaceLife.Cleared(old(s.pmm.taken), s.pmm.taken, s.owner.Keys)
  {
    hide Books, Backed, Identity, SpaceLife.Cleared, DirWord, SharedBelow;
    AreTables(s.St(), s.owner);
    SpaceLife.ClearedNone(s.pmm.taken);
    assert SharedBelow(s.owner, 0) == {} by { NoneShared(s.owner); }
    for i := 0 to ENTRIES
      invariant s.pmm.Valid() && SpaceLife.Cleared(old(s.pmm.taken), s.pmm.taken, SharedBelow(s.owner, i))
    {
      SharedStep(s.St(), s.owner, i);
      if DirWord(s.St(), KERNEL, i).present {
        var f := DirWord(s.St(), KERNEL, i).frame;
        SpaceLife.StillTaken(old(s.pmm.taken), s.pmm.taken, SharedBelow(s.owner, i), s.owner, f);
        SpaceLife.ClearedStep(old(s.pmm.taken), s.pmm.taken, SharedBelow(s.owner, i), f);
        s.ReturnFrame(f);
      }
    }
    OnlyShared(s.St(), s.owner, s.order, p);
    var d := s.spaces[KERNEL].directory;
    SpaceLife.StillTaken(old(s.pmm.taken), s.pmm.taken, SharedBelow(s.owner, ENTRIES), s.owner, d);
    SpaceLife.ClearedStep(old(s.pmm.taken), s.pmm.taken, SharedBelow(s.owner, ENTRIES), d);
    s.ReturnFrame(d);
  }

  lemma NoneShared(owner: map<nat, Use>)
    ensures SharedBelow(owner, 0) == {}
  {
  }

  /** Frames recorded for a map that was given up go back to where they were. */
  lemma AbandonedTaken(taken0: seq<bool>, taken: seq<bool>, taken': seq<bool>, owner: map<nat, Use>)
    requires |taken| == |taken0| && Foreign(taken, owner) == Foreign(taken0, map[])
    requires SpaceLife.Cleared(taken, taken', owner.Keys)
    ensures taken' == taken0
  {
    forall p | 0 <= p < |taken0|
      ensures taken'[p] == taken0[p]
    {
      assert p in Foreign(taken, owner) <==> p in Foreign(taken0, map[]);
    }
  }

  /** Switch paging on with the identity map in place; fails exactly when it is on already
      (`paged` is the processor's own flag), when there is no memory, or when the frames do
      not suffice, and then takes none. */
  method Initialize(s: AddressSpaces, readOnly: set<nat>, paged: bool) returns (ok: bool)
    requires s.Valid() && (!s.enabled ==> s.owner == map[])
    modifies s`enabled, s`memory, s`spaces, s`order, s`active, s`owner, s.pmm`taken, s.pmm`free, s.pmm`next
    ensures s.Valid() && s.enabled == (ok || old(s.enabled))
    ensures ok <==>
      !old(s.enabled) && !paged && s.pmm.ready && s.pmm.limit > 0 && 1 + TablesFor(s.pmm.limit) <= old(s.pmm.free)
    ensures ok ==>
      Identity(s.St(), readOnly, s.pmm.limit) && StacksOk(s.St()) && s.Account() == old(s.Account()) &&
      s.active == KERNEL && s.order == []
    ensures !ok ==>
      s.pmm.taken == old(s.pmm.taken) && (old(s.enabled) ==> s.St() == old(s.St()) && s.owner == old(s.owner))
  {
    hide Books, Backed, Identity, Foreign, StacksOk, NoneEmpty, Enrolled, Starting;
    if s.enabled || paged || !s.pmm.ready || s.pmm.limit == 0 { return false; }
    ok := OpenDirectory(s, readOnly);
    if !ok { return; }
    StartedCount(s.St(), s.owner, s.order, 1);
    ok := BuildMap(s, readOnly, old(s.pmm.taken));
    if !ok {
      s.memory, s.spaces, s.owner := map[], map[], map[];
      return;
    }
    StartedCount(s.St(), s.owner, s.order, s.pmm.limit);
    Started(s.St(), s.owner, s.order, s.pmm.limit);
    s.enabled := true;
  }

  method OpenDirectory(s: AddressSpaces, readOnly: set<nat>) returns (ok: bool)
    requires s.pmm.Valid() && s.pmm.ready && s.owner == map[]
    modifies s`memory, s`spaces, s`order, s`active, s`owner, s.pmm`taken, s.pmm`free, s.pmm`next
    ensures s.pmm.Valid() && (ok <==> old(s.pmm.free) > 0)
    ensures ok ==> Building(s, readOnly, 1) && s.Account() == old(s.Account()) && s.order == [] && s.active == KERNEL
    ensures !ok ==> s.pmm.taken == old(s.pmm.taken) && s.owner == map[]
  {
    hide Books, Backed, Identity, Foreign, Starting;
    NothingBacked(s.pmm.taken);
    var d := s.TakeFrame();
    if d == 0 { return false; }
    s.memory := s.memory[d := EmptyTable()];
    s.spaces, s.order, s.active := map[KERNEL := Space(d, 0, 0, {})], [], KERNEL;
    ForeignGained(old(s.pmm.taken), s.owner, d, Directory(KERNEL));
    s.owner := s.owner[d := Directory(KERNEL)];
    Empty(d, s.St());
    ok := true;
  }

  /** Map every page, or give all frames back. */
  method BuildMap(s: AddressSpaces, readOnly: set<nat>, ghost taken0: seq<bool>) returns (ok: bool)
    requires Building(s, readOnly, 1) && 0 < s.pmm.limit && |taken0| == PAGE_COUNT
    requires Foreign(s.pmm.taken, s.owner) == Foreign(taken0, map[])
    modifies s`memory, s`owner, s.pmm`taken, s.pmm`free, s.pmm`next
    ensures s.pmm.Valid()
    ensures ok <==> TablesFor(s.pmm.limit) <= old(s.pmm.free)
    ensures ok ==> Building(s, readOnly, s.pmm.limit) && s.Account() == old(s.Account())
    ensures !ok ==> s.pmm.taken == taken0
  {
    hide Books, Backed, Identity, Foreign, Starting, SpaceLife.Cleared, TablesFor;
    StartedCount(s.St(), s.owner, s.order, 1);
    var p := 1;
    while p < s.pmm.limit
      invariant 1 <= p <= s.pmm.limit && Building(s, readOnly, p) && s.Account() == old(s.Account())
    {
      StartedCount(s.St(), s.owner, s.order, p);
      var mapped := MapIdentity(s, readOnly, p);
      if !mapped {
        TablesMonotone(p + 1, s.pmm.limit);
        ghost var taken := s.pmm.taken;
        StartedCount(s.St(), s.owner, s.order, p);
        Abandon(s, readOnly, p);
        AbandonedTaken(taken0, taken, s.pmm.taken, s.owner);
        return false;
      }
      p := p + 1;
    }
    StartedCount(s.St(), s.owner, s.order, p);
    ok := true;
  }

  lemma StartedCount(st: Store, owner: map<nat, Use>, order: seq<nat>, n: nat)
    requires Starting(st, owner, order, n)
    ensures |owner| == 1 + TablesFor(n) && Books(st, owner) && order == [] && st.spaces.Keys == {KERNEL}
    ensures TablesFor(1) == 0
  {
  }

  lemma NothingBacked(taken: seq<bool>)
    ensures Backed(taken, map[])
  {
  }

  lemma TablesMonotone(a: nat, b: nat)
    requires a <= b
    ensures TablesFor(a) <= TablesFor(b)
  {
  }

  lemma Started(st: Store, owner: map<nat, Use>, order: seq<nat>, n: nat)
    requires Starting(st, owner, order, n) && n <= PAGE_COUNT
    ensures NoneEmpty(st) && Enrolled(st.spaces, order) && StacksOk(st) && KERNEL in st.spaces
  {
    NoTableNoStacks(st, owner);
    assert !DirWord(st, KERNEL, STACK_TABLE).present;
    assert forall slot :: 0 <= slot < STACK_SLOTS ==> SlotClear(st, slot);
  }
}
