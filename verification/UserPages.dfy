/** Releasing and protecting runs of user pages. */
module UserPages {
  import opened Common
  import opened Frames
  import opened PageTables
  import opened PageSteps
  import opened PageRuns
  import opened Paging

  /** The legal target of a release or a protection change: a run of mapped pages of a
      registered process space. */
  ghost predicate Releasable(s: AddressSpaces, h: nat, virtual: nat, pages: nat)
    reads s
  {
    && s.enabled && UserRange(virtual, pages) && h in s.spaces && h != KERNEL
    && RunMapped(s.St(), h, virtual / PAGE, pages)
  }

  ghost function PagesAt(owner: map<nat, Use>, h: nat, first: nat, n: nat): set<nat> {
    set f | f in owner && owner[f].User? && owner[f].space == h && Window(first, 0, n, owner[f].index, owner[f].entry)
  }

  /** The first `n` pages of the run are gone with their frames; nothing else changed. */
  ghost predicate Behind(st0: Store, owner0: map<nat, Use>, st: Store, owner: map<nat, Use>, h: nat, first: nat,
                         n: nat) {
    && OnlyPages(st0, st, h) && h in st0.spaces && SameDirs(st0, st)
    && (forall g, k, l ::
          UserWord(st, g, k, l) == if g == h && Window(first, 0, n, k, l) then NONE else UserWord(st0, g, k, l))
    && (forall l :: StackWord(st, l) == StackWord(st0, l))
    && owner == owner0 - PagesAt(owner0, h, first, n)
    && (forall f :: f in owner && (Data(owner[f]) || owner[f].Shared?) && f in st0.memory ==>
          f in st.memory && st.memory[f] == st0.memory[f])
  }

  lemma BehindStart(st: Store, owner: map<nat, Use>, h: nat, first: nat)
    requires h in st.spaces
    ensures Behind(st, owner, st, owner, h, first, 0)
  {
    assert owner - PagesAt(owner, h, first, 0) == owner;
  }

  lemma BehindStep(st0: Store, owner0: map<nat, Use>, st: Store, owner: map<nat, Use>, st': Store,
                   owner': map<nat, Use>, h: nat, first: nat, n: nat, i: nat, j: nat)
    requires Books(st0, owner0) && Books(st, owner) && Behind(st0, owner0, st, owner, h, first, n)
    requires i == (first + n) / ENTRIES && j == (first + n) % ENTRIES && UserWord(st, h, i, j).present
    requires PageUnmapped(st, owner, st', owner', h, i, j)
    ensures Behind(st0, owner0, st', owner', h, first, n + 1)
  {
    hide Inverse, Kinds, Formed, Counted, UserWord, DirWord, StackWord;
    LastOfWindow(first, n, i, j);
    UserFrame(st, owner, h, i, j);
    OwnedTable(st, owner, h, i);
    var f := UserWord(st, h, i, j).frame;
    forall g | g in owner0 && owner0[g] == User(h, i, j)
      ensures g == f
    {
      PageAlone(st0, owner0, h, i, j, g, f);
    }
    assert PagesAt(owner0, h, first, n + 1) == PagesAt(owner0, h, first, n) + {f};
    assert owner' == owner0 - PagesAt(owner0, h, first, n + 1);
  }

  lemma PageAlone(st: Store, owner: map<nat, Use>, h: nat, i: nat, j: nat, f: nat, g: nat)
    requires Inverse(st, owner) && f in owner && g in owner && owner[f] == owner[g] == User(h, i, j)
    ensures f == g
  {
    assert FrameOf(st, owner[f]) == Some(f) && FrameOf(st, owner[g]) == Some(g);
  }

  /** Whether every page of the run is mapped. */
  method IsRunMapped(s: AddressSpaces, h: nat, first: nat, pages: nat) returns (ok: bool)
    requires s.Sound() && h in s.spaces && h != KERNEL && KERNEL_ENTRIES * ENTRIES <= first
    requires first + pages <= USER_ENTRIES * ENTRIES
    ensures ok <==> RunMapped(s.St(), h, first, pages)
  {
    hide Books, Enrolled, UserWord;
    for n := 0 to pages
      invariant RunMapped(s.St(), h, first, n)
    {
      var i, j := (first + n) / ENTRIES, (first + n) % ENTRIES;
      EntryIsWord(s.St(), s.owner, h, i, j);
      if !UserEntry(s.St(), h, i, j).present {
        assert Window(first, 0, pages, i, j);
        return false;
      }
      LastOfWindow(first, n, i, j);
    }
    ok := true;
  }

  /** The entry a user address resolves to, checking the table on the way. */
  function UserEntry(st: Store, h: nat, i: nat, j: nat): Word {
    if h !in st.spaces || i !in st.spaces[h].owned then NONE
    else
      var d := DirWord(st, h, i);
      if !IsUserTable(d) then NONE
      else var w := WordAt(st.memory, d.frame, j); if w.present && w.user then w else NONE
  }

  lemma EntryIsWord(st: Store, owner: map<nat, Use>, h: nat, i: nat, j: nat)
    requires Books(st, owner) && h in st.spaces
    ensures UserEntry(st, h, i, j) == UserWord(st, h, i, j)
  {
    assert DirOk(st, h, i);
  }

  /** What a release leaves: the pages unmapped, and no table empty. */
  ghost predicate Released(st0: Store, owner0: map<nat, Use>, st: Store, owner: map<nat, Use>, h: nat, first: nat,
                           n: nat) {
    && st.spaces.Keys == st0.spaces.Keys && (forall g :: g in st0.spaces && g != h ==> st.spaces[g] == st0.spaces[g])
    && (forall g, k, l ::
          UserWord(st, g, k, l) == if g == h && Window(first, 0, n, k, l) then NONE else UserWord(st0, g, k, l))
    && (forall l :: StackWord(st, l) == StackWord(st0, l))
    && (forall f :: f in owner ==> f in owner0 && owner0[f] == owner[f])
    && (forall f :: f in owner0 && f !in owner ==> (owner0[f].User? || owner0[f].Private?) && owner0[f].space == h)
    && (forall f :: f in owner && Data(owner[f]) && f in st0.memory ==> f in st.memory && st.memory[f] == st0.memory[f])
  }

  /** Unmap the run, returning its frames and every table it leaves empty. */
  method UserRelease(s: AddressSpaces, h: nat, virtual: nat, pages: nat) returns (ok: bool)
    requires s.Valid()
    modifies s`memory, s`spaces, s`owner, s.pmm`taken, s.pmm`free, s.pmm`next
    ensures s.Valid() && s.Account() == old(s.Account())
    ensures ok <==> old(Releasable(s, h, virtual, pages))
    ensures !ok ==> s.St() == old(s.St()) && s.owner == old(s.owner) && s.pmm.taken == old(s.pmm.taken)
    ensures ok ==> Released(old(s.St()), old(s.owner), s.St(), s.owner, h, virtual / PAGE, pages)
  {
    hide Books, Enrolled, Foreign, Backed, Behind, Released, NoneEmpty, Reclaimed, RunMapped;
    if !UserRange(virtual, pages) || !s.enabled || h !in s.spaces || h == KERNEL { return false; }
    var first := virtual / PAGE;
    RangeInUser(virtual, pages);
    ok := IsRunMapped(s, h, first, pages);
    if !ok { return; }
    BehindStart(s.St(), s.owner, h, first);
    for n := 0 to pages
      invariant s.Sound() && s.Account() == old(s.Account()) && h in s.spaces
      invariant Behind(old(s.St()), old(s.owner), s.St(), s.owner, h, first, n)
    {
      var i, j := (first + n) / ENTRIES, (first + n) % ENTRIES;
      StillMapped(old(s.St()), old(s.owner), s.St(), s.owner, h, first, n, pages);
      ghost var before, ledger := s.St(), s.owner;
      s.UnmapPage(h, i, j);
      BehindStep(old(s.St()), old(s.owner), before, ledger, s.St(), s.owner, h, first, n, i, j);
    }
    ghost var before, ledger := s.St(), s.owner;
    var from, to := first / ENTRIES, (first + pages - 1) / ENTRIES + 1;
    s.ReclaimTables(h, from, to);
    BehindElsewhere(old(s.St()), old(s.owner), before, ledger, h, first, pages);
    NoneEmptyReclaimed(before, ledger, s.St(), s.owner, h, from, to);
    BehindReclaimed(old(s.St()), old(s.owner), before, ledger, s.St(), s.owner, h, first, pages,
                    Empties(before, h, from, to));
  }

  lemma StillMapped(st0: Store, owner0: map<nat, Use>, st: Store, owner: map<nat, Use>, h: nat, first: nat, n: nat,
                    pages: nat)
    requires Behind(st0, owner0, st, owner, h, first, n) && RunMapped(st0, h, first, pages) && n < pages
    ensures UserWord(st, h, (first + n) / ENTRIES, (first + n) % ENTRIES).present
  {
    hide UserWord;
    var i, j := (first + n) / ENTRIES, (first + n) % ENTRIES;
    assert Window(first, 0, pages, i, j) && !Window(first, 0, n, i, j);
    assert UserWord(st0, h, i, j).present;
  }

  /** Tables outside the run's range keep their pages. */
  lemma BehindElsewhere(st0: Store, owner0: map<nat, Use>, st: Store, owner: map<nat, Use>, h: nat, first: nat,
                        pages: nat)
    requires NoneEmpty(st0) && Behind(st0, owner0, st, owner, h, first, pages) && pages > 0
    ensures forall g, i ::
      g in st.spaces && i in st.spaces[g].owned &&
      !(g == h && first / ENTRIES <= i < (first + pages - 1) / ENTRIES + 1) ==>
        !TableEmpty(st, g, i)
  {
    hide UserWord, DirWord, StackWord;
    forall g, i | g in st.spaces && i in st.spaces[g].owned &&
      !(g == h && first / ENTRIES <= i < (first + pages - 1) / ENTRIES + 1)
      ensures !TableEmpty(st, g, i)
    {
      assert !TableEmpty(st0, g, i);
      var j: nat :| j < ENTRIES && UserWord(st0, g, i, j).present;
      assert !(g == h && Window(first, 0, pages, i, j));
      assert UserWord(st, g, i, j).present;
    }
  }

  lemma BehindReclaimed(st0: Store, owner0: map<nat, Use>, st: Store, owner: map<nat, Use>, st': Store,
                        owner': map<nat, Use>, h: nat, first: nat, n: nat, gone: set<nat>)
    requires Behind(st0, owner0, st, owner, h, first, n) && Reclaimed(st, owner, st', owner', h, gone)
    ensures Released(st0, owner0, st', owner', h, first, n)
  {
    hide UserWord, DirWord, StackWord;
  }

  // ----- Protection ------------------------------------------------------------------------------

  /** The first `n` pages of the run took the write permission; nothing else changed. */
  ghost predicate Protected(st0: Store, owner: map<nat, Use>, st: Store, h: nat, first: nat, n: nat, writable: bool) {
    && st.spaces == st0.spaces && SameDirs(st0, st)
    && (forall g, k, l :: UserWord(st, g, k, l) ==
          if g == h && Window(first, 0, n, k, l) then UserWord(st0, g, k, l).(writable := writable)
          else UserWord(st0, g, k, l))
    && (forall l :: StackWord(st, l) == StackWord(st0, l))
    && (forall f :: f in owner && (Data(owner[f]) || owner[f].Shared?) && f in st0.memory ==>
          f in st.memory && st.memory[f] == st0.memory[f])
  }

  lemma ProtectedStart(st: Store, owner: map<nat, Use>, h: nat, first: nat, writable: bool)
    ensures Protected(st, owner, st, h, first, 0, writable)
  {
  }

  lemma ProtectedStep(st0: Store, owner: map<nat, Use>, st: Store, st': Store, h: nat, first: nat, n: nat,
                      writable: bool, i: nat, j: nat)
    requires Books(st, owner) && Protected(st0, owner, st, h, first, n, writable)
    requires i == (first + n) / ENTRIES && j == (first + n) % ENTRIES && UserWord(st, h, i, j).present
    requires UserChanged(st, st', h, i, j, UserWord(st, h, i, j).(writable := writable)) && st'.spaces == st.spaces
    requires forall f :: f in st.memory && f != DirWord(st, h, i).frame ==>
      f in st'.memory && st'.memory[f] == st.memory[f]
    ensures Protected(st0, owner, st', h, first, n + 1, writable)
  {
    hide Inverse, Kinds, Formed, Counted, UserWord, DirWord, StackWord;
    LastOfWindow(first, n, i, j);
    UserFrame(st, owner, h, i, j);
    OwnedTable(st, owner, h, i);
    assert !Window(first, 0, n, i, j);
    forall g, k, l
      ensures UserWord(st', g, k, l) ==
          if g == h && Window(first, 0, n + 1, k, l) then UserWord(st0, g, k, l).(writable := writable)
          else UserWord(st0, g, k, l)
    {
      if g == h && k == i && l == j { assert UserWord(st, h, i, j) == UserWord(st0, h, i, j); }
    }
  }

  lemma ProtectedNext(st0: Store, owner: map<nat, Use>, st: Store, h: nat, first: nat, n: nat, pages: nat,
                      writable: bool)
    requires Protected(st0, owner, st, h, first, n, writable) && RunMapped(st0, h, first, pages) && n < pages
    ensures UserWord(st, h, (first + n) / ENTRIES, (first + n) % ENTRIES).present
  {
    hide UserWord;
    var i, j := (first + n) / ENTRIES, (first + n) % ENTRIES;
    assert Window(first, 0, pages, i, j);
    assert UserWord(st0, h, i, j).present;
  }

  /** Changing permissions empties no table. */
  lemma ProtectedNoneEmpty(st0: Store, owner: map<nat, Use>, st: Store, h: nat, first: nat, n: nat, writable: bool)
    requires Protected(st0, owner, st, h, first, n, writable) && NoneEmpty(st0)
    ensures NoneEmpty(st)
  {
    hide UserWord;
    forall g, i | g in st.spaces && i in st.spaces[g].owned
      ensures !TableEmpty(st, g, i)
    {
      assert !TableEmpty(st0, g, i);
      var j: nat :| j < ENTRIES && UserWord(st0, g, i, j).present;
      assert UserWord(st, g, i, j).present;
    }
  }

  /** Change only the write permission of mapped pages. */
  method UserProtect(s: AddressSpaces, h: nat, virtual: nat, pages: nat, flags: nat) returns (ok: bool)
    requires s.Valid()
    modifies s`memory
    ensures s.Valid()
    ensures ok <==> old(Releasable(s, h, virtual, pages)) && (flags == 0 || flags == WRITABLE)
    ensures !ok ==> s.memory == old(s.memory)
    ensures ok ==> Protected(old(s.St()), s.owner, s.St(), h, virtual / PAGE, pages, flags == WRITABLE)
  {
    hide Books, Enrolled, Backed, Protected, NoneEmpty, RunMapped, UserChanged, UserWord;
    if !UserRange(virtual, pages) || (flags != 0 && flags != WRITABLE) || !s.enabled || h !in s.spaces || h == KERNEL {
      return false;
    }
    var first := virtual / PAGE;
    RangeInUser(virtual, pages);
    ok := IsRunMapped(s, h, first, pages);
    if !ok { return; }
    ProtectedStart(s.St(), s.owner, h, first, flags == WRITABLE);
    for n := 0 to pages
      invariant s.Sound() && h in s.spaces && Protected(old(s.St()), s.owner, s.St(), h, first, n, flags == WRITABLE)
    {
      var i, j := (first + n) / ENTRIES, (first + n) % ENTRIES;
      ProtectedNext(old(s.St()), s.owner, s.St(), h, first, n, pages, flags == WRITABLE);
      EntryIsWord(s.St(), s.owner, h, i, j);
      var w := UserEntry(s.St(), h, i, j);
      ghost var before := s.St();
      s.memory := PutWord(s.memory, DirWord(s.St(), h, i).frame, j, w.(writable := flags == WRITABLE));
      ProtectUser(before, s.owner, h, i, j, flags == WRITABLE, s.St());
      ProtectedStep(old(s.St()), s.owner, before, s.St(), h, first, n, flags == WRITABLE, i, j);
    }
    ProtectedNoneEmpty(old(s.St()), s.owner, s.St(), h, first, pages, flags == WRITABLE);
  }
}
