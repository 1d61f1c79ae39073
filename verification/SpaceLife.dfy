/** Creating, switching to and destroying address spaces. */
module SpaceLife {
  import opened Common
  import opened Frames
  import opened PageTables
  import opened PageSteps
  import opened PageRuns
  import opened Paging

  /** A new space with the kernel's half and no user page. `record` is what the heap
      returned for its bookkeeping: storage no live space uses, or nothing. */
  method CreateSpace(s: AddressSpaces, record: Option<nat>) returns (r: Option<nat>)
    requires s.Valid() && (record.Some? ==> record.value !in s.spaces)
    modifies s`memory, s`spaces, s`order, s`owner, s.pmm`taken, s.pmm`free, s.pmm`next
    ensures s.Valid() && s.Account() == old(s.Account())
    ensures r.Some? <==> s.enabled && |old(s.order)| < SPACE_LIMIT && record.Some? && old(s.pmm.free) > 0
    ensures r.None? ==>
      s.St() == old(s.St()) && s.order == old(s.order) && s.owner == old(s.owner) && s.pmm.taken == old(s.pmm.taken)
    ensures r.Some? ==>
      r == record && SpaceAdded(old(s.St()), old(s.owner), s.St(), s.owner, r.value) &&
      s.order == [r.value] + old(s.order)
  {
    hide Books, Enrolled, Foreign, Backed, NoneEmpty, SpaceAdded;
    r := None;
    if !s.enabled || |s.order| >= SPACE_LIMIT || record.None? { return; }
    var h := record.value;
    var f := s.TakeFrame();
    if f == 0 { return; }
    Enlist(s, h, f);
    ForeignGained(old(s.pmm.taken), old(s.owner), f, Directory(h));
    r := record;
  }

  /** Fill the directory and put the space at the head of the list. */
  method Enlist(s: AddressSpaces, h: nat, f: nat)
    requires Books(s.St(), s.owner) && NoneEmpty(s.St()) && Enrolled(s.spaces, s.order) && h !in s.spaces
    requires f !in s.owner
    modifies s`memory, s`spaces, s`order, s`owner
    ensures Books(s.St(), s.owner) && NoneEmpty(s.St()) && Enrolled(s.spaces, s.order)
    ensures SpaceAdded(old(s.St()), old(s.owner), s.St(), s.owner, h) && s.owner == old(s.owner)[f := Directory(h)]
    ensures old(s.spaces).Keys <= s.spaces.Keys && s.order == [h] + old(s.order)
  {
    hide Books, Enrolled, NoneEmpty, UserWord, StackWord;
    BooksKernel(s.St(), s.owner);
    s.memory := s.memory[f := NewDirectory(s.St())];
    s.spaces := s.spaces[h := Space(f, 0, 0, {})];
    s.order := [h] + s.order;
    NewSpace(old(s.St()), s.owner, h, f, s.St());
    EnrolledMore(old(s.spaces), s.spaces, old(s.order), h);
    NoneEmptyAdded(old(s.St()), s.St(), h);
    s.owner := s.owner[f := Directory(h)];
  }

  lemma BooksKernel(st: Store, owner: map<nat, Use>)
    requires Books(st, owner)
    ensures KERNEL in st.spaces
  {
  }

  /** The new space has the kernel's directory entries and nothing of its own; every
      mapping of every other space is as it was. */
  ghost predicate SpaceAdded(st: Store, owner: map<nat, Use>, st': Store, owner': map<nat, Use>, h: nat) {
    && h !in st.spaces && st'.spaces.Keys == st.spaces.Keys + {h}
    && (forall g :: g in st.spaces ==> st'.spaces[g] == st.spaces[g])
    && (forall g, k, l :: UserWord(st', g, k, l) == UserWord(st, g, k, l))
    && (forall l :: StackWord(st', l) == StackWord(st, l))
    && st'.spaces[h].pages == 0 && st'.spaces[h].tables == 0 && st'.spaces[h].owned == {}
    && st'.spaces[h].directory !in owner && owner' == owner[st'.spaces[h].directory := Directory(h)]
    && (forall f :: f in owner && f in st.memory ==> f in st'.memory && st'.memory[f] == st.memory[f])
  }

  lemma EnrolledMore(spaces: map<nat, Space>, spaces': map<nat, Space>, order: seq<nat>, h: nat)
    requires Enrolled(spaces, order) && h !in spaces && spaces'.Keys == spaces.Keys + {h} && KERNEL in spaces
    ensures Enrolled(spaces', [h] + order)
  {
  }

  lemma NoneEmptyAdded(st: Store, st': Store, h: nat)
    requires NoneEmpty(st) && (forall g, k, l :: UserWord(st', g, k, l) == UserWord(st, g, k, l))
    requires st'.spaces.Keys == st.spaces.Keys + {h} && h !in st.spaces && st'.spaces[h].owned == {}
    requires forall g :: g in st.spaces ==>
      st'.spaces[g] == st.spaces[g]
    ensures NoneEmpty(st')
  {
    hide UserWord;
    forall g, i | g in st'.spaces && i in st'.spaces[g].owned
      ensures !TableEmpty(st', g, i)
    {
      assert !TableEmpty(st, g, i);
      var j: nat :| j < ENTRIES && UserWord(st, g, i, j).present;
      assert UserWord(st', g, i, j).present;
    }
  }

  method SwitchSpace(s: AddressSpaces, h: nat) returns (ok: bool)
    requires s.Valid()
    modifies s`active
    ensures s.Valid() && (ok <==> s.enabled && h in s.spaces) && s.active == if ok then h else old(s.active)
  {
    ok := s.enabled && h in s.spaces;
    if ok { s.active := h; }
  }

  // ----- Checking a space before it goes -----------------------------------------------------------

  ghost function UsersIn(owner: map<nat, Use>, h: nat, i: nat, j: nat): set<nat> {
    set f | f in owner && owner[f].User? && owner[f].space == h && owner[f].index == i && owner[f].entry < j
  }

  ghost function UsersBelow(owner: map<nat, Use>, h: nat, i: nat): set<nat> {
    set f | f in owner && owner[f].User? && owner[f].space == h && owner[f].index < i
  }

  ghost function TablesBelow(owner: map<nat, Use>, h: nat, i: nat): set<nat> {
    set f | f in owner && owner[f].Private? && owner[f].space == h && owner[f].index < i
  }

  lemma UsersInStep(st: Store, owner: map<nat, Use>, h: nat, i: nat, j: nat)
    requires Books(st, owner)
    ensures UserWord(st, h, i, j).present ==> UserWord(st, h, i, j).frame !in UsersIn(owner, h, i, j)
    ensures UsersIn(owner, h, i, j + 1) ==
      if UserWord(st, h, i, j).present then UsersIn(owner, h, i, j) + {UserWord(st, h, i, j).frame}
      else UsersIn(owner, h, i, j)
  {
    hide Kinds, Formed, Counted, UserWord;
    forall f | f in owner && owner[f] == User(h, i, j)
      ensures UserWord(st, h, i, j).present && UserWord(st, h, i, j).frame == f
    {
      assert FrameOf(st, owner[f]) == Some(f);
    }
    if UserWord(st, h, i, j).present { assert FrameOf(st, User(h, i, j)) == Some(UserWord(st, h, i, j).frame); }
  }

  lemma UsersWhole(st: Store, owner: map<nat, Use>, h: nat, i: nat)
    requires Books(st, owner)
    ensures UsersBelow(owner, h, i + 1) == UsersBelow(owner, h, i) + UsersIn(owner, h, i, ENTRIES)
    ensures |UsersBelow(owner, h, i + 1)| == |UsersBelow(owner, h, i)| + |UsersIn(owner, h, i, ENTRIES)|
  {
    forall f | f in UsersBelow(owner, h, i + 1)
      ensures owner[f].entry < ENTRIES
    {
      EntryBound(st, owner, f);
    }
    assert UsersBelow(owner, h, i) !! UsersIn(owner, h, i, ENTRIES);
  }

  lemma EntryBound(st: Store, owner: map<nat, Use>, f: nat)
    requires Books(st, owner) && f in owner && owner[f].User?
    ensures owner[f].entry < ENTRIES && owner[f].space in st.spaces && owner[f].index in st.spaces[owner[f].space].owned
  {
    assert FrameOf(st, owner[f]) == Some(f);
    UserFrame(st, owner, owner[f].space, owner[f].index, owner[f].entry);
  }

  lemma NoUsersWithoutTable(st: Store, owner: map<nat, Use>, h: nat, i: nat)
    requires Books(st, owner) && h in st.spaces && i !in st.spaces[h].owned
    ensures UsersBelow(owner, h, i + 1) == UsersBelow(owner, h, i)
    ensures TablesBelow(owner, h, i + 1) == TablesBelow(owner, h, i)
  {
    forall f | f in owner && OfSpace(owner[f], h)
      ensures !owner[f].Directory? ==> owner[f].index != i
    {
      if owner[f].User? { EntryBound(st, owner, f); }
      if owner[f].Private? { PrivateIsOwned(st, owner, f); }
    }
  }

  lemma TablesStep(st: Store, owner: map<nat, Use>, h: nat, i: nat)
    requires Books(st, owner) && h in st.spaces && i in st.spaces[h].owned
    ensures DirWord(st, h, i).frame !in TablesBelow(owner, h, i)
    ensures TablesBelow(owner, h, i + 1) == TablesBelow(owner, h, i) + {DirWord(st, h, i).frame}
  {
    hide Kinds, Formed, Counted, DirWord;
    OwnedTable(st, owner, h, i);
    forall f | f in owner && owner[f] == Private(h, i)
      ensures f == DirWord(st, h, i).frame
    {
      TableAlone(st, owner, h, i, f, DirWord(st, h, i).frame);
    }
  }

  /** Look at every entry of one table: all are in order and as many are present as the
      ledger records. */
  method CheckTable(s: AddressSpaces, h: nat, i: nat) returns (valid: bool, pages: nat)
    requires s.Sound() && h in s.spaces && i in s.spaces[h].owned
    ensures valid && pages == |UsersIn(s.owner, h, i, ENTRIES)|
  {
    hide Books, Enrolled, UserWord, UsersIn;
    OwnedTable(s.St(), s.owner, h, i);
    var table := DirWord(s.St(), h, i).frame;
    hide DirWord;
    valid, pages := true, 0;
    assert UsersIn(s.owner, h, i, 0) == {} by { UsersInNone(s.owner, h, i); }
    for j := 0 to ENTRIES
      invariant valid && pages == |UsersIn(s.owner, h, i, j)|
    {
      UsersInStep(s.St(), s.owner, h, i, j);
      UserWordOk(s.St(), s.owner, h, i, j);
      TableWord(s.St(), h, i, j);
      var w := WordAt(s.memory, table, j);
      if !w.present {
        if w != NONE { valid := false; }
      } else {
        if !w.user || w.uncached || !s.pmm.IsAllocated(w.frame * PAGE) { valid := false; }
        pages := pages + 1;
      }
    }
  }

  lemma UsersInNone(owner: map<nat, Use>, h: nat, i: nat)
    ensures UsersIn(owner, h, i, 0) == {}
  {
  }

  lemma UserWordOk(st: Store, owner: map<nat, Use>, h: nat, i: nat, j: nat)
    requires Books(st, owner)
    ensures UserWord(st, h, i, j) ==
      NONE || (IsUser(UserWord(st, h, i, j)) && UserWord(st, h, i, j).frame in owner)
  {
    if UserWord(st, h, i, j).present { UserFrame(st, owner, h, i, j); }
  }

  /** Check the upper half of the directory: bitmap, entries and counts all agree. */
  method CheckSpace(s: AddressSpaces, h: nat) returns (valid: bool, pages: nat, tables: nat)
    requires s.Sound() && h in s.spaces
    ensures valid && pages == s.spaces[h].pages && tables == s.spaces[h].tables
  {
    hide Books, Enrolled, UsersIn, UsersBelow, TablesBelow;
    valid, pages, tables := true, 0, 0;
    NoneBelow(s.St(), s.owner, h);
    for i := KERNEL_ENTRIES to ENTRIES
      invariant valid && pages == |UsersBelow(s.owner, h, i)| && tables == |TablesBelow(s.owner, h, i)|
    {
      BooksDir(s.St(), s.owner, h, i);
      OwnedInUser(s.St(), s.owner, h, i);
      var w, owned := DirWord(s.St(), h, i), i in s.spaces[h].owned;
      if i >= USER_ENTRIES {
        if w != NONE || owned { valid := false; }
        NoUsersWithoutTable(s.St(), s.owner, h, i);
      } else if (!w.present && w != NONE) || w.present != owned || (w.present && !(owned && IsUserTable(w))) {
        valid := false;
      } else if !owned {
        NoUsersWithoutTable(s.St(), s.owner, h, i);
      } else {
        tables := tables + 1;
        TablesStep(s.St(), s.owner, h, i);
        UsersWhole(s.St(), s.owner, h, i);
        var good, n := CheckTable(s, h, i);
        if !good { valid := false; }
        pages := pages + n;
      }
    }
    AllBelow(s.St(), s.owner, h);
  }

  lemma OwnedInUser(st: Store, owner: map<nat, Use>, h: nat, i: nat)
    requires Books(st, owner) && h in st.spaces
    ensures i in st.spaces[h].owned ==> InUser(h, i)
  {
  }

  lemma NoneBelow(st: Store, owner: map<nat, Use>, h: nat)
    requires Books(st, owner) && h in st.spaces
    ensures UsersBelow(owner, h, KERNEL_ENTRIES) == {} && TablesBelow(owner, h, KERNEL_ENTRIES) == {}
  {
    forall f | f in owner && OfSpace(owner[f], h)
      ensures !owner[f].Directory? ==> KERNEL_ENTRIES <= owner[f].index < USER_ENTRIES
    {
      if !owner[f].Directory? { IndexBound(st, owner, f); }
    }
  }

  lemma IndexBound(st: Store, owner: map<nat, Use>, f: nat)
    requires Books(st, owner) && f in owner && (owner[f].User? || owner[f].Private?)
    ensures KERNEL_ENTRIES <= owner[f].index < USER_ENTRIES
  {
    if owner[f].User? { EntryBound(st, owner, f); } else { PrivateIsOwned(st, owner, f); }
    OwnedInUser(st, owner, owner[f].space, owner[f].index);
  }

  lemma AllBelow(st: Store, owner: map<nat, Use>, h: nat)
    requires Books(st, owner) && h in st.spaces
    ensures st.spaces[h].pages == |UsersBelow(owner, h, ENTRIES)|
    ensures st.spaces[h].tables == |TablesBelow(owner, h, ENTRIES)|
    ensures UsersBelow(owner, h, USER_ENTRIES) == UsersOf(owner, h)
    ensures TablesBelow(owner, h, USER_ENTRIES) == TablesOf(owner, h)
  {
    forall f | f in owner && OfSpace(owner[f], h)
      ensures !owner[f].Directory? ==> KERNEL_ENTRIES <= owner[f].index < USER_ENTRIES
    {
      if !owner[f].Directory? { IndexBound(st, owner, f); }
    }
    assert UsersBelow(owner, h, ENTRIES) == UsersOf(owner, h);
    assert TablesBelow(owner, h, ENTRIES) == TablesOf(owner, h);
    assert UsersBelow(owner, h, USER_ENTRIES) == UsersOf(owner, h);
    assert TablesBelow(owner, h, USER_ENTRIES) == TablesOf(owner, h);
  }

  // ----- Returning the frames ----------------------------------------------------------------------

  /** The bitmap lost exactly the frames `gone`. */
  ghost predicate Cleared(taken0: seq<bool>, taken: seq<bool>, gone: set<nat>) {
    |taken| == |taken0| && forall p :: 0 <= p < |taken| ==> taken[p] == (taken0[p] && p !in gone)
  }

  lemma ClearedStep(taken0: seq<bool>, taken: seq<bool>, gone: set<nat>, f: nat)
    requires Cleared(taken0, taken, gone) && f < |taken|
    ensures Cleared(taken0, taken[f := false], gone + {f})
  {
  }

  /** Free the pages of one table. The free never fails: each frame is recorded once. */
  method FreeTable(s: AddressSpaces, h: nat, i: nat, ghost taken0: seq<bool>, ghost gone: set<nat>)
    requires s.pmm.Valid() && s.pmm.ready && Books(s.St(), s.owner) && h in s.spaces && i in s.spaces[h].owned
    requires Backed(taken0, s.owner) && Cleared(taken0, s.pmm.taken, gone) && gone !! UsersIn(s.owner, h, i, ENTRIES)
    modifies s.pmm`taken, s.pmm`free, s.pmm`next
    ensures s.pmm.Valid() && Cleared(taken0, s.pmm.taken, gone + UsersIn(s.owner, h, i, ENTRIES))
    ensures s.pmm.free == old(s.pmm.free) + |UsersIn(s.owner, h, i, ENTRIES)|
  {
    hide Books, UserWord, UsersIn, Cleared;
    OwnedTable(s.St(), s.owner, h, i);
    var table := DirWord(s.St(), h, i).frame;
    hide DirWord;
    UsersInNone(s.owner, h, i);
    assert gone + UsersIn(s.owner, h, i, 0) == gone;
    for j := 0 to ENTRIES
      invariant s.pmm.Valid() && Cleared(taken0, s.pmm.taken, gone + UsersIn(s.owner, h, i, j))
      invariant s.pmm.free == old(s.pmm.free) + |UsersIn(s.owner, h, i, j)|
    {
      UsersInStep(s.St(), s.owner, h, i, j);
      TableWord(s.St(), h, i, j);
      var w := WordAt(s.memory, table, j);
      if w.present {
        UserFrame(s.St(), s.owner, h, i, j);
        InUsers(s.owner, h, i, j, w.frame);
        StillTaken(taken0, s.pmm.taken, gone + UsersIn(s.owner, h, i, j), s.owner, w.frame);
        ClearedStep(taken0, s.pmm.taken, gone + UsersIn(s.owner, h, i, j), w.frame);
        s.ReturnFrame(w.frame);
        assert gone + UsersIn(s.owner, h, i, j + 1) == gone + UsersIn(s.owner, h, i, j) + {w.frame};
      }
    }
  }

  lemma InUsers(owner: map<nat, Use>, h: nat, i: nat, j: nat, f: nat)
    requires f in owner && owner[f] == User(h, i, j) && j < ENTRIES
    ensures f in UsersIn(owner, h, i, ENTRIES) && f !in UsersIn(owner, h, i, j)
  {
  }

  lemma StillTaken(taken0: seq<bool>, taken: seq<bool>, gone: set<nat>, owner: map<nat, Use>, f: nat)
    requires Backed(taken0, owner) && Cleared(taken0, taken, gone) && f in owner && f !in gone
    ensures f < |taken| && taken[f]
  {
  }

  ghost function Freed(owner: map<nat, Use>, h: nat, i: nat): set<nat> {
    UsersBelow(owner, h, i) + TablesBelow(owner, h, i)
  }

  /** Free every private table and its pages, then the directory. */
  method FreeSpace(s: AddressSpaces, h: nat)
    requires s.pmm.Valid() && s.pmm.ready && Books(s.St(), s.owner) && h in s.spaces && h != KERNEL
    requires Backed(s.pmm.taken, s.owner)
    modifies s.pmm`taken, s.pmm`free, s.pmm`next
    ensures s.pmm.Valid() && Cleared(old(s.pmm.taken), s.pmm.taken, FramesOf(s.owner, h))
    ensures s.pmm.free == old(s.pmm.free) + |FramesOf(s.owner, h)|
  {
    hide Books, UserWord, UsersIn, Cleared, Freed, Backed;
    FreedNone(s.St(), s.owner, h);
    assert Cleared(s.pmm.taken, s.pmm.taken, Freed(s.owner, h, KERNEL_ENTRIES)) by { ClearedNone(s.pmm.taken); }
    for i := KERNEL_ENTRIES to USER_ENTRIES
      invariant s.pmm.Valid() && Cleared(old(s.pmm.taken), s.pmm.taken, Freed(s.owner, h, i))
      invariant s.pmm.free == old(s.pmm.free) + |Freed(s.owner, h, i)|
    {
      if i in s.spaces[h].owned {
        FreedStep(s.St(), s.owner, h, i);
        FreeTable(s, h, i, old(s.pmm.taken), Freed(s.owner, h, i));
        OwnedTable(s.St(), s.owner, h, i);
        var table := DirWord(s.St(), h, i).frame;
        ghost var gone := Freed(s.owner, h, i) + UsersIn(s.owner, h, i, ENTRIES);
        StillTaken(old(s.pmm.taken), s.pmm.taken, gone, s.owner, table);
        ClearedStep(old(s.pmm.taken), s.pmm.taken, gone, table);
        s.ReturnFrame(table);
      } else {
        FreedSkip(s.St(), s.owner, h, i);
      }
    }
    FreedAll(s.St(), s.owner, h);
    var directory := s.spaces[h].directory;
    StillTaken(old(s.pmm.taken), s.pmm.taken, Freed(s.owner, h, USER_ENTRIES), s.owner, directory);
    ClearedStep(old(s.pmm.taken), s.pmm.taken, Freed(s.owner, h, USER_ENTRIES), directory);
    s.ReturnFrame(directory);
  }

  lemma ClearedNone(taken: seq<bool>)
    ensures Cleared(taken, taken, {})
  {
  }

  lemma FreedNone(st: Store, owner: map<nat, Use>, h: nat)
    requires Books(st, owner) && h in st.spaces
    ensures Freed(owner, h, KERNEL_ENTRIES) == {}
  {
    NoneBelow(st, owner, h);
  }

  lemma FreedSkip(st: Store, owner: map<nat, Use>, h: nat, i: nat)
    requires Books(st, owner) && h in st.spaces && i !in st.spaces[h].owned
    ensures Freed(owner, h, i + 1) == Freed(owner, h, i)
  {
    NoUsersWithoutTable(st, owner, h, i);
  }

  lemma FreedStep(st: Store, owner: map<nat, Use>, h: nat, i: nat)
    requires Books(st, owner) && h in st.spaces && i in st.spaces[h].owned
    ensures var t := DirWord(st, h, i).frame; var users := UsersIn(owner, h, i, ENTRIES);
      && Freed(owner, h, i) !! users && t !in Freed(owner, h, i) + users
      && Freed(owner, h, i + 1) == Freed(owner, h, i) + users + {t}
      && |Freed(owner, h, i + 1)| == |Freed(owner, h, i)| + |users| + 1
  {
    hide Books, DirWord;
    OwnedTable(st, owner, h, i);
    UsersWhole(st, owner, h, i);
    TablesStep(st, owner, h, i);
    var before, users := Freed(owner, h, i), UsersIn(owner, h, i, ENTRIES);
    assert before !! users;
    assert |before + users| == |before| + |users|;
  }

  lemma FreedAll(st: Store, owner: map<nat, Use>, h: nat)
    requires Books(st, owner) && h in st.spaces && h != KERNEL
    ensures st.spaces[h].directory in owner && st.spaces[h].directory !in Freed(owner, h, USER_ENTRIES)
    ensures FramesOf(owner, h) == Freed(owner, h, USER_ENTRIES) + {st.spaces[h].directory}
    ensures |FramesOf(owner, h)| == |Freed(owner, h, USER_ENTRIES)| + 1
  {
    hide Books;
    DirectoryFrame(st, owner, h);
    AllBelow(st, owner, h);
    forall f | f in owner && owner[f] == Directory(h)
      ensures f == st.spaces[h].directory
    {
      OneDirectory(st, owner, h, f);
    }
  }

  lemma OneDirectory(st: Store, owner: map<nat, Use>, h: nat, f: nat)
    requires Books(st, owner) && h in st.spaces && f in owner && owner[f] == Directory(h)
    ensures f == st.spaces[h].directory
  {
    assert FrameOf(st, owner[f]) == Some(f);
  }

  // ----- Destroying a space ---------------------------------------------------------------------------

  /** Whether the space may go: registered, not the kernel's and not the active one. */
  predicate Destroyable(s: AddressSpaces, h: nat)
    reads s
  {
    s.enabled && h in s.spaces && h != KERNEL && h != s.active
  }

  /** The space left with its frames; everything of every other space is as it was. */
  ghost predicate SpaceGone(st: Store, owner: map<nat, Use>, st': Store, owner': map<nat, Use>, h: nat) {
    && st'.memory == st.memory && st'.spaces == st.spaces - {h} && owner' == owner - FramesOf(owner, h)
    && (forall g, k, l :: g != h ==> UserWord(st', g, k, l) == UserWord(st, g, k, l))
    && (forall l :: StackWord(st', l) == StackWord(st, l))
  }

  /** Destroy a space. The consistency check never stops it, and exactly the frames
      recorded for it go back to the allocator. */
  method DestroySpace(s: AddressSpaces, h: nat) returns (ok: bool)
    requires s.Valid()
    modifies s`spaces, s`order, s`owner, s.pmm`taken, s.pmm`free, s.pmm`next
    ensures s.Valid() && s.Account() == old(s.Account())
    ensures ok <==> old(Destroyable(s, h))
    ensures !ok ==> s.St() == old(s.St()) && s.owner == old(s.owner) && s.pmm.taken == old(s.pmm.taken)
    ensures ok ==>
      SpaceGone(old(s.St()), old(s.owner), s.St(), s.owner, h) &&
      Cleared(old(s.pmm.taken), s.pmm.taken, FramesOf(old(s.owner), h))
    ensures ok ==> s.order == Unlisted(old(s.order), h)
  {
    hide Books, Enrolled, NoneEmpty, Backed, Foreign, SpaceGone, Cleared, FramesOf;
    if !s.enabled || h == KERNEL || h == s.active || h !in s.spaces { return false; }
    var valid, pages, tables := CheckSpace(s, h);
    if !(valid && pages == s.spaces[h].pages && tables == s.spaces[h].tables) { return false; }
    Retire(s, h);
    ok := true;
  }

  /** Unlink the space and free what it holds. */
  method Retire(s: AddressSpaces, h: nat)
    requires s.Sound() && NoneEmpty(s.St()) && h in s.spaces && h != KERNEL && h != s.active
    modifies s`spaces, s`order, s`owner, s.pmm`taken, s.pmm`free, s.pmm`next
    ensures s.Sound() && NoneEmpty(s.St()) && s.Account() == old(s.Account())
    ensures SpaceGone(old(s.St()), old(s.owner), s.St(), s.owner, h)
    ensures Cleared(old(s.pmm.taken), s.pmm.taken, FramesOf(old(s.owner), h))
    ensures s.order == Unlisted(old(s.order), h)
  {
    hide Books, Enrolled, NoneEmpty, Backed, Foreign, SpaceGone, Cleared, FramesOf, BitmapsOk, FreeSet, Unlisted;
    s.order := Unlisted(s.order, h);
    UnlistedEnrolled(s.spaces, old(s.order), h);
    FreeSpace(s, h);
    ForeignDropped(old(s.pmm.taken), s.pmm.taken, s.owner, h);
    Forget(s, h);
  }

  /** Strike the space and what was recorded for it. */
  method Forget(s: AddressSpaces, h: nat)
    requires Books(s.St(), s.owner) && NoneEmpty(s.St()) && h in s.spaces && h != KERNEL
    modifies s`spaces, s`owner
    ensures s.spaces == old(s.spaces) - {h} && s.owner == old(s.owner) - FramesOf(old(s.owner), h)
    ensures Books(s.St(), s.owner) && NoneEmpty(s.St())
    ensures SpaceGone(old(s.St()), old(s.owner), s.St(), s.owner, h)
  {
    hide Books, NoneEmpty, SpaceGone, FramesOf;
    GoneSpace(s.St(), s.owner, h);
    s.spaces, s.owner := s.spaces - {h}, s.owner - FramesOf(s.owner, h);
  }

  lemma ForeignDropped(taken0: seq<bool>, taken: seq<bool>, owner: map<nat, Use>, h: nat)
    requires Backed(taken0, owner) && Cleared(taken0, taken, FramesOf(owner, h))
    ensures Backed(taken, owner - FramesOf(owner, h))
    ensures Foreign(taken, owner - FramesOf(owner, h)) == Foreign(taken0, owner)
    ensures |owner - FramesOf(owner, h)| == |owner| - |FramesOf(owner, h)|
  {
    var gone := FramesOf(owner, h);
    assert (owner - gone).Keys == owner.Keys - gone && gone <= owner.Keys;
    assert |owner.Keys - gone| == |owner.Keys| - |gone|;
  }

  lemma GoneSpace(st: Store, owner: map<nat, Use>, h: nat)
    requires Books(st, owner) && NoneEmpty(st) && h in st.spaces && h != KERNEL
    ensures var st' := st.(spaces := st.spaces - {h});
      && Books(st', owner - FramesOf(owner, h)) && NoneEmpty(st')
      && SpaceGone(st, owner, st', owner - FramesOf(owner, h), h)
  {
    hide Books, UserWord, StackWord, DirWord, FramesOf;
    var st' := st.(spaces := st.spaces - {h});
    DropSpace(st, owner, h, st');
    forall g, i | g in st'.spaces && i in st'.spaces[g].owned
      ensures !TableEmpty(st', g, i)
    {
      assert !TableEmpty(st, g, i);
      var j: nat :| j < ENTRIES && UserWord(st, g, i, j).present;
      assert UserWord(st', g, i, j).present;
    }
  }

  /** The list without one element. */
  function Unlisted(order: seq<nat>, h: nat): (r: seq<nat>)
    ensures forall g :: g in order && g != h ==> g in r
    ensures forall g :: g in r ==> g in order
    ensures |r| <= |order|
  {
    if order == [] then [] else if order[0] == h then order[1..] else [order[0]] + Unlisted(order[1..], h)
  }

  lemma {:induction false} UnlistedDistinct(order: seq<nat>, h: nat)
    requires forall a, b :: 0 <= a < b < |order| ==> order[a] != order[b]
    ensures forall a, b :: 0 <= a < b < |Unlisted(order, h)| ==> Unlisted(order, h)[a] != Unlisted(order, h)[b]
    ensures h !in Unlisted(order, h)
  {
    if order != [] {
      var rest := order[1..];
      UnlistedDistinct(rest, h);
      if order[0] != h {
        var r := Unlisted(rest, h);
        assert order[0] !in rest;
        assert Unlisted(order, h) == [order[0]] + r;
        assert order[0] !in r;
      }
    }
  }

  lemma UnlistedEnrolled(spaces: map<nat, Space>, order: seq<nat>, h: nat)
    requires Enrolled(spaces, order) && h != KERNEL
    ensures Enrolled(spaces - {h}, Unlisted(order, h))
  {
    UnlistedDistinct(order, h);
  }
}
