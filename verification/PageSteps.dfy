/** The single steps every paging operation is made of, each keeping the ledger. */
module PageSteps {
  import opened Common
  import opened Frames
  import opened PageTables
  /** One user word became `w`; every other word and every directory is as it was. */
  ghost predicate UserChanged(st: Store, st': Store, h: nat, i: nat, j: nat, w: Word) {
    && SameDirs(st, st') && (forall l :: StackWord(st', l) == StackWord(st, l))
    && (forall g, k, l :: UserWord(st', g, k, l) == if g == h && k == i && l == j then w else UserWord(st, g, k, l))
  }

  /** The records of all spaces but one, and that one's bitmap, are as they were. */
  ghost predicate OnlyPages(st: Store, st': Store, h: nat) {
    && st'.spaces.Keys == st.spaces.Keys
    && (forall g :: g in st.spaces && g != h ==> st'.spaces[g] == st.spaces[g])
    && (h in st.spaces ==>
          st'.spaces[h].owned == st.spaces[h].owned && st'.spaces[h].directory == st.spaces[h].directory)
  }

  lemma OwnedTable(st: Store, owner: map<nat, Use>, h: nat, i: nat)
    requires Books(st, owner) && h in st.spaces && i in st.spaces[h].owned
    ensures InUser(h, i) && DirWord(st, h, i).present && FrameOf(st, Private(h, i)) == Some(DirWord(st, h, i).frame)
    ensures DirWord(st, h, i).frame in owner && owner[DirWord(st, h, i).frame] == Private(h, i)
    ensures KindOk(st.memory, DirWord(st, h, i).frame, Private(h, i))
  {
    assert DirOk(st, h, i);
  }

  /** Directory words that do not change keep the directories in form. */
  lemma StillFormed(st: Store, st': Store, h: nat)
    requires Formed(st) && SameDirs(st, st') && OnlyPages(st, st', h)
    requires forall g, k, l ::
      UserWord(st', g, k, l) == NONE || IsUser(UserWord(st', g, k, l))
    requires forall l ::
      StackWord(st', l) == NONE || IsKernel(StackWord(st', l))
    ensures Formed(st')
  {
    forall g, k: nat | g in st'.spaces
      ensures DirOk(st', g, k)
    {
      assert DirOk(st, g, k);
    }
  }

  // ----- User pages -------------------------------------------------------------------------

  lemma MapUser(st: Store, owner: map<nat, Use>, h: nat, i: nat, j: nat, w: Word, page: Page, st': Store)
    requires Books(st, owner) && h in st.spaces && i in st.spaces[h].owned && j < ENTRIES
    requires UserWord(st, h, i, j) == NONE && IsUser(w) && w.frame !in owner
    requires page.Bytes? && |page.data| == PAGE
    requires st' == Store(PutWord(st.memory[w.frame := page], DirWord(st, h, i).frame, j, w),
                          st.spaces[h := st.spaces[h].(pages := st.spaces[h].pages + 1)])
    ensures Books(st', owner[w.frame := User(h, i, j)]) && UserChanged(st, st', h, i, j, w)
    ensures forall f :: f in st.memory && f != w.frame && f != DirWord(st, h, i).frame ==>
      f in st'.memory && st'.memory[f] == st.memory[f]
    ensures w.frame in st'.memory && st'.memory[w.frame] == page
  {
    hide Inverse, Kinds, Formed, Counted, UserWord, StackWord, FrameOf;
    OwnedTable(st, owner, h, i);
    var filled := st.(memory := st.memory[w.frame := page]);
    FreshFrame(st, owner, w.frame, page);
    SameInverse(st, owner, filled);
    SameFrame(st, filled, Private(h, i));
    UserWrite(filled, owner, h, i, j, w);
    SpacesOnly(filled.(memory := PutWord(filled.memory, DirWord(st, h, i).frame, j, w)), st');
    KindsPut(filled, owner, DirWord(st, h, i).frame, j, w);
    MapUserBooks(st, owner, h, i, j, w, st');
  }

  /** Words do not depend on the counters. */
  lemma SpacesOnly(st: Store, st': Store)
    requires st'.memory == st.memory && st'.spaces.Keys == st.spaces.Keys
    requires forall h :: h in st.spaces ==> st'.spaces[h].directory == st.spaces[h].directory
    ensures SameDirs(st, st') && (forall l :: StackWord(st', l) == StackWord(st, l))
    ensures forall g, k, l :: UserWord(st', g, k, l) == UserWord(st, g, k, l)
  {
  }

  lemma KindsPut(st: Store, owner: map<nat, Use>, t: nat, j: nat, w: Word)
    requires Kinds(st, owner)
    ensures forall f :: f in owner ==> KindOk(PutWord(st.memory, t, j, w), f, owner[f])
    ensures forall f :: f in st.memory ==>
      f in PutWord(st.memory, t, j, w) && (f != t ==> PutWord(st.memory, t, j, w)[f] == st.memory[f])
  {
  }

  lemma SameInverse(st: Store, owner: map<nat, Use>, st': Store)
    requires Books(st, owner) && SameDirs(st, st') && (forall l :: StackWord(st', l) == StackWord(st, l))
    requires forall g, k, l :: UserWord(st', g, k, l) == UserWord(st, g, k, l)
    requires forall f :: f in owner && f in st.memory ==> f in st'.memory && st'.memory[f] == st.memory[f]
    ensures Inverse(st', owner) && Kinds(st', owner)
  {
    forall u: Use ensures FrameOf(st', u) == FrameOf(st, u) { SameFrame(st, st', u); }
  }

  lemma SameFrame(st: Store, st': Store, u: Use)
    requires SameDirs(st, st')
    requires u.Stack? ==> StackWord(st', u.entry) == StackWord(st, u.entry)
    requires u.User? ==> UserWord(st', u.space, u.index, u.entry) == UserWord(st, u.space, u.index, u.entry)
    ensures FrameOf(st', u) == FrameOf(st, u)
  {
  }

  lemma MapUserBooks(st: Store, owner: map<nat, Use>, h: nat, i: nat, j: nat, w: Word, st': Store)
    requires Books(st, owner) && h in st.spaces && InUser(h, i) && UserWord(st, h, i, j) == NONE && IsUser(w)
    requires w.frame !in owner
    requires UserChanged(st, st', h, i, j, w)
    requires st'.spaces == st.spaces[h := st.spaces[h].(pages := st.spaces[h].pages + 1)]
    requires forall f :: f in owner ==> KindOk(st'.memory, f, owner[f])
    requires KindOk(st'.memory, w.frame, User(h, i, j))
    ensures Books(st', owner[w.frame := User(h, i, j)])
  {
    hide Inverse, Kinds, Counted, Formed, UsersOf, TablesOf, DirWord;
    var u := User(h, i, j);
    forall v: Use | v != u ensures FrameOf(st', v) == FrameOf(st, v) { SameFrame(st, st', v); }
    Gained(st, owner, st', u, w.frame);
    FormedUser(st, st', h, i, j, w);
    assert Kinds(st', owner[w.frame := u]) by { KindsGained(st', owner, w.frame, u); }
    CountedGained(st, owner, st', w.frame, u);
  }

  lemma KindsGained(st: Store, owner: map<nat, Use>, f: nat, u: Use)
    requires (forall g :: g in owner ==> KindOk(st.memory, g, owner[g])) && KindOk(st.memory, f, u)
    ensures Kinds(st, owner[f := u])
  {
  }

  lemma FormedUser(st: Store, st': Store, h: nat, i: nat, j: nat, w: Word)
    requires Formed(st) && UserChanged(st, st', h, i, j, w) && (w == NONE || IsUser(w))
    requires OnlyPages(st, st', h)
    ensures Formed(st')
  {
    StillFormed(st, st', h);
  }

  /** Counters after one purpose is recorded. */
  lemma CountedGained(st: Store, owner: map<nat, Use>, st': Store, f: nat, u: Use)
    requires Counted(st, owner) && f !in owner && st'.spaces.Keys == st.spaces.Keys
    requires forall h :: h in st.spaces ==>
      st'.spaces[h].pages == st.spaces[h].pages + (if u.User? && u.space == h then 1 else 0)
    requires forall h :: h in st.spaces ==>
      st'.spaces[h].tables == st.spaces[h].tables + (if u.Private? && u.space == h then 1 else 0)
    ensures Counted(st', owner[f := u])
  {
    hide UsersOf, TablesOf;
    forall h | h in st'.spaces
      ensures st'.spaces[h].pages == |UsersOf(owner[f := u], h)| && st'.spaces[h].tables == |TablesOf(owner[f := u], h)|
    {
      GainedCounts(owner, f, u, h);
    }
  }

  lemma CountedLost(st: Store, owner: map<nat, Use>, st': Store, f: nat)
    requires Counted(st, owner) && f in owner && st'.spaces.Keys == st.spaces.Keys
    requires forall h :: h in st.spaces ==>
      st.spaces[h].pages == st'.spaces[h].pages + (if owner[f].User? && owner[f].space == h then 1 else 0)
    requires forall h :: h in st.spaces ==>
      st.spaces[h].tables == st'.spaces[h].tables + (if owner[f].Private? && owner[f].space == h then 1 else 0)
    ensures Counted(st', owner - {f})
  {
    hide UsersOf, TablesOf;
    forall h | h in st'.spaces
      ensures st'.spaces[h].pages == |UsersOf(owner - {f}, h)| && st'.spaces[h].tables == |TablesOf(owner - {f}, h)|
    {
      LostCounts(owner, f, h);
    }
  }

  lemma KindsLost(st: Store, owner: map<nat, Use>, f: nat)
    requires forall g :: g in owner ==> KindOk(st.memory, g, owner[g])
    ensures Kinds(st, owner - {f})
  {
  }

  lemma UserFrame(st: Store, owner: map<nat, Use>, h: nat, i: nat, j: nat)
    requires Books(st, owner) && UserWord(st, h, i, j).present
    ensures var f := UserWord(st, h, i, j).frame;
      f in owner && owner[f] == User(h, i, j) && f in st.memory && st.memory[f].Bytes? && |st.memory[f].data| == PAGE
    ensures h in st.spaces && i in st.spaces[h].owned && j < ENTRIES
    ensures IsUser(UserWord(st, h, i, j))
  {
    assert FrameOf(st, User(h, i, j)) == Some(UserWord(st, h, i, j).frame);
    assert DirOk(st, h, i);
    assert FrameOf(st, Private(h, i)) == Some(DirWord(st, h, i).frame);
  }

  lemma UnmapUser(st: Store, owner: map<nat, Use>, h: nat, i: nat, j: nat, st': Store)
    requires Books(st, owner) && UserWord(st, h, i, j).present && h in st.spaces && st.spaces[h].pages > 0
    requires st' == Store(PutWord(st.memory, DirWord(st, h, i).frame, j, NONE),
                          st.spaces[h := st.spaces[h].(pages := st.spaces[h].pages - 1)])
    ensures Books(st', owner - {UserWord(st, h, i, j).frame}) && UserChanged(st, st', h, i, j, NONE)
    ensures forall f :: f in st.memory && f != DirWord(st, h, i).frame ==>
      f in st'.memory && st'.memory[f] == st.memory[f]
  {
    hide Inverse, Kinds, Formed, Counted, UserWord, StackWord, FrameOf;
    UserFrame(st, owner, h, i, j);
    OwnedTable(st, owner, h, i);
    UserWrite(st, owner, h, i, j, NONE);
    SpacesOnly(st.(memory := PutWord(st.memory, DirWord(st, h, i).frame, j, NONE)), st');
    KindsPut(st, owner, DirWord(st, h, i).frame, j, NONE);
    UnmapUserBooks(st, owner, h, i, j, st');
  }

  lemma UnmapUserBooks(st: Store, owner: map<nat, Use>, h: nat, i: nat, j: nat, st': Store)
    requires Books(st, owner) && h in st.spaces && UserWord(st, h, i, j).present && st.spaces[h].pages > 0
    requires UserChanged(st, st', h, i, j, NONE)
    requires st'.spaces == st.spaces[h := st.spaces[h].(pages := st.spaces[h].pages - 1)]
    requires forall f :: f in owner ==> KindOk(st'.memory, f, owner[f])
    ensures Books(st', owner - {UserWord(st, h, i, j).frame})
  {
    hide Inverse, Kinds, Counted, Formed, UsersOf, TablesOf, DirWord;
    var u, f := User(h, i, j), UserWord(st, h, i, j).frame;
    UserFrame(st, owner, h, i, j);
    forall v: Use | v != u ensures FrameOf(st', v) == FrameOf(st, v) { SameFrame(st, st', v); }
    Lost(st, owner, st', u, f);
    FormedUser(st, st', h, i, j, NONE);
    KindsLost(st', owner, f);
    CountedLost(st, owner, st', f);
  }

  /** Only the write permission of a mapped page changes. */
  lemma ProtectUser(st: Store, owner: map<nat, Use>, h: nat, i: nat, j: nat, writable: bool, st': Store)
    requires Books(st, owner) && UserWord(st, h, i, j).present
    requires st' ==
      st.(memory := PutWord(st.memory, DirWord(st, h, i).frame, j, UserWord(st, h, i, j).(writable := writable)))
    ensures Books(st', owner) && UserChanged(st, st', h, i, j, UserWord(st, h, i, j).(writable := writable))
    ensures forall f :: f in st.memory && f != DirWord(st, h, i).frame ==>
      f in st'.memory && st'.memory[f] == st.memory[f]
  {
    hide Inverse, Kinds, Formed, Counted, UserWord, StackWord;
    var w := UserWord(st, h, i, j).(writable := writable);
    UserFrame(st, owner, h, i, j);
    OwnedTable(st, owner, h, i);
    UserWrite(st, owner, h, i, j, w);
    KindsPut(st, owner, DirWord(st, h, i).frame, j, w);
    forall v: Use
      ensures FrameOf(st', v) == FrameOf(st, v)
    {
      if v != User(h, i, j) { SameFrame(st, st', v); }
    }
    InverseSame(st, owner, st');
    FormedUser(st, st', h, i, j, w);
    assert Kinds(st', owner) by { KindsAll(st', owner); }
    assert Counted(st', owner) by { CountedSame(st, owner, st'); }
  }

  lemma InverseSame(st: Store, owner: map<nat, Use>, st': Store)
    requires Inverse(st, owner) && forall v: Use :: FrameOf(st', v) == FrameOf(st, v)
    ensures Inverse(st', owner)
  {
  }

  lemma KindsAll(st: Store, owner: map<nat, Use>)
    requires forall g :: g in owner ==> KindOk(st.memory, g, owner[g])
    ensures Kinds(st, owner)
  {
  }

  lemma CountedSame(st: Store, owner: map<nat, Use>, st': Store)
    requires Counted(st, owner) && st'.spaces == st.spaces
    ensures Counted(st', owner)
  {
  }

  // ----- Private tables ---------------------------------------------------------------------

  /** Directory entry `i` of `h` became `w`; every other directory word and all user
      and stack words are as they were. */
  ghost predicate DirChanged(st: Store, st': Store, h: nat, i: nat, w: Word) {
    && st'.spaces.Keys == st.spaces.Keys
    && (forall g :: g in st.spaces ==> st'.spaces[g].directory == st.spaces[g].directory)
    && (forall g, k :: DirWord(st', g, k) == if g == h && k == i then w else DirWord(st, g, k))
    && (forall g, k, l :: UserWord(st', g, k, l) == UserWord(st, g, k, l))
    && (forall l :: StackWord(st', l) == StackWord(st, l))
  }

  function EmptyTable(): Page { Table(seq(ENTRIES, i => NONE)) }

  /** A new, empty private table. */
  lemma AddTable(st: Store, owner: map<nat, Use>, h: nat, i: nat, f: nat, st': Store)
    requires Books(st, owner) && h in st.spaces && InUser(h, i) && i !in st.spaces[h].owned && f !in owner
    requires st' == Store(PutWord(st.memory[f := EmptyTable()], st.spaces[h].directory, i, Word(f, true, true, true)),
                          st.spaces[h := st.spaces[h].(tables := st.spaces[h].tables + 1,
                                                       owned := st.spaces[h].owned + {i})])
    ensures Books(st', owner[f := Private(h, i)]) && DirChanged(st, st', h, i, Word(f, true, true, true))
    ensures forall g :: g in st.memory && g != f && g != st.spaces[h].directory ==>
      g in st'.memory && st'.memory[g] == st.memory[g]
  {
    AddTableWords(st, owner, h, i, f, st');
    hide Inverse, Kinds, Formed, Counted, UserWord, StackWord, DirWord, UsersOf, TablesOf;
    var u := Private(h, i);
    assert FrameOf(st, u).None? by { FormedDir(st, h, i); }
    forall v: Use | v != u
      ensures FrameOf(st', v) == FrameOf(st, v)
    {
      DirFrame(st, st', h, i, Word(f, true, true, true), v);
    }
    Gained(st, owner, st', u, f);
    KindsGained(st', owner, f, u);
    CountedGained(st, owner, st', f, u);
    FormedTable(st, st', h, i, Word(f, true, true, true));
  }

  lemma FormedDir(st: Store, h: nat, i: nat)
    requires Formed(st) && h in st.spaces
    ensures DirOk(st, h, i)
  {
  }

  lemma BooksDir(st: Store, owner: map<nat, Use>, h: nat, i: nat)
    requires Books(st, owner) && h in st.spaces
    ensures DirOk(st, h, i)
  {
  }

  lemma DirFrame(st: Store, st': Store, h: nat, i: nat, w: Word, v: Use)
    requires DirChanged(st, st', h, i, w) && InUser(h, i) && v != Private(h, i)
    ensures FrameOf(st', v) == FrameOf(st, v)
  {
  }

  lemma FormedTable(st: Store, st': Store, h: nat, i: nat, w: Word)
    requires Formed(st) && DirChanged(st, st', h, i, w) && InUser(h, i) && h in st.spaces
    requires forall g :: g in st.spaces && g != h ==> st'.spaces[g].owned == st.spaces[g].owned
    requires if w == NONE then st'.spaces[h].owned == st.spaces[h].owned - {i}
             else IsUserTable(w) && st'.spaces[h].owned == st.spaces[h].owned + {i}
    ensures Formed(st')
  {
    hide UserWord, StackWord, DirWord;
    forall g, k: nat | g in st'.spaces
      ensures DirOk(st', g, k)
    {
      assert DirOk(st, g, k);
    }
  }

  lemma AddTableWords(st: Store, owner: map<nat, Use>, h: nat, i: nat, f: nat, st': Store)
    requires Books(st, owner) && h in st.spaces && InUser(h, i) && i !in st.spaces[h].owned && f !in owner
    requires st' == Store(PutWord(st.memory[f := EmptyTable()], st.spaces[h].directory, i, Word(f, true, true, true)),
                          st.spaces[h := st.spaces[h].(tables := st.spaces[h].tables + 1,
                                                       owned := st.spaces[h].owned + {i})])
    ensures DirChanged(st, st', h, i, Word(f, true, true, true))
    ensures forall g :: g in owner ==> KindOk(st'.memory, g, owner[g])
    ensures KindOk(st'.memory, f, Private(h, i))
    ensures forall g :: g in st.memory && g != f && g != st.spaces[h].directory ==>
      g in st'.memory && st'.memory[g] == st.memory[g]
  {
    hide Inverse, Kinds, Formed, Counted, UserWord, StackWord, FrameOf;
    var filled := st.(memory := st.memory[f := EmptyTable()]);
    FreshFrame(st, owner, f, EmptyTable());
    SameInverse(st, owner, filled);
    var w := Word(f, true, true, true);
    DirWrite(filled, owner, h, i, w);
    KindsPut(filled, owner, st.spaces[h].directory, i, w);
    SpacesOnly(filled.(memory := st'.memory), st');
    FreshTable(st, owner, h, i, f, st');
  }

  lemma FreshTable(st: Store, owner: map<nat, Use>, h: nat, i: nat, f: nat, st': Store)
    requires Books(st, owner) && h in st.spaces && InUser(h, i) && i !in st.spaces[h].owned && f !in owner
    requires st'.memory == PutWord(st.memory[f := EmptyTable()], st.spaces[h].directory, i, Word(f, true, true, true))
    requires st'.spaces.Keys == st.spaces.Keys && forall g :: g in st.spaces ==>
      st'.spaces[g].directory == st.spaces[g].directory
    requires forall g, k ::
      DirWord(st', g, k) == if g == h && k == i then Word(f, true, true, true) else DirWord(st, g, k)
    ensures KindOk(st'.memory, f, Private(h, i))
    ensures forall g, k, l :: UserWord(st', g, k, l) == UserWord(st, g, k, l)
    ensures forall l :: StackWord(st', l) == StackWord(st, l)
  {
    hide Counted, Formed;
    assert FrameOf(st, Directory(h)) == Some(st.spaces[h].directory);
    assert forall l :: WordAt(st'.memory, f, l) == NONE;
    forall g, k, l
      ensures UserWord(st', g, k, l) == UserWord(st, g, k, l)
    {
      if g == h && k == i {
        FormedDir(st, h, i);
      } else {
        if InUser(g, k) && DirWord(st, g, k).present { TableFrame(st, owner, g, k); }
      }
    }
    assert FrameOf(st, Shared(STACK_TABLE)) == Frame(DirWord(st, KERNEL, STACK_TABLE));
  }

  lemma TableFrame(st: Store, owner: map<nat, Use>, h: nat, i: nat)
    requires Inverse(st, owner) && InUser(h, i) && DirWord(st, h, i).present
    ensures DirWord(st, h, i).frame in owner && owner[DirWord(st, h, i).frame] == Private(h, i)
  {
    assert FrameOf(st, Private(h, i)) == Some(DirWord(st, h, i).frame);
  }

  /** An empty private table goes back. */
  lemma DropTable(st: Store, owner: map<nat, Use>, h: nat, i: nat, st': Store)
    requires Books(st, owner) && h in st.spaces && i in st.spaces[h].owned && TableEmpty(st, h, i)
    requires st.spaces[h].tables > 0
    requires st' == Store(PutWord(st.memory, st.spaces[h].directory, i, NONE),
                          st.spaces[h := st.spaces[h].(tables := st.spaces[h].tables - 1,
                                                       owned := st.spaces[h].owned - {i})])
    ensures Books(st', owner - {DirWord(st, h, i).frame}) && DirChanged(st, st', h, i, NONE)
    ensures forall g :: g in st.memory && g != st.spaces[h].directory ==>
      g in st'.memory && st'.memory[g] == st.memory[g]
  {
    hide Inverse, Kinds, Formed, Counted, UserWord, StackWord, DirWord, UsersOf, TablesOf, TableEmpty, KindOk;
    DropTableWords(st, owner, h, i, st');
    OwnedTable(st, owner, h, i);
    var u := Private(h, i);
    forall v: Use | v != u ensures FrameOf(st', v) == FrameOf(st, v) { DirFrame(st, st', h, i, NONE, v); }
    Lost(st, owner, st', u, DirWord(st, h, i).frame);
    KindsLost(st', owner, DirWord(st, h, i).frame);
    CountedLost(st, owner, st', DirWord(st, h, i).frame);
    FormedTable(st, st', h, i, NONE);
  }

  lemma DropTableWords(st: Store, owner: map<nat, Use>, h: nat, i: nat, st': Store)
    requires Books(st, owner) && h in st.spaces && i in st.spaces[h].owned && TableEmpty(st, h, i)
    requires st'.memory == PutWord(st.memory, st.spaces[h].directory, i, NONE) && st'.spaces.Keys == st.spaces.Keys
    requires forall g :: g in st.spaces ==> st'.spaces[g].directory == st.spaces[g].directory
    ensures DirChanged(st, st', h, i, NONE)
    ensures forall g :: g in owner ==> KindOk(st'.memory, g, owner[g])
    ensures forall g :: g in st.memory && g != st.spaces[h].directory ==>
      g in st'.memory && st'.memory[g] == st.memory[g]
  {
    hide Inverse, Kinds, Formed, Counted, UserWord, StackWord, FrameOf;
    OwnedTable(st, owner, h, i);
    DirWrite(st, owner, h, i, NONE);
    KindsPut(st, owner, st.spaces[h].directory, i, NONE);
    SpacesOnly(st.(memory := st'.memory), st');
    GoneTable(st, owner, h, i, st');
  }

  lemma GoneTable(st: Store, owner: map<nat, Use>, h: nat, i: nat, st': Store)
    requires Books(st, owner) && h in st.spaces && i in st.spaces[h].owned && TableEmpty(st, h, i)
    requires st'.memory == PutWord(st.memory, st.spaces[h].directory, i, NONE)
    requires st'.spaces.Keys == st.spaces.Keys && forall g :: g in st.spaces ==>
      st'.spaces[g].directory == st.spaces[g].directory
    requires forall g, k :: DirWord(st', g, k) == if g == h && k == i then NONE else DirWord(st, g, k)
    ensures forall g, k, l :: UserWord(st', g, k, l) == UserWord(st, g, k, l)
    ensures forall l :: StackWord(st', l) == StackWord(st, l)
  {
    hide Counted;
    assert FrameOf(st, Directory(h)) == Some(st.spaces[h].directory);
    OwnedTable(st, owner, h, i);
    forall g: nat, k: nat, l: nat
      ensures UserWord(st', g, k, l) == UserWord(st, g, k, l)
    {
      if InUser(g, k) && DirWord(st, g, k).present { TableFrame(st, owner, g, k); }
      if g == h && k == i { assert l < ENTRIES ==> !UserWord(st, h, i, l).present; }
    }
    assert FrameOf(st, Shared(STACK_TABLE)) == Frame(DirWord(st, KERNEL, STACK_TABLE));
  }

  // ----- Shared tables and kernel stacks ------------------------------------------------------

  /** Entry `i` of every directory became `w`; nothing else changed. */
  ghost predicate Published(st: Store, st': Store, i: nat, w: Word) {
    && st'.spaces == st.spaces
    && (forall g: nat, k: nat :: DirWord(st', g, k) == if g in st.spaces && k == i then w else DirWord(st, g, k))
    && (forall g, k, l :: UserWord(st', g, k, l) == UserWord(st, g, k, l))
  }

  lemma PublishedFrame(st: Store, st': Store, i: nat, w: Word, v: Use)
    requires Published(st, st', i, w) && i < KERNEL_ENTRIES && v != Shared(i)
    requires v.Stack? ==> StackWord(st', v.entry) == StackWord(st, v.entry)
    ensures FrameOf(st', v) == FrameOf(st, v)
  {
  }

  lemma FormedShared(st: Store, st': Store, i: nat, w: Word)
    requires Formed(st) && Published(st, st', i, w) && i < KERNEL_ENTRIES
    requires w == NONE || IsKernel(w)
    requires forall l :: StackWord(st', l) == StackWord(st, l)
    ensures Formed(st')
  {
    hide UserWord, StackWord, DirWord;
    forall g, k: nat | g in st'.spaces
      ensures DirOk(st', g, k)
    {
      assert DirOk(st, g, k);
    }
  }

  /** A new, empty shared table, visible in every directory. */
  lemma AddShared(st: Store, owner: map<nat, Use>, i: nat, f: nat, st': Store)
    requires Books(st, owner) && i < KERNEL_ENTRIES && DirWord(st, KERNEL, i) == NONE && f !in owner
    requires Published(st, st', i, Word(f, true, true, false)) && (forall l :: StackWord(st', l) == StackWord(st, l))
    requires (forall g :: g in owner ==> KindOk(st'.memory, g, owner[g])) && KindOk(st'.memory, f, Shared(i))
    ensures Books(st', owner[f := Shared(i)])
  {
    assert KERNEL in st.spaces;
    hide Inverse, Kinds, Formed, Counted, UserWord, StackWord, DirWord, UsersOf, TablesOf;
    var u := Shared(i);
    forall v: Use | v != u
      ensures FrameOf(st', v) == FrameOf(st, v)
    {
      PublishedFrame(st, st', i, Word(f, true, true, false), v);
    }
    Gained(st, owner, st', u, f);
    KindsGained(st', owner, f, u);
    CountedGained(st, owner, st', f, u);
    FormedShared(st, st', i, Word(f, true, true, false));
  }

  /** An unused shared table is withdrawn from every directory. */
  lemma DropShared(st: Store, owner: map<nat, Use>, i: nat, st': Store)
    requires Books(st, owner) && i < KERNEL_ENTRIES && DirWord(st, KERNEL, i).present
    requires Published(st, st', i, NONE) && (forall l :: StackWord(st', l) == StackWord(st, l))
    requires forall g :: g in owner ==> KindOk(st'.memory, g, owner[g])
    ensures Books(st', owner - {DirWord(st, KERNEL, i).frame})
    ensures DirWord(st, KERNEL, i).frame in owner && owner[DirWord(st, KERNEL, i).frame] == Shared(i)
  {
    var u, f := Shared(i), DirWord(st, KERNEL, i).frame;
    assert FrameOf(st, u) == Some(f);
    hide Inverse, Kinds, Formed, Counted, UserWord, StackWord, DirWord, UsersOf, TablesOf;
    forall v: Use | v != u ensures FrameOf(st', v) == FrameOf(st, v) { PublishedFrame(st, st', i, NONE, v); }
    Lost(st, owner, st', u, f);
    KindsLost(st', owner, f);
    assert f in owner && owner[f] == u by { InverseAt(st, owner, u); }
    CountedLost(st, owner, st', f);
    FormedShared(st, st', i, NONE);
  }

  lemma InverseAt(st: Store, owner: map<nat, Use>, u: Use)
    requires Inverse(st, owner) && FrameOf(st, u).Some?
    ensures FrameOf(st, u).value in owner && owner[FrameOf(st, u).value] == u
  {
  }

  ghost predicate StackChanged(st: Store, st': Store, j: nat, w: Word) {
    && SameDirs(st, st') && (forall g, k, l :: UserWord(st', g, k, l) == UserWord(st, g, k, l))
    && (forall l :: StackWord(st', l) == if l == j then w else StackWord(st, l))
  }

  lemma MapStack(st: Store, owner: map<nat, Use>, j: nat, f: nat, page: Page, st': Store)
    requires Books(st, owner) && DirWord(st, KERNEL, STACK_TABLE).present && j < ENTRIES && StackWord(st, j) == NONE
    requires f !in owner && page.Bytes? && |page.data| == PAGE
    requires st' ==
      st.(memory := PutWord(st.memory[f := page], DirWord(st, KERNEL, STACK_TABLE).frame, j,
                            Word(f, true, true, false)))
    ensures Books(st', owner[f := Stack(j)]) && StackChanged(st, st', j, Word(f, true, true, false))
    ensures forall g :: g in st.memory && g != f && g != DirWord(st, KERNEL, STACK_TABLE).frame ==>
      g in st'.memory && st'.memory[g] == st.memory[g]
    ensures f in st'.memory && st'.memory[f] == page
  {
    hide Inverse, Kinds, Formed, Counted, UserWord, StackWord, DirWord, PutWord;
    var w, t := Word(f, true, true, false), DirWord(st, KERNEL, STACK_TABLE).frame;
    InverseAt(st, owner, Shared(STACK_TABLE));
    var filled := st.(memory := st.memory[f := page]);
    FreshFrame(st, owner, f, page);
    SameInverse(st, owner, filled);
    StackWrite(filled, owner, j, w);
    KindsPut(filled, owner, t, j, w);
    MapStackBooks(st, owner, j, f, st');
  }

  lemma MapStackBooks(st: Store, owner: map<nat, Use>, j: nat, f: nat, st': Store)
    requires Books(st, owner) && StackWord(st, j) == NONE && f !in owner && st'.spaces == st.spaces
    requires StackChanged(st, st', j, Word(f, true, true, false))
    requires (forall g :: g in owner ==> KindOk(st'.memory, g, owner[g])) && KindOk(st'.memory, f, Stack(j))
    ensures Books(st', owner[f := Stack(j)])
  {
    hide Inverse, Kinds, Formed, Counted, UserWord, StackWord, DirWord, UsersOf, TablesOf;
    var u := Stack(j);
    forall v: Use | v != u ensures FrameOf(st', v) == FrameOf(st, v) { SameFrame(st, st', v); }
    Gained(st, owner, st', u, f);
    KindsGained(st', owner, f, u);
    CountedGained(st, owner, st', f, u);
    FormedStack(st, st', j, Word(f, true, true, false));
  }

  lemma FormedStack(st: Store, st': Store, j: nat, w: Word)
    requires Formed(st) && st'.spaces == st.spaces && StackChanged(st, st', j, w)
    requires w == NONE || IsKernel(w)
    ensures Formed(st')
  {
    StillFormed(st, st', KERNEL);
  }

  lemma StackInTable(st: Store, owner: map<nat, Use>, j: nat)
    requires Books(st, owner) && StackWord(st, j).present
    ensures j < ENTRIES && DirWord(st, KERNEL, STACK_TABLE).present
  {
    assert FrameOf(st, Shared(STACK_TABLE)) == Some(DirWord(st, KERNEL, STACK_TABLE).frame);
  }

  lemma UnmapStack(st: Store, owner: map<nat, Use>, j: nat, st': Store)
    requires Books(st, owner) && StackWord(st, j).present
    requires st' == st.(memory := PutWord(st.memory, DirWord(st, KERNEL, STACK_TABLE).frame, j, NONE))
    ensures Books(st', owner - {StackWord(st, j).frame}) && StackChanged(st, st', j, NONE)
    ensures StackWord(st, j).frame in owner && owner[StackWord(st, j).frame] == Stack(j)
    ensures forall g :: g in st.memory && g != DirWord(st, KERNEL, STACK_TABLE).frame ==>
      g in st'.memory && st'.memory[g] == st.memory[g]
  {
    hide Inverse, Kinds, Formed, Counted, UserWord, StackWord, DirWord, PutWord;
    var t, f := DirWord(st, KERNEL, STACK_TABLE).frame, StackWord(st, j).frame;
    StackInTable(st, owner, j);
    InverseAt(st, owner, Stack(j));
    StackWrite(st, owner, j, NONE);
    KindsPut(st, owner, t, j, NONE);
    forall v: Use | v != Stack(j) ensures FrameOf(st', v) == FrameOf(st, v) { SameFrame(st, st', v); }
    Lost(st, owner, st', Stack(j), f);
    KindsLost(st', owner, f);
    CountedLost(st, owner, st', f);
    FormedStack(st, st', j, NONE);
  }

  // ----- Whole spaces ---------------------------------------------------------------------------

  predicate OfSpace(u: Use, h: nat) {
    (u.Directory? || u.Private? || u.User?) && u.space == h
  }

  /** The frames the ledger records for one space. */
  ghost function FramesOf(owner: map<nat, Use>, h: nat): set<nat> {
    set f | f in owner && OfSpace(owner[f], h)
  }

  /** A new directory: the kernel's lower half, nothing above. */
  function NewDirectory(st: Store): Page {
    Table(seq(ENTRIES, i requires 0 <= i => if i < KERNEL_ENTRIES then DirWord(st, KERNEL, i) else NONE))
  }

  lemma NewSpace(st: Store, owner: map<nat, Use>, h: nat, f: nat, st': Store)
    requires Books(st, owner) && h !in st.spaces && f !in owner
    requires st' == Store(st.memory[f := NewDirectory(st)], st.spaces[h := Space(f, 0, 0, {})])
    ensures Books(st', owner[f := Directory(h)])
    ensures (forall g, k, l :: UserWord(st', g, k, l) == UserWord(st, g, k, l))
    ensures (forall l :: StackWord(st', l) == StackWord(st, l))
    ensures forall g: nat, k: nat ::
      DirWord(st', g, k) ==
        if g != h then DirWord(st, g, k) else if k < KERNEL_ENTRIES then DirWord(st, KERNEL, k) else NONE
  {
    NewSpaceWords(st, owner, h, f, st');
    assert KERNEL in st.spaces;
    hide Inverse, Kinds, Formed, Counted, UserWord, StackWord, DirWord, UsersOf, TablesOf;
    var u := Directory(h);
    forall v: Use | v != u
      ensures FrameOf(st', v) == FrameOf(st, v)
    {
    }
    Gained(st, owner, st', u, f);
    KindsGained(st', owner, f, u);
    NewSpaceCounts(st, owner, h, f, st');
    FormedNew(st, h, st');
  }

  lemma NewSpaceWords(st: Store, owner: map<nat, Use>, h: nat, f: nat, st': Store)
    requires Books(st, owner) && h !in st.spaces && f !in owner
    requires st' == Store(st.memory[f := NewDirectory(st)], st.spaces[h := Space(f, 0, 0, {})])
    ensures (forall g, k, l :: UserWord(st', g, k, l) == UserWord(st, g, k, l))
    ensures (forall l :: StackWord(st', l) == StackWord(st, l))
    ensures forall g: nat, k: nat ::
      DirWord(st', g, k) ==
        if g != h then DirWord(st, g, k) else if k < KERNEL_ENTRIES then DirWord(st, KERNEL, k) else NONE
    ensures (forall g :: g in owner ==> KindOk(st'.memory, g, owner[g])) && KindOk(st'.memory, f, Directory(h))
  {
    hide Formed, Counted;
    assert KERNEL in st.spaces by { FormedKernel(st); }
    FreshFrame(st, owner, f, NewDirectory(st));
    var filled := st.(memory := st'.memory);
    forall g: nat, k: nat
      ensures DirWord(st', g, k) ==
        if g != h then DirWord(st, g, k) else if k < KERNEL_ENTRIES then DirWord(st, KERNEL, k) else NONE
    {
      if g != h { assert DirWord(st', g, k) == DirWord(filled, g, k); }
    }
    forall g, k, l
      ensures UserWord(st', g, k, l) == UserWord(st, g, k, l)
    {
      if g != h { assert UserWord(st', g, k, l) == UserWord(filled, g, k, l); }
    }
    forall l
      ensures StackWord(st', l) == StackWord(st, l)
    {
      assert StackWord(st', l) == StackWord(filled, l);
    }
  }

  lemma FormedKernel(st: Store)
    requires Formed(st)
    ensures KERNEL in st.spaces && st.spaces[KERNEL].owned == {}
  {
  }

  lemma FormedNew(st: Store, h: nat, st': Store)
    requires Formed(st) && h !in st.spaces && st'.spaces.Keys == st.spaces.Keys + {h} && st'.spaces[h].owned == {}
    requires forall g :: g in st.spaces ==> st'.spaces[g] == st.spaces[g]
    requires (forall g, k, l :: UserWord(st', g, k, l) == UserWord(st, g, k, l))
    requires (forall l :: StackWord(st', l) == StackWord(st, l))
    requires forall g: nat, k: nat ::
      DirWord(st', g, k) ==
        if g != h then DirWord(st, g, k) else if k < KERNEL_ENTRIES then DirWord(st, KERNEL, k) else NONE
    ensures Formed(st')
  {
    hide UserWord, StackWord, DirWord;
    forall g, k: nat | g in st'.spaces
      ensures DirOk(st', g, k)
    {
      assert DirOk(st, KERNEL, k);
      if g in st.spaces { assert DirOk(st, g, k); }
    }
  }

  lemma NewSpaceCounts(st: Store, owner: map<nat, Use>, h: nat, f: nat, st': Store)
    requires Inverse(st, owner) && Counted(st, owner) && h !in st.spaces && f !in owner
    requires st'.spaces == st.spaces[h := Space(f, 0, 0, {})]
    ensures Counted(st', owner[f := Directory(h)])
  {
    forall g | g in st'.spaces
      ensures st'.spaces[g].pages == |UsersOf(owner[f := Directory(h)], g)|
      ensures st'.spaces[g].tables == |TablesOf(owner[f := Directory(h)], g)|
    {
      GainedCounts(owner, f, Directory(h), g);
      if g == h { NoFrames(st, owner, h); }
    }
  }

  /** An unregistered space has no frames. */
  lemma NoFrames(st: Store, owner: map<nat, Use>, h: nat)
    requires Inverse(st, owner) && h !in st.spaces
    ensures UsersOf(owner, h) == {} && TablesOf(owner, h) == {}
  {
    forall f | f in owner
      ensures !OfSpace(owner[f], h)
    {
      assert FrameOf(st, owner[f]) == Some(f);
    }
  }

  /** A space leaves with all its frames; no other mapping changes. */
  lemma DropSpace(st: Store, owner: map<nat, Use>, h: nat, st': Store)
    requires Books(st, owner) && h in st.spaces && h != KERNEL && st' == st.(spaces := st.spaces - {h})
    ensures Books(st', owner - FramesOf(owner, h))
    ensures (forall g, k, l :: g != h ==> UserWord(st', g, k, l) == UserWord(st, g, k, l))
    ensures (forall l :: StackWord(st', l) == StackWord(st, l))
    ensures forall g, k :: g != h ==> DirWord(st', g, k) == DirWord(st, g, k)
  {
    var owner' := owner - FramesOf(owner, h);
    DroppedInverse(st, owner, h, st');
    DroppedCounts(st, owner, h, st');
    assert Kinds(st', owner');
    FormedDropped(st, h, st');
  }

  lemma DroppedInverse(st: Store, owner: map<nat, Use>, h: nat, st': Store)
    requires Inverse(st, owner) && h in st.spaces && h != KERNEL && st' == st.(spaces := st.spaces - {h})
    ensures Inverse(st', owner - FramesOf(owner, h))
  {
    var owner' := owner - FramesOf(owner, h);
    forall u: Use
      ensures FrameOf(st', u) == if OfSpace(u, h) then None else FrameOf(st, u)
    {
    }
    forall f | f in owner'
      ensures FrameOf(st', owner'[f]) == Some(f)
    {
      assert FrameOf(st, owner[f]) == Some(f);
    }
  }

  lemma DroppedCounts(st: Store, owner: map<nat, Use>, h: nat, st': Store)
    requires Counted(st, owner) && st'.spaces == st.spaces - {h}
    ensures Counted(st', owner - FramesOf(owner, h))
  {
    var owner' := owner - FramesOf(owner, h);
    forall g | g in st'.spaces
      ensures st'.spaces[g].pages == |UsersOf(owner', g)| && st'.spaces[g].tables == |TablesOf(owner', g)|
    {
      assert UsersOf(owner', g) == UsersOf(owner, g);
      assert TablesOf(owner', g) == TablesOf(owner, g);
    }
  }

  lemma FormedDropped(st: Store, h: nat, st': Store)
    requires Formed(st) && h != KERNEL && st' == st.(spaces := st.spaces - {h})
    ensures Formed(st')
  {
    forall g, k: nat | g in st'.spaces
      ensures DirOk(st', g, k)
    {
      assert DirOk(st, g, k);
    }
    forall g, k, l
      ensures UserWord(st', g, k, l) == if g == h then NONE else UserWord(st, g, k, l)
    {
    }
    assert forall l :: StackWord(st', l) == StackWord(st, l);
  }
}
