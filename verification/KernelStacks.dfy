/** Kernel-entry stacks: four frames above an unmapped guard page, in a shared table. */
module KernelStacks {
  import opened Common
  import opened Frames
  import opened PageTables
  import opened PageSteps
  import opened PageRuns
  import opened Paging

  const STACK_SLOTS := 18
  const STACK_PAGES := 4
  const STRIDE := 5 // a guard page and the stack, in pages

  /** The table entry of the guard page; the stack's entries follow it. */
  function Guard(slot: nat): nat { slot * STRIDE }

  predicate OnStack(base: nat, n: nat, l: nat) { base <= l < base + n }

  // ----- Publishing an entry in every directory ----------------------------------------------------

  ghost function Directories(spaces: map<nat, Space>, handles: set<nat>): set<nat> {
    set h | h in handles && h in spaces :: spaces[h].directory
  }

  /** Entry `i` of the tables in `dirs` became `w`; no other word of memory changed. */
  ghost predicate Written(memory: map<nat, Page>, memory': map<nat, Page>, dirs: set<nat>, i: nat, w: Word) {
    && memory'.Keys == memory.Keys
    && (forall f :: f in memory && f !in dirs ==> memory'[f] == memory[f])
    && (forall f :: f in dirs && f in memory && memory[f].Table? && i < |memory[f].words| ==>
          memory'[f] == Table(memory[f].words[i := w]))
  }

  /** Write the entry into every registered directory, the kernel's first. */
  method PublishKernelEntry(s: AddressSpaces, i: nat, w: Word)
    requires Books(s.St(), s.owner) && Enrolled(s.spaces, s.order) && i < ENTRIES
    modifies s`memory
    ensures Written(old(s.memory), s.memory, Directories(s.spaces, s.spaces.Keys), i, w)
  {
    hide Books, Written, Directories, PutWord;
    AreTables(s.St(), s.owner);
    ghost var done: set<nat> := {};
    assert Written(s.memory, s.memory, Directories(s.spaces, {}), i, w) by { WrittenNothing(s.memory, s.spaces, i, w); }
    WrittenStep(s.memory, s.memory, s.spaces, done, KERNEL, i, w);
    s.memory := PutWord(s.memory, s.spaces[KERNEL].directory, i, w);
    done := done + {KERNEL};
    for k := 0 to |s.order|
      invariant forall h :: h in done <==> h == KERNEL || h in s.order[..k]
      invariant Written(old(s.memory), s.memory, Directories(s.spaces, done), i, w)
    {
      var h := s.order[k];
      assert h in s.order;
      WrittenStep(old(s.memory), s.memory, s.spaces, done, h, i, w);
      s.memory := PutWord(s.memory, s.spaces[h].directory, i, w);
      done := done + {h};
      assert s.order[..k + 1] == s.order[..k] + [h];
    }
    assert s.order[..|s.order|] == s.order;
    assert done == s.spaces.Keys;
  }

  lemma WrittenNothing(memory: map<nat, Page>, spaces: map<nat, Space>, i: nat, w: Word)
    ensures Written(memory, memory, Directories(spaces, {}), i, w)
  {
  }

  /** One more directory written. */
  lemma WrittenStep(memory0: map<nat, Page>, memory: map<nat, Page>, spaces: map<nat, Space>, done: set<nat>, h: nat,
                    i: nat, w: Word)
    requires Written(memory0, memory, Directories(spaces, done), i, w) && h in spaces
    requires var f := spaces[h].directory; f in memory0 && memory0[f].Table? && i < |memory0[f].words|
    ensures Written(memory0, PutWord(memory, spaces[h].directory, i, w), Directories(spaces, done + {h}), i, w)
  {
    assert Directories(spaces, done + {h}) == Directories(spaces, done) + {spaces[h].directory};
  }

  lemma AreTables(st: Store, owner: map<nat, Use>)
    requires Books(st, owner)
    ensures KERNEL in st.spaces
    ensures forall h :: h in st.spaces ==>
      st.spaces[h].directory in st.memory && st.memory[st.spaces[h].directory].Table? &&
      |st.memory[st.spaces[h].directory].words| == ENTRIES
  {
    forall h | h in st.spaces
      ensures st.spaces[h].directory in st.memory && st.memory[st.spaces[h].directory].Table?
      ensures |st.memory[st.spaces[h].directory].words| == ENTRIES
    {
      assert FrameOf(st, Directory(h)) == Some(st.spaces[h].directory);
    }
  }

  /** What was written shows in every directory and in no user table. */
  lemma WrittenPublished(st: Store, owner: map<nat, Use>, st': Store, i: nat, w: Word)
    requires Books(st, owner) && i < KERNEL_ENTRIES && st'.spaces == st.spaces
    requires Written(st.memory, st'.memory, Directories(st.spaces, st.spaces.Keys), i, w)
    ensures Published(st, st', i, w)
    ensures forall g :: g in owner ==> KindOk(st'.memory, g, owner[g])
    ensures forall f :: f in owner && !owner[f].Directory? ==>
      f in st.memory && f in st'.memory && st'.memory[f] == st.memory[f]
  {
    hide Formed, Counted, Kinds, Inverse, Directories, Written;
    WrittenKinds(st, owner, st', i, w);
    forall g: nat, k: nat
      ensures DirWord(st', g, k) == if g in st.spaces && k == i then w else DirWord(st, g, k)
    {
      WrittenDir(st, owner, st', i, w, g, k);
    }
    forall g, k, l
      ensures UserWord(st', g, k, l) == UserWord(st, g, k, l)
    {
      if InUser(g, k) && DirWord(st, g, k).present { TableFrame(st, owner, g, k); }
    }
  }

  lemma WrittenDir(st: Store, owner: map<nat, Use>, st': Store, i: nat, w: Word, g: nat, k: nat)
    requires Books(st, owner) && i < ENTRIES && st'.spaces == st.spaces
    requires Written(st.memory, st'.memory, Directories(st.spaces, st.spaces.Keys), i, w)
    ensures DirWord(st', g, k) == if g in st.spaces && k == i then w else DirWord(st, g, k)
  {
    hide Books;
    AreTables(st, owner);
    if g in st.spaces { assert st.spaces[g].directory in Directories(st.spaces, st.spaces.Keys); }
  }

  lemma WrittenKinds(st: Store, owner: map<nat, Use>, st': Store, i: nat, w: Word)
    requires Books(st, owner) && i < KERNEL_ENTRIES && st'.spaces == st.spaces
    requires Written(st.memory, st'.memory, Directories(st.spaces, st.spaces.Keys), i, w)
    ensures forall g :: g in owner ==> KindOk(st'.memory, g, owner[g])
    ensures forall f :: f in owner && !owner[f].Directory? ==>
      f in st.memory && f in st'.memory && st'.memory[f] == st.memory[f]
  {
    OnlyDirectories(st, owner);
    hide Formed, Counted, Inverse, Directories;
    forall f | f in owner
      ensures KindOk(st'.memory, f, owner[f]) && (!owner[f].Directory? ==> st'.memory[f] == st.memory[f])
    {
      assert KindOk(st.memory, f, owner[f]);
      if f in Directories(st.spaces, st.spaces.Keys) { assert st'.memory[f] == Table(st.memory[f].words[i := w]); }
    }
  }

  lemma OnlyDirectories(st: Store, owner: map<nat, Use>)
    requires Books(st, owner)
    ensures forall f :: f in Directories(st.spaces, st.spaces.Keys) ==> f in owner && owner[f].Directory?
  {
    forall f | f in Directories(st.spaces, st.spaces.Keys)
      ensures f in owner && owner[f].Directory?
    {
      var h :| h in st.spaces && st.spaces[h].directory == f;
      assert FrameOf(st, Directory(h)) == Some(f);
    }
  }

  // ----- One step at a time ---------------------------------------------------------------------------

  /** A stack page given out since: mapped for the kernel, zero-filled, on a new frame. */
  predicate StackPage(st: Store, owner0: map<nat, Use>, w: Word) {
    IsKernel(w) && w.frame !in owner0 && w.frame in st.memory && st.memory[w.frame] == ZEROED
  }

  predicate NewStackUse(u: Use, base: nat, n: nat, created: bool) {
    (created && u == Shared(STACK_TABLE)) || (u.Stack? && OnStack(base, n, u.entry))
  }

  /** From `st0`, `n` stack pages from entry `base` on were mapped and, if `created`, the
      table they lie in was made; nothing else changed. */
  ghost predicate Risen(st0: Store, owner0: map<nat, Use>, st: Store, owner: map<nat, Use>, base: nat, n: nat,
                        created: bool) {
    && st.spaces == st0.spaces && (created ==> DirWord(st0, KERNEL, STACK_TABLE) == NONE)
    && RisenWords(st0, owner0, st, base, n, created)
    && (forall f :: f in owner0 ==> f in owner && owner[f] == owner0[f])
    && (forall f :: f in owner && f !in owner0 ==> NewStackUse(owner[f], base, n, created))
    && (forall f :: f in owner0 && !owner0[f].Directory? && owner0[f] != Shared(STACK_TABLE) && f in st0.memory ==>
          f in st.memory && st.memory[f] == st0.memory[f])
  }

  ghost predicate RisenWords(st0: Store, owner0: map<nat, Use>, st: Store, base: nat, n: nat, created: bool) {
    && (forall g: nat, k: nat :: !(created && k == STACK_TABLE && g in st0.spaces) ==>
          DirWord(st, g, k) == DirWord(st0, g, k))
    && (forall g, k, l :: UserWord(st, g, k, l) == UserWord(st0, g, k, l))
    && (forall l :: !OnStack(base, n, l) ==> StackWord(st, l) == StackWord(st0, l))
    && (forall l :: OnStack(base, n, l) ==> StackPage(st, owner0, StackWord(st, l)))
  }

  lemma RisenStart(st: Store, owner: map<nat, Use>, base: nat)
    ensures Risen(st, owner, st, owner, base, 0, false)
  {
  }

  lemma RisenNoneEmpty(st0: Store, owner0: map<nat, Use>, st: Store, owner: map<nat, Use>, base: nat, n: nat,
                       created: bool)
    requires Risen(st0, owner0, st, owner, base, n, created) && NoneEmpty(st0)
    ensures NoneEmpty(st)
  {
    hide UserWord;
    forall g, i | g in st.spaces && i in st.spaces[g].owned
      ensures !TableEmpty(st, g, i)
    {
      assert !TableEmpty(st0, g, i);
      var j: nat :| j < ENTRIES && UserWord(st0, g, i, j).present;
      assert UserWord(st, g, i, j).present;
    }
  }

  /** The table is there. */
  lemma StackTableFrame(st: Store, owner: map<nat, Use>)
    requires Books(st, owner) && DirWord(st, KERNEL, STACK_TABLE) != NONE
    ensures var w := DirWord(st, KERNEL, STACK_TABLE);
      IsKernel(w) && w.frame in owner && owner[w.frame] == Shared(STACK_TABLE)
    ensures KindOk(st.memory, DirWord(st, KERNEL, STACK_TABLE).frame, Shared(STACK_TABLE))
  {
    assert DirOk(st, KERNEL, STACK_TABLE);
    assert FrameOf(st, Shared(STACK_TABLE)) == Some(DirWord(st, KERNEL, STACK_TABLE).frame);
  }

  /** Make the shared table, empty, and show it in every directory. */
  method AddStackTable(s: AddressSpaces, base: nat) returns (ok: bool)
    requires s.Sound() && DirWord(s.St(), KERNEL, STACK_TABLE) == NONE
    modifies s`memory, s`owner, s.pmm`taken, s.pmm`free, s.pmm`next
    ensures s.Sound() && s.Account() == old(s.Account()) && |s.pmm.taken| == |old(s.pmm.taken)|
    ensures ok <==> old(s.pmm.free) > 0
    ensures ok ==>
      Risen(old(s.St()), old(s.owner), s.St(), s.owner, base, 0, true) &&
      DirWord(s.St(), KERNEL, STACK_TABLE).present && s.pmm.free == old(s.pmm.free) - 1
    ensures !ok ==> s.St() == old(s.St()) && s.owner == old(s.owner) && s.pmm.free == 0
  {
    hide Books, Enrolled, Backed, Foreign, Risen, DirWord;
    var f := s.TakeFrame();
    if f == 0 { return false; }
    PublishTable(s, f, base);
    ForeignGained(old(s.pmm.taken), old(s.owner), f, Shared(STACK_TABLE));
    ok := true;
  }

  method PublishTable(s: AddressSpaces, f: nat, ghost base: nat)
    requires Books(s.St(), s.owner) && Enrolled(s.spaces, s.order) && DirWord(s.St(), KERNEL, STACK_TABLE) == NONE
    requires f !in s.owner
    modifies s`memory, s`owner
    ensures Books(s.St(), s.owner) && s.owner == old(s.owner)[f := Shared(STACK_TABLE)]
    ensures Risen(old(s.St()), old(s.owner), s.St(), s.owner, base, 0, true)
    ensures DirWord(s.St(), KERNEL, STACK_TABLE).present
  {
    hide Books, Enrolled, Risen, DirWord, UserWord, StackWord, Written;
    s.memory := s.memory[f := EmptyTable()];
    FreshBooks(old(s.St()), s.owner, f, s.St());
    ghost var filled := s.St();
    PublishKernelEntry(s, STACK_TABLE, Word(f, true, true, false));
    TablePublished(old(s.St()), s.owner, f, filled, s.St(), base);
    s.owner := s.owner[f := Shared(STACK_TABLE)];
  }

  /** Clearing a frame nobody uses keeps the books. */
  lemma FreshBooks(st: Store, owner: map<nat, Use>, f: nat, st': Store)
    requires Books(st, owner) && f !in owner && st' == st.(memory := st.memory[f := EmptyTable()])
    ensures Books(st', owner) && SameDirs(st, st') && (forall l :: StackWord(st', l) == StackWord(st, l))
    ensures forall g, k, l :: UserWord(st', g, k, l) == UserWord(st, g, k, l)
  {
    FreshFrame(st, owner, f, EmptyTable());
    hide Inverse, Kinds, Formed, Counted, UserWord, DirWord, StackWord;
    SameInverse(st, owner, st');
    StillFormed(st, st', KERNEL);
    CountedSame(st, owner, st');
  }

  lemma TablePublished(st: Store, owner: map<nat, Use>, f: nat, filled: Store, st': Store, base: nat)
    requires Books(st, owner) && Books(filled, owner) && f !in owner && DirWord(st, KERNEL, STACK_TABLE) == NONE
    requires filled == st.(memory := st.memory[f := EmptyTable()]) && SameDirs(st, filled)
    requires (forall l :: StackWord(filled, l) == StackWord(st, l))
    requires forall g, k, l :: UserWord(filled, g, k, l) == UserWord(st, g, k, l)
    requires st'.spaces == st.spaces
    requires Written(filled.memory, st'.memory, Directories(st.spaces, st.spaces.Keys), STACK_TABLE,
                     Word(f, true, true, false))
    ensures Books(st', owner[f := Shared(STACK_TABLE)]) && DirWord(st', KERNEL, STACK_TABLE).present
    ensures Risen(st, owner, st', owner[f := Shared(STACK_TABLE)], base, 0, true)
  {
    hide Inverse, Kinds, Formed, Counted, UserWord, DirWord;
    var w := Word(f, true, true, false);
    WrittenPublished(filled, owner, st', STACK_TABLE, w);
    AreTables(st, owner);
    assert f !in Directories(st.spaces, st.spaces.Keys) by { OnlyDirectories(st, owner); }
    assert st'.memory[f] == EmptyTable();
    assert forall l :: StackWord(st', l) == NONE == StackWord(st, l);
    AddShared(filled, owner, STACK_TABLE, f, st');
  }

  lemma RisenMapped(st0: Store, owner0: map<nat, Use>, st: Store, owner: map<nat, Use>, st': Store, base: nat, n: nat,
                    created: bool, f: nat)
    requires Books(st, owner) && Risen(st0, owner0, st, owner, base, n, created) && f !in owner
    requires st'.spaces == st.spaces
    requires DirWord(st, KERNEL, STACK_TABLE).present && StackChanged(st, st', base + n, Word(f, true, true, false))
    requires forall g :: g in st.memory && g != f && g != DirWord(st, KERNEL, STACK_TABLE).frame ==>
      g in st'.memory && st'.memory[g] == st.memory[g]
    requires f in st'.memory && st'.memory[f] == ZEROED
    ensures Risen(st0, owner0, st', owner[f := Stack(base + n)], base, n + 1, created)
  {
    hide Inverse, Kinds, Formed, Counted, UserWord, DirWord, StackWord;
    StackTableFrame(st, owner);
    forall l | OnStack(base, n + 1, l)
      ensures StackPage(st', owner0, StackWord(st', l))
    {
      if l != base + n {
        assert StackPage(st, owner0, StackWord(st, l));
        StackFrame(st, owner, l);
      }
    }
  }

  lemma StackFrame(st: Store, owner: map<nat, Use>, j: nat)
    requires Books(st, owner) && StackWord(st, j).present
    ensures StackWord(st, j).frame in owner && owner[StackWord(st, j).frame] == Stack(j) && j < ENTRIES
    ensures IsKernel(StackWord(st, j)) && DirWord(st, KERNEL, STACK_TABLE).present
  {
    assert FrameOf(st, Stack(j)) == Some(StackWord(st, j).frame);
    assert FrameOf(st, Shared(STACK_TABLE)) == Some(DirWord(st, KERNEL, STACK_TABLE).frame);
  }

  lemma RisenUnmapped(st0: Store, owner0: map<nat, Use>, st: Store, owner: map<nat, Use>, st': Store, base: nat, n: nat,
                      created: bool)
    requires Books(st, owner) && Risen(st0, owner0, st, owner, base, n + 1, created) && st'.spaces == st.spaces
    requires StackWord(st, base + n).present && StackWord(st0, base + n) == NONE
    requires StackChanged(st, st', base + n, NONE)
    requires forall g :: g in st.memory && g != DirWord(st, KERNEL, STACK_TABLE).frame ==>
      g in st'.memory && st'.memory[g] == st.memory[g]
    ensures Risen(st0, owner0, st', owner - {StackWord(st, base + n).frame}, base, n, created)
  {
    hide Kinds, Formed, Counted, UserWord, DirWord, StackWord, Inverse, RisenWords;
    var f := StackWord(st, base + n).frame;
    StackFrame(st, owner, base + n);
    StackTableFrame(st, owner);
    RisenWordsUnmapped(st0, owner0, st, owner, st', base, n, created);
    forall g | g in owner - {f} && g !in owner0
      ensures NewStackUse(owner[g], base, n, created)
    {
      if owner[g] == Stack(base + n) { StackAlone(st, owner, base + n, g, f); }
    }
  }

  lemma RisenWordsUnmapped(st0: Store, owner0: map<nat, Use>, st: Store, owner: map<nat, Use>, st': Store, base: nat,
                           n: nat, created: bool)
    requires Books(st, owner) && RisenWords(st0, owner0, st, base, n + 1, created)
    requires StackWord(st, base + n).present && StackWord(st0, base + n) == NONE
    requires StackChanged(st, st', base + n, NONE)
    requires forall g :: g in st.memory && g != DirWord(st, KERNEL, STACK_TABLE).frame ==>
      g in st'.memory && st'.memory[g] == st.memory[g]
    ensures RisenWords(st0, owner0, st', base, n, created)
    ensures StackWord(st, base + n).frame !in owner0
  {
    hide Kinds, Formed, Counted, UserWord, DirWord, StackWord, Inverse;
    StackFrame(st, owner, base + n);
    StackTableFrame(st, owner);
    assert OnStack(base, n + 1, base + n);
    assert StackPage(st, owner0, StackWord(st, base + n));
    forall l | OnStack(base, n, l)
      ensures StackPage(st', owner0, StackWord(st', l))
    {
      assert StackPage(st, owner0, StackWord(st, l));
      StackFrame(st, owner, l);
    }
  }

  lemma StackAlone(st: Store, owner: map<nat, Use>, j: nat, f: nat, g: nat)
    requires Inverse(st, owner) && f in owner && g in owner && owner[f] == owner[g] == Stack(j)
    ensures f == g
  {
    assert FrameOf(st, owner[f]) == Some(f) && FrameOf(st, owner[g]) == Some(g);
  }

  /** Map a zeroed frame as the next stack page. */
  method MapStackPage(s: AddressSpaces, base: nat, n: nat, ghost created: bool, ghost st0: Store,
                      ghost owner0: map<nat, Use>)
    returns (ok: bool)
    requires s.Sound() && DirWord(s.St(), KERNEL, STACK_TABLE).present && base + n < ENTRIES
    requires StackWord(st0, base + n) == NONE
    requires Risen(st0, owner0, s.St(), s.owner, base, n, created)
    modifies s`memory, s`owner, s.pmm`taken, s.pmm`free, s.pmm`next
    ensures s.Sound() && s.Account() == old(s.Account()) && |s.pmm.taken| == |old(s.pmm.taken)|
    ensures DirWord(s.St(), KERNEL, STACK_TABLE).present
    ensures ok <==> old(s.pmm.free) > 0
    ensures ok ==> Risen(st0, owner0, s.St(), s.owner, base, n + 1, created) && s.pmm.free == old(s.pmm.free) - 1
    ensures !ok ==> Risen(st0, owner0, s.St(), s.owner, base, n, created) && s.pmm.free == 0
  {
    hide Books, Enrolled, Backed, Foreign, Risen, DirWord, StackWord, PutWord, StackChanged;
    RisenClear(st0, owner0, s.St(), s.owner, base, n, created);
    var f := s.TakeFrame();
    if f == 0 { return false; }
    var table := DirWord(s.St(), KERNEL, STACK_TABLE).frame;
    s.memory := s.memory[f := ZEROED];
    s.memory := PutWord(s.memory, table, base + n, Word(f, true, true, false));
    MapStack(old(s.St()), s.owner, base + n, f, ZEROED, s.St());
    RisenMapped(st0, owner0, old(s.St()), s.owner, s.St(), base, n, created, f);
    StackDirs(old(s.St()), s.St(), base + n, Word(f, true, true, false));
    ForeignGained(old(s.pmm.taken), s.owner, f, Stack(base + n));
    s.owner := s.owner[f := Stack(base + n)];
    ok := true;
  }

  lemma StackDirs(st: Store, st': Store, j: nat, w: Word)
    requires StackChanged(st, st', j, w)
    ensures DirWord(st', KERNEL, STACK_TABLE) == DirWord(st, KERNEL, STACK_TABLE)
  {
  }

  lemma RisenClear(st0: Store, owner0: map<nat, Use>, st: Store, owner: map<nat, Use>, base: nat, n: nat, created: bool)
    requires Risen(st0, owner0, st, owner, base, n, created) && StackWord(st0, base + n) == NONE
    ensures StackWord(st, base + n) == NONE
  {
  }

  /** Clear a stack entry and give its frame back. */
  method UnmapStackPage(s: AddressSpaces, j: nat)
    requires s.Sound() && StackWord(s.St(), j).present
    modifies s`memory, s`owner, s.pmm`taken, s.pmm`free, s.pmm`next
    ensures s.Sound() && s.Account() == old(s.Account()) && |s.pmm.taken| == |old(s.pmm.taken)|
    ensures StackCut(old(s.St()), old(s.owner), s.St(), s.owner, j)
  {
    hide Books, Enrolled, Backed, Foreign, StackWord, PutWord, StackChanged, DirWord;
    StackFrame(s.St(), s.owner, j);
    StackEntry(s.St(), j);
    var table := DirWord(s.St(), KERNEL, STACK_TABLE).frame;
    var f := WordAt(s.memory, table, j).frame;
    s.memory := PutWord(s.memory, table, j, NONE);
    UnmapStack(old(s.St()), s.owner, j, s.St());
    ForeignLost(s.pmm.taken, s.owner, f);
    s.owner := s.owner - {f};
    s.ReturnFrame(f);
  }

  ghost predicate StackCut(st: Store, owner: map<nat, Use>, st': Store, owner': map<nat, Use>, j: nat) {
    && owner' == owner - {StackWord(st, j).frame} && st'.spaces == st.spaces && StackChanged(st, st', j, NONE)
    && (forall g :: g in st.memory && g != DirWord(st, KERNEL, STACK_TABLE).frame ==>
          g in st'.memory && st'.memory[g] == st.memory[g])
  }

  lemma StackEntry(st: Store, j: nat)
    requires DirWord(st, KERNEL, STACK_TABLE).present
    ensures StackWord(st, j) == WordAt(st.memory, DirWord(st, KERNEL, STACK_TABLE).frame, j)
  {
  }

  // ----- The shared table goes when it is empty ----------------------------------------------------------

  ghost predicate NoStacks(st: Store) {
    forall l: nat :: l < ENTRIES ==> StackWord(st, l) == NONE
  }

  /** The shared table left every directory and its frame went back. */
  ghost predicate Withdrawn(st: Store, owner: map<nat, Use>, st': Store, owner': map<nat, Use>) {
    && Published(st, st', STACK_TABLE, NONE) && (forall l :: StackWord(st', l) == StackWord(st, l))
    && owner' == owner - {DirWord(st, KERNEL, STACK_TABLE).frame}
    && (forall f :: f in owner && !owner[f].Directory? ==>
          f in st.memory && f in st'.memory && st'.memory[f] == st.memory[f])
  }

  method IsStackTableEmpty(s: AddressSpaces) returns (b: bool)
    requires s.Sound() && DirWord(s.St(), KERNEL, STACK_TABLE).present
    ensures b <==> NoStacks(s.St())
  {
    hide Books, Enrolled, StackWord;
    for j := 0 to ENTRIES
      invariant forall l: nat :: l < j ==> StackWord(s.St(), l) == NONE
    {
      StackEntry(s.St(), j);
      if WordAt(s.memory, DirWord(s.St(), KERNEL, STACK_TABLE).frame, j) != NONE { return false; }
    }
    b := true;
  }

  /** Withdraw the table if no stack uses it. */
  method ReclaimStackTable(s: AddressSpaces)
    requires s.Sound()
    modifies s`memory, s`owner, s.pmm`taken, s.pmm`free, s.pmm`next
    ensures s.Sound() && s.Account() == old(s.Account()) && |s.pmm.taken| == |old(s.pmm.taken)|
    ensures if DirWord(old(s.St()), KERNEL, STACK_TABLE).present && NoStacks(old(s.St()))
      then Withdrawn(old(s.St()), old(s.owner), s.St(), s.owner)
            else s.St() == old(s.St()) && s.owner == old(s.owner) && s.pmm.taken == old(s.pmm.taken)
  {
    hide Books, Enrolled, Backed, Foreign, NoStacks, Withdrawn, DirWord, Written, Directories;
    if !DirWord(s.St(), KERNEL, STACK_TABLE).present { return; }
    var empty := IsStackTableEmpty(s);
    if !empty { return; }
    StackTableFrame(s.St(), s.owner);
    var f := DirWord(s.St(), KERNEL, STACK_TABLE).frame;
    PublishKernelEntry(s, STACK_TABLE, NONE);
    TableWithdrawn(old(s.St()), s.owner, s.St());
    ForeignLost(s.pmm.taken, s.owner, f);
    s.owner := s.owner - {f};
    s.ReturnFrame(f);
  }

  lemma TableWithdrawn(st: Store, owner: map<nat, Use>, st': Store)
    requires Books(st, owner) && DirWord(st, KERNEL, STACK_TABLE).present && NoStacks(st) && st'.spaces == st.spaces
    requires Written(st.memory, st'.memory, Directories(st.spaces, st.spaces.Keys), STACK_TABLE, NONE)
    ensures Books(st', owner - {DirWord(st, KERNEL, STACK_TABLE).frame})
    ensures Withdrawn(st, owner, st', owner - {DirWord(st, KERNEL, STACK_TABLE).frame})
  {
    hide Inverse, Kinds, Formed, Counted, UserWord, DirWord, Written, Directories;
    WrittenPublished(st, owner, st', STACK_TABLE, NONE);
    AreTables(st, owner);
    StackTableFrame(st, owner);
    forall l: nat
      ensures StackWord(st', l) == StackWord(st, l)
    {
      if l < ENTRIES { assert StackWord(st, l) == NONE; }
    }
    DropShared(st, owner, STACK_TABLE, st');
  }

  // ----- Undoing ------------------------------------------------------------------------------------------

  lemma RisenNothing(st0: Store, owner0: map<nat, Use>, st: Store, owner: map<nat, Use>, base: nat)
    requires Books(st0, owner0) && Books(st, owner) && Risen(st0, owner0, st, owner, base, 0, false)
    ensures Restored(st0, owner0, st, owner)
  {
    hide Inverse, Kinds, Formed, Counted, UserWord, DirWord, StackWord;
    assert owner == owner0;
    forall f | f in owner0 && f in st0.memory
      ensures f in st.memory && st.memory[f] == st0.memory[f]
    {
      SameFrameContents(st0, owner0, st, f);
    }
  }

  lemma SameFrameContents(st0: Store, owner: map<nat, Use>, st: Store, f: nat)
    requires Books(st0, owner) && Books(st, owner) && f in owner && f in st0.memory && st.spaces == st0.spaces
    requires (forall g: nat, k: nat :: DirWord(st, g, k) == DirWord(st0, g, k))
    requires (forall l :: StackWord(st, l) == StackWord(st0, l))
    requires !owner[f].Directory? && owner[f] != Shared(STACK_TABLE) ==> f in st.memory && st.memory[f] == st0.memory[f]
    ensures f in st.memory && st.memory[f] == st0.memory[f]
  {
    assert KindOk(st0.memory, f, owner[f]) && KindOk(st.memory, f, owner[f]);
    assert FrameOf(st0, owner[f]) == Some(f) && FrameOf(st, owner[f]) == Some(f);
    if owner[f].Directory? {
      forall k | 0 <= k < ENTRIES
        ensures st.memory[f].words[k] == st0.memory[f].words[k]
      {
        assert DirWord(st, owner[f].space, k) == DirWord(st0, owner[f].space, k);
      }
    } else if owner[f] == Shared(STACK_TABLE) {
      forall k | 0 <= k < ENTRIES
        ensures st.memory[f].words[k] == st0.memory[f].words[k]
      {
        assert StackWord(st, k) == StackWord(st0, k);
      }
    }
  }

  /** A table made for nothing, withdrawn again. */
  lemma WithdrawnIsRestored(st0: Store, owner0: map<nat, Use>, st: Store, owner: map<nat, Use>, st': Store,
                            owner': map<nat, Use>, base: nat)
    requires Books(st0, owner0) && Books(st, owner) && Books(st', owner')
    requires Risen(st0, owner0, st, owner, base, 0, true) && Withdrawn(st, owner, st', owner')
    requires DirWord(st, KERNEL, STACK_TABLE).present
    ensures Restored(st0, owner0, st', owner')
  {
    WithdrawnOwner(st0, owner0, st, owner, owner', base);
    hide Inverse, Kinds, Counted, UserWord, DirWord, StackWord;
    forall g: nat, k: nat
      ensures DirWord(st', g, k) == DirWord(st0, g, k)
    {
      if g in st0.spaces && k == STACK_TABLE { assert DirOk(st0, g, k); }
    }
    assert forall l :: StackWord(st', l) == StackWord(st0, l) by {
      forall l ensures StackWord(st', l) == StackWord(st0, l) { assert !OnStack(base, 0, l); }
    }
    hide Formed;
    forall f | f in owner0 && f in st0.memory
      ensures f in st'.memory && st'.memory[f] == st0.memory[f]
    {
      SameFrameContents(st0, owner0, st', f);
    }
  }

  lemma WithdrawnOwner(st0: Store, owner0: map<nat, Use>, st: Store, owner: map<nat, Use>, owner': map<nat, Use>,
                       base: nat)
    requires Books(st0, owner0) && Books(st, owner) && Risen(st0, owner0, st, owner, base, 0, true)
    requires DirWord(st, KERNEL, STACK_TABLE).present
    requires owner' == owner - {DirWord(st, KERNEL, STACK_TABLE).frame}
    ensures owner' == owner0
  {
    hide Kinds, Formed, Counted, UserWord, DirWord, StackWord;
    StackTableFrame(st, owner);
    var f := DirWord(st, KERNEL, STACK_TABLE).frame;
    forall g | g in owner && owner[g] == Shared(STACK_TABLE)
      ensures g == f
    {
      assert FrameOf(st, owner[g]) == Some(g) && FrameOf(st, owner[f]) == Some(f);
    }
    forall g | g in owner0
      ensures owner0[g] != Shared(STACK_TABLE)
    {
      assert FrameOf(st0, owner0[g]) == Some(g);
    }
  }

  // ----- Whole stacks -----------------------------------------------------------------------------------------

  /** Every slot is mapped whole or not at all, its guard page never. */
  ghost predicate StacksOk(st: Store) {
    && (forall slot :: 0 <= slot < STACK_SLOTS ==> StackWord(st, Guard(slot)) == NONE)
    && (forall slot :: 0 <= slot < STACK_SLOTS ==> SlotClear(st, slot) || SlotHeld(st, slot))
  }

  ghost predicate SlotClear(st: Store, slot: nat) {
    forall l :: OnStack(Guard(slot) + 1, STACK_PAGES, l) ==> StackWord(st, l) == NONE
  }

  ghost predicate SlotHeld(st: Store, slot: nat) {
    forall l :: OnStack(Guard(slot) + 1, STACK_PAGES, l) ==> StackWord(st, l).present
  }

  /** When a stack can be had: a free slot, and frames for it and for its table. */
  ghost predicate StackRoom(s: AddressSpaces, slot: nat)
    reads s, s.pmm
  {
    && s.enabled && slot < STACK_SLOTS && SlotClear(s.St(), slot)
    && STACK_PAGES + (if DirWord(s.St(), KERNEL, STACK_TABLE).present then 0 else 1) <= s.pmm.free
  }

  method IsSlotClear(s: AddressSpaces, slot: nat) returns (ok: bool)
    requires s.Sound() && slot < STACK_SLOTS && StackWord(s.St(), Guard(slot)) == NONE
    ensures ok <==> SlotClear(s.St(), slot)
  {
    hide Books, Enrolled, StackWord;
    NoTableNoStacks(s.St(), s.owner);
    if DirWord(s.St(), KERNEL, STACK_TABLE) == NONE { return true; }
    var table := DirWord(s.St(), KERNEL, STACK_TABLE).frame;
    StackEntry(s.St(), Guard(slot));
    if WordAt(s.memory, table, Guard(slot)) != NONE { return false; }
    for n := 0 to STACK_PAGES
      invariant forall l :: OnStack(Guard(slot) + 1, n, l) ==> StackWord(s.St(), l) == NONE
    {
      StackEntry(s.St(), Guard(slot) + 1 + n);
      if WordAt(s.memory, table, Guard(slot) + 1 + n) != NONE {
        assert OnStack(Guard(slot) + 1, STACK_PAGES, Guard(slot) + 1 + n);
        return false;
      }
    }
    ok := true;
  }

  lemma NoTableNoStacks(st: Store, owner: map<nat, Use>)
    requires Books(st, owner)
    ensures DirWord(st, KERNEL, STACK_TABLE) == NONE || DirWord(st, KERNEL, STACK_TABLE).present
    ensures DirWord(st, KERNEL, STACK_TABLE) == NONE ==> forall l :: StackWord(st, l) == NONE
  {
    AreTables(st, owner);
    BooksDir(st, owner, KERNEL, STACK_TABLE);
  }

  /** Map a whole stack above its guard page, or change nothing. */
  method StackAllocate(s: AddressSpaces, slot: nat) returns (ok: bool)
    requires s.Valid() && (s.enabled ==> StacksOk(s.St()))
    modifies s`memory, s`owner, s.pmm`taken, s.pmm`free, s.pmm`next
    ensures s.Valid() && (s.enabled ==> StacksOk(s.St())) && s.Account() == old(s.Account())
    ensures ok <==> old(StackRoom(s, slot))
    ensures ok ==>
      Risen(old(s.St()), old(s.owner), s.St(), s.owner, Guard(slot) + 1, STACK_PAGES,
            !DirWord(old(s.St()), KERNEL, STACK_TABLE).present)
    ensures !ok ==> Restored(old(s.St()), old(s.owner), s.St(), s.owner) && s.pmm.taken == old(s.pmm.taken)
  {
    hide Books, Enrolled, Backed, Foreign, NoneEmpty, StacksOk, Risen, Restored, SlotClear, DirWord;
    RestoredSelf(s.St(), s.owner);
    if !s.enabled || slot >= STACK_SLOTS { return false; }
    GuardClear(s.St(), slot);
    NoTableNoStacks(s.St(), s.owner);
    var clear := IsSlotClear(s, slot);
    if !clear { return false; }
    ok := RaiseStack(s, slot, DirWord(s.St(), KERNEL, STACK_TABLE) == NONE);
  }

  lemma GuardClear(st: Store, slot: nat)
    requires StacksOk(st) && slot < STACK_SLOTS
    ensures StackWord(st, Guard(slot)) == NONE
  {
  }

  method RaiseStack(s: AddressSpaces, slot: nat, create: bool) returns (ok: bool)
    requires s.Sound() && NoneEmpty(s.St()) && StacksOk(s.St()) && slot < STACK_SLOTS && SlotClear(s.St(), slot)
    requires create == !DirWord(s.St(), KERNEL, STACK_TABLE).present
    requires create == (DirWord(s.St(), KERNEL, STACK_TABLE) == NONE)
    modifies s`memory, s`owner, s.pmm`taken, s.pmm`free, s.pmm`next
    ensures s.Sound() && NoneEmpty(s.St()) && StacksOk(s.St()) && s.Account() == old(s.Account())
    ensures ok <==> STACK_PAGES + (if create then 1 else 0) <= old(s.pmm.free)
    ensures ok ==> Risen(old(s.St()), old(s.owner), s.St(), s.owner, Guard(slot) + 1, STACK_PAGES, create)
    ensures !ok ==> Restored(old(s.St()), old(s.owner), s.St(), s.owner) && s.pmm.taken == old(s.pmm.taken)
  {
    hide Books, Enrolled, Backed, Foreign, NoneEmpty, StacksOk, Risen, Restored, SlotClear, DirWord, StackWord;
    var base := Guard(slot) + 1;
    RisenStart(s.St(), s.owner, base);
    RestoredSelf(s.St(), s.owner);
    if create {
      var made := AddStackTable(s, base);
      if !made {
        SameTaken(old(s.pmm.taken), s.pmm.taken, s.owner);
        return false;
      }
    }
    var mapped := 0;
    while mapped < STACK_PAGES
      invariant mapped <= STACK_PAGES && s.Sound() && s.Account() == old(s.Account())
      invariant |s.pmm.taken| == |old(s.pmm.taken)|
      invariant DirWord(s.St(), KERNEL, STACK_TABLE).present
      invariant Risen(old(s.St()), old(s.owner), s.St(), s.owner, base, mapped, create)
      invariant s.pmm.free == old(s.pmm.free) - mapped - (if create then 1 else 0)
    {
      PageClear(old(s.St()), slot, mapped);
      var taken := MapStackPage(s, base, mapped, create, old(s.St()), old(s.owner));
      if !taken {
        LowerStack(s, slot, mapped, create, old(s.St()), old(s.owner));
        RestoredSame(old(s.St()), old(s.owner), s.St(), s.owner);
        SameTaken(old(s.pmm.taken), s.pmm.taken, s.owner);
        return false;
      }
      mapped := mapped + 1;
    }
    RisenNoneEmpty(old(s.St()), old(s.owner), s.St(), s.owner, base, mapped, create);
    RisenStacks(old(s.St()), old(s.owner), s.St(), s.owner, slot, create);
    ok := true;
  }

  lemma PageClear(st: Store, slot: nat, n: nat)
    requires SlotClear(st, slot) && n < STACK_PAGES
    ensures StackWord(st, Guard(slot) + 1 + n) == NONE
  {
    assert OnStack(Guard(slot) + 1, STACK_PAGES, Guard(slot) + 1 + n);
  }

  lemma RestoredSame(st0: Store, owner0: map<nat, Use>, st: Store, owner: map<nat, Use>)
    requires Books(st0, owner0) && Books(st, owner) && NoneEmpty(st0) && StacksOk(st0)
    requires Restored(st0, owner0, st, owner)
    ensures owner == owner0 && NoneEmpty(st) && StacksOk(st)
  {
    RestoredKeeps(st0, owner0, st, owner);
    forall l
      ensures StackWord(st, l) == StackWord(st0, l)
    {
      AreTables(st0, owner0);
      DirectoryFrame(st0, owner0, KERNEL);
      assert FrameOf(st0, Shared(STACK_TABLE)) == Frame(DirWord(st0, KERNEL, STACK_TABLE));
    }
    SameStacks(st0, st);
  }

  lemma SameStacks(st0: Store, st: Store)
    requires StacksOk(st0) && forall l :: StackWord(st, l) == StackWord(st0, l)
    ensures StacksOk(st)
  {
    hide StackWord;
    forall slot | 0 <= slot < STACK_SLOTS
      ensures StackWord(st, Guard(slot)) == NONE && (SlotClear(st, slot) || SlotHeld(st, slot))
    {
      assert StackWord(st0, Guard(slot)) == NONE;
      assert SlotClear(st0, slot) || SlotHeld(st0, slot);
    }
  }

  /** The new stack fills its slot and leaves the others alone. */
  lemma RisenStacks(st0: Store, owner0: map<nat, Use>, st: Store, owner: map<nat, Use>, slot: nat, created: bool)
    requires StacksOk(st0) && slot < STACK_SLOTS && Risen(st0, owner0, st, owner, Guard(slot) + 1, STACK_PAGES, created)
    ensures StacksOk(st) && SlotHeld(st, slot)
  {
    hide StackWord;
    forall other | 0 <= other < STACK_SLOTS
      ensures StackWord(st, Guard(other)) == NONE && (SlotClear(st, other) || SlotHeld(st, other))
    {
      assert !OnStack(Guard(slot) + 1, STACK_PAGES, Guard(other));
      assert StackWord(st0, Guard(other)) == NONE;
      if other != slot {
        assert SlotClear(st0, other) || SlotHeld(st0, other);
        forall l | OnStack(Guard(other) + 1, STACK_PAGES, l)
          ensures StackWord(st, l) == StackWord(st0, l)
        {
          assert !OnStack(Guard(slot) + 1, STACK_PAGES, l);
        }
      } else {
        assert forall l :: OnStack(Guard(slot) + 1, STACK_PAGES, l) ==> StackPage(st, owner0, StackWord(st, l));
      }
    }
  }

  /** Take the pages down again, the last first, and the table if it was made for them. */
  method LowerStack(s: AddressSpaces, slot: nat, mapped: nat, created: bool, ghost st0: Store,
                    ghost owner0: map<nat, Use>)
    requires s.Sound() && Books(st0, owner0) && slot < STACK_SLOTS && SlotClear(st0, slot) && mapped <= STACK_PAGES
    requires Risen(st0, owner0, s.St(), s.owner, Guard(slot) + 1, mapped, created)
    requires DirWord(s.St(), KERNEL, STACK_TABLE).present
    requires created == (DirWord(st0, KERNEL, STACK_TABLE) == NONE)
    modifies s`memory, s`owner, s.pmm`taken, s.pmm`free, s.pmm`next
    ensures s.Sound() && s.Account() == old(s.Account()) && |s.pmm.taken| == |old(s.pmm.taken)|
    ensures Restored(st0, owner0, s.St(), s.owner)
  {
    hide Books, Enrolled, Backed, Foreign, Risen, Restored, SlotClear, DirWord, StackWord, StackCut, NoStacks,
         Withdrawn;
    var base := Guard(slot) + 1;
    var n: nat := mapped;
    while n > 0
      invariant n <= mapped && s.Sound() && s.Account() == old(s.Account()) && |s.pmm.taken| == |old(s.pmm.taken)|
      invariant Risen(st0, owner0, s.St(), s.owner, base, n, created) && DirWord(s.St(), KERNEL, STACK_TABLE).present
    {
      n := n - 1;
      PageClear(st0, slot, n);
      RisenPresent(st0, owner0, s.St(), s.owner, base, n, created);
      ghost var before, ledger := s.St(), s.owner;
      UnmapStackPage(s, base + n);
      CutRisen(st0, owner0, before, ledger, s.St(), s.owner, base, n, created);
    }
    if created {
      ghost var before, ledger := s.St(), s.owner;
      RisenEmpty(st0, owner0, s.St(), s.owner, base);
      ReclaimStackTable(s);
      WithdrawnIsRestored(st0, owner0, before, ledger, s.St(), s.owner, base);
    } else {
      RisenNothing(st0, owner0, s.St(), s.owner, base);
    }
  }

  lemma RisenPresent(st0: Store, owner0: map<nat, Use>, st: Store, owner: map<nat, Use>, base: nat, n: nat,
                     created: bool)
    requires Risen(st0, owner0, st, owner, base, n + 1, created)
    ensures StackWord(st, base + n).present
  {
    assert OnStack(base, n + 1, base + n);
    assert StackPage(st, owner0, StackWord(st, base + n));
  }

  lemma CutRisen(st0: Store, owner0: map<nat, Use>, st: Store, owner: map<nat, Use>, st': Store, owner': map<nat, Use>,
                 base: nat, n: nat, created: bool)
    requires Books(st, owner) && Risen(st0, owner0, st, owner, base, n + 1, created)
    requires DirWord(st, KERNEL, STACK_TABLE).present
    requires StackWord(st, base + n).present && StackWord(st0, base + n) == NONE
    requires StackCut(st, owner, st', owner', base + n)
    ensures Risen(st0, owner0, st', owner', base, n, created) && DirWord(st', KERNEL, STACK_TABLE).present
  {
    hide Books, Risen, StackChanged, DirWord, StackWord;
    RisenUnmapped(st0, owner0, st, owner, st', base, n, created);
    StackDirs(st, st', base + n, NONE);
  }

  lemma RisenEmpty(st0: Store, owner0: map<nat, Use>, st: Store, owner: map<nat, Use>, base: nat)
    requires Books(st0, owner0) && Risen(st0, owner0, st, owner, base, 0, true)
    ensures NoStacks(st)
  {
    NoTableNoStacks(st0, owner0);
    hide StackWord;
    forall l: nat | l < ENTRIES ensures StackWord(st, l) == NONE { assert !OnStack(base, 0, l); }
  }

  // ----- Releasing a stack -----------------------------------------------------------------------------------

  /** `n` stack pages from entry `base` on were unmapped and, if `dropped`, the table with
      them; nothing else changed. */
  ghost predicate Lowered(st0: Store, owner0: map<nat, Use>, st: Store, owner: map<nat, Use>, base: nat, n: nat,
                          dropped: bool) {
    && st.spaces == st0.spaces && (!dropped ==> SameDirs(st0, st))
    && (forall g, k, l :: UserWord(st, g, k, l) == UserWord(st0, g, k, l))
    && (forall l :: StackWord(st, l) == if OnStack(base, n, l) then NONE else StackWord(st0, l))
    && (forall f :: f in owner ==> f in owner0 && owner0[f] == owner[f])
    && (forall f :: f in owner0 && f !in owner ==> NewStackUse(owner0[f], base, n, dropped))
    && (forall f :: f in owner && !owner[f].Directory? && owner[f] != Shared(STACK_TABLE) && f in st0.memory ==>
          f in st.memory && st.memory[f] == st0.memory[f])
  }

  lemma LoweredStart(st: Store, owner: map<nat, Use>, base: nat)
    ensures Lowered(st, owner, st, owner, base, 0, false)
  {
  }

  lemma LoweredStep(st0: Store, owner0: map<nat, Use>, st: Store, owner: map<nat, Use>, st': Store,
                    owner': map<nat, Use>, base: nat, n: nat)
    requires Books(st, owner) && Lowered(st0, owner0, st, owner, base, n, false) && StackWord(st, base + n).present
    requires StackCut(st, owner, st', owner', base + n)
    ensures Lowered(st0, owner0, st', owner', base, n + 1, false)
  {
    hide Inverse, Kinds, Formed, Counted, UserWord, DirWord, StackWord;
    StackFrame(st, owner, base + n);
    StackTableFrame(st, owner);
    assert OnStack(base, n + 1, base + n);
  }

  lemma LoweredNext(st0: Store, owner0: map<nat, Use>, st: Store, owner: map<nat, Use>, slot: nat, n: nat)
    requires Lowered(st0, owner0, st, owner, Guard(slot) + 1, n, false) && SlotHeld(st0, slot) && n < STACK_PAGES
    ensures StackWord(st, Guard(slot) + 1 + n).present
  {
    hide StackWord;
    assert OnStack(Guard(slot) + 1, STACK_PAGES, Guard(slot) + 1 + n);
    assert StackWord(st0, Guard(slot) + 1 + n).present;
  }

  lemma LoweredDropped(st0: Store, owner0: map<nat, Use>, st: Store, owner: map<nat, Use>, st': Store,
                       owner': map<nat, Use>, base: nat, n: nat)
    requires Books(st, owner) && Lowered(st0, owner0, st, owner, base, n, false) && Withdrawn(st, owner, st', owner')
    requires DirWord(st, KERNEL, STACK_TABLE).present
    ensures Lowered(st0, owner0, st', owner', base, n, true)
  {
    hide Inverse, Kinds, Formed, Counted, UserWord, DirWord, StackWord;
    StackTableFrame(st, owner);
  }

  lemma LoweredStacks(st0: Store, owner0: map<nat, Use>, st: Store, owner: map<nat, Use>, slot: nat, dropped: bool)
    requires StacksOk(st0) && NoneEmpty(st0) && slot < STACK_SLOTS
    requires Lowered(st0, owner0, st, owner, Guard(slot) + 1, STACK_PAGES, dropped)
    ensures StacksOk(st) && SlotClear(st, slot) && NoneEmpty(st)
  {
    hide StackWord, UserWord;
    forall other | 0 <= other < STACK_SLOTS
      ensures StackWord(st, Guard(other)) == NONE && (SlotClear(st, other) || SlotHeld(st, other))
    {
      assert StackWord(st0, Guard(other)) == NONE;
      if other != slot {
        assert SlotClear(st0, other) || SlotHeld(st0, other);
        forall l | OnStack(Guard(other) + 1, STACK_PAGES, l)
          ensures StackWord(st, l) == StackWord(st0, l)
        {
          assert !OnStack(Guard(slot) + 1, STACK_PAGES, l);
        }
      }
    }
    forall g, i | g in st.spaces && i in st.spaces[g].owned
      ensures !TableEmpty(st, g, i)
    {
      assert !TableEmpty(st0, g, i);
      var j: nat :| j < ENTRIES && UserWord(st0, g, i, j).present;
      assert UserWord(st, g, i, j).present;
    }
  }

  method IsSlotHeld(s: AddressSpaces, slot: nat) returns (ok: bool)
    requires s.Sound() && StacksOk(s.St()) && slot < STACK_SLOTS
    ensures ok <==> SlotHeld(s.St(), slot)
  {
    hide Books, Enrolled, StackWord, Backed;
    NoTableNoStacks(s.St(), s.owner);
    if DirWord(s.St(), KERNEL, STACK_TABLE) == NONE {
      assert OnStack(Guard(slot) + 1, STACK_PAGES, Guard(slot) + 1) && StackWord(s.St(), Guard(slot) + 1) == NONE;
      return false;
    }
    StackTableFrame(s.St(), s.owner);
    var table := DirWord(s.St(), KERNEL, STACK_TABLE).frame;
    StackEntry(s.St(), Guard(slot));
    GuardClear(s.St(), slot);
    if WordAt(s.memory, table, Guard(slot)).present { return false; }
    for n := 0 to STACK_PAGES
      invariant forall l :: OnStack(Guard(slot) + 1, n, l) ==> StackWord(s.St(), l).present
    {
      var j := Guard(slot) + 1 + n;
      StackEntry(s.St(), j);
      var w := WordAt(s.memory, table, j);
      if w.present {
        StackFrame(s.St(), s.owner, j);
        FrameBacked(s.pmm.taken, s.owner, w.frame);
      }
      if !IsKernel(w) || !s.pmm.IsAllocated(w.frame * PAGE) {
        assert OnStack(Guard(slot) + 1, STACK_PAGES, j);
        return false;
      }
    }
    ok := true;
  }

  lemma FrameBacked(taken: seq<bool>, owner: map<nat, Use>, f: nat)
    requires Backed(taken, owner) && f in owner
    ensures f < |taken| && taken[f]
  {
  }

  /** Unmap a whole stack and give its frames back. */
  method StackRelease(s: AddressSpaces, slot: nat) returns (ok: bool, ghost dropped: bool)
    requires s.Valid() && (s.enabled ==> StacksOk(s.St()))
    modifies s`memory, s`owner, s.pmm`taken, s.pmm`free, s.pmm`next
    ensures s.Valid() && (s.enabled ==> StacksOk(s.St())) && s.Account() == old(s.Account())
    ensures ok <==> s.enabled && slot < STACK_SLOTS && SlotHeld(old(s.St()), slot)
    ensures ok ==> Lowered(old(s.St()), old(s.owner), s.St(), s.owner, Guard(slot) + 1, STACK_PAGES, dropped)
    ensures !ok ==> s.St() == old(s.St()) && s.owner == old(s.owner) && s.pmm.taken == old(s.pmm.taken)
  {
    hide Books, Enrolled, Backed, Foreign, NoneEmpty, StacksOk, Lowered, SlotHeld, DirWord, StackWord, StackCut,
         NoStacks, Withdrawn;
    dropped := false;
    if !s.enabled || slot >= STACK_SLOTS { return false, false; }
    ok := IsSlotHeld(s, slot);
    if !ok { return; }
    var base := Guard(slot) + 1;
    LoweredStart(s.St(), s.owner, base);
    for n := 0 to STACK_PAGES
      invariant s.Sound() && s.Account() == old(s.Account()) && |s.pmm.taken| == |old(s.pmm.taken)|
      invariant Lowered(old(s.St()), old(s.owner), s.St(), s.owner, base, n, false)
    {
      LoweredNext(old(s.St()), old(s.owner), s.St(), s.owner, slot, n);
      ghost var before, ledger := s.St(), s.owner;
      UnmapStackPage(s, base + n);
      LoweredStep(old(s.St()), old(s.owner), before, ledger, s.St(), s.owner, base, n);
    }
    ghost var before, ledger := s.St(), s.owner;
    ReclaimStackTable(s);
    dropped := DirWord(before, KERNEL, STACK_TABLE).present && NoStacks(before);
    if dropped { LoweredDropped(old(s.St()), old(s.owner), before, ledger, s.St(), s.owner, base, STACK_PAGES); }
    LoweredStacks(old(s.St()), old(s.owner), s.St(), s.owner, slot, dropped);
  }
}
