/** Address spaces: directories sharing the kernel's tables, private user tables, and
    all-or-nothing allocation of user pages and kernel stacks. */
module Paging {
  import opened Common
  import opened Frames
  import opened PageTables
  import opened PageSteps
  import opened PageRuns
  const SPACE_LIMIT := 16
  const USER_PAGE_LIMIT := 4096
  const USER_BASE := 0x8000_0000
  const PROGRAM_END := 0xBFC0_0000
  const STACK_BASE := 0xBFFF_0000
  const USER_END := 0xC000_0000
  const WRITABLE := 2

  /** A page-aligned, non-empty run inside the program window or the user stack. */
  predicate UserRange(virtual: nat, pages: nat) {
    && pages > 0 && virtual % PAGE == 0
    && (|| (USER_BASE <= virtual && virtual + pages * PAGE <= PROGRAM_END)
        || (STACK_BASE <= virtual && virtual + pages * PAGE <= USER_END))
  }

  /** The list of private spaces names each registered one once. */
  ghost predicate Enrolled(spaces: map<nat, Space>, order: seq<nat>) {
    && KERNEL !in order && (forall a, b :: 0 <= a < b < |order| ==> order[a] != order[b])
    && (forall h :: h in spaces <==> h == KERNEL || h in order)
  }

  /** Tables that a run of pages needs and the space does not have. */
  ghost function NewTables(st: Store, h: nat, first: nat, pages: nat): set<nat> {
    if h in st.spaces then set i: nat | i < USER_ENTRIES && i !in st.spaces[h].owned && Touches(first, pages, i) else {}
  }

  ghost predicate RunClear(st: Store, h: nat, first: nat, pages: nat) {
    forall k, l :: Window(first, 0, pages, k, l) ==> UserWord(st, h, k, l) == NONE
  }

  ghost predicate RunMapped(st: Store, h: nat, first: nat, pages: nat) {
    forall k, l :: Window(first, 0, pages, k, l) ==> UserWord(st, h, k, l).present
  }

  class AddressSpaces {
    const pmm: Pmm
    var enabled: bool
    var memory: map<nat, Page>
    var spaces: map<nat, Space>
    var order: seq<nat>
    var active: nat
    ghost var owner: map<nat, Use>

    function St(): Store
      reads this
    {
      Store(memory, spaces)
    }

    /** Everything but that no private table is empty, which fails while a run is built. */
    ghost predicate Sound()
      reads this, pmm
    {
      && enabled && pmm.Valid() && pmm.ready
      && Books(St(), owner) && Backed(pmm.taken, owner)
      && Enrolled(spaces, order) && active in spaces
    }

    ghost predicate Valid()
      reads this, pmm
    {
      pmm.Valid() && (enabled ==> Sound() && NoneEmpty(St()))
    }

    /** Frames in the free pool or in the ledger: steps move them, none appears or is lost. */
    ghost function Account(): (int, set<nat>)
      reads this, pmm
    {
      (pmm.free + |owner|, Foreign(pmm.taken, owner))
    }

    /** Before paging is switched on. */
    constructor (frames: Pmm)
      requires frames.Valid()
      ensures Valid() && pmm == frames && !enabled
    {
      pmm, enabled := frames, false;
      memory, spaces, order, active, owner := map[], map[], [], KERNEL, map[];
    }

    /** A free frame, zero-filled by the caller; zero when none is left. */
    method TakeFrame() returns (f: nat)
      requires pmm.Valid() && pmm.ready && Backed(pmm.taken, owner)
      modifies pmm`taken, pmm`free, pmm`next
      ensures pmm.Valid() && |pmm.taken| == |old(pmm.taken)|
      ensures f == 0 <==> old(pmm.free) == 0
      ensures f == 0 ==> pmm.taken == old(pmm.taken) && pmm.free == old(pmm.free)
      ensures f != 0 ==>
        f < |pmm.taken| && !old(pmm.taken)[f] && pmm.taken == old(pmm.taken)[f := true] &&
        pmm.free == old(pmm.free) - 1 && f !in owner
    {
      hide Books, Enrolled;
      var physical := pmm.AllocatePage();
      f := physical / PAGE;
      if f != 0 { TakenCount(pmm.managed, old(pmm.taken), f); }
    }

    /** Give a frame of the ledger back. The allocator never refuses it. */
    method ReturnFrame(f: nat)
      requires pmm.Valid() && pmm.ready && f < |pmm.taken| && pmm.taken[f]
      modifies pmm`taken, pmm`free, pmm`next
      ensures pmm.Valid() && pmm.taken == old(pmm.taken)[f := false] && pmm.free == old(pmm.free) + 1
    {
      var ok := pmm.FreePage(f * PAGE);
      assert ok;
      TakenCount(pmm.managed, pmm.taken, f);
      assert pmm.taken[f := true] == old(pmm.taken);
    }

    // ----- Private tables --------------------------------------------------------------------

    /** Make sure the space has table `i`. */
    method EnsureUserTable(h: nat, i: nat) returns (ok: bool, ghost f: nat)
      requires Sound() && h in spaces && InUser(h, i)
      modifies this`memory, this`spaces, this`owner, pmm`taken, pmm`free, pmm`next
      ensures Sound() && Account() == old(Account()) && |pmm.taken| == |old(pmm.taken)|
      ensures ok <==> i in old(spaces)[h].owned || old(pmm.free) > 0
      ensures i in old(spaces)[h].owned || !ok ==> St() == old(St()) && owner == old(owner) && pmm.free == old(pmm.free)
      ensures ok && i !in old(spaces)[h].owned ==>
        TableAdded(old(St()), old(owner), St(), owner, h, i, f) && pmm.free == old(pmm.free) - 1
    {
      hide Books, Enrolled, Foreign, TableAdded, pmm.Valid, Backed, DirWord;
      BooksDir(St(), owner, h, i);
      f := 0;
      if DirWord(St(), h, i) != NONE {
        return i in spaces[h].owned && IsUserTable(DirWord(St(), h, i)), 0;
      }
      var frame := TakeFrame();
      if frame == 0 { return false, 0; }
      InstallTable(h, i, frame);
      AddedKeys(old(St()), old(owner), St(), owner, h, i, frame);
      ForeignGained(old(pmm.taken), old(owner), frame, Private(h, i));
      ok, f := true, frame;
    }

    /** Clear the frame and enter it as private table `i`. */
    method InstallTable(h: nat, i: nat, f: nat)
      requires Books(St(), owner) && Enrolled(spaces, order) && h in spaces && InUser(h, i) && i !in spaces[h].owned
      requires f !in owner
      modifies this`memory, this`spaces, this`owner
      ensures Books(St(), owner) && Enrolled(spaces, order)
      ensures TableAdded(old(St()), old(owner), St(), owner, h, i, f)
    {
      hide Books, Enrolled;
      memory := memory[f := EmptyTable()];
      memory := PutWord(memory, spaces[h].directory, i, Word(f, true, true, true));
      spaces := spaces[h := spaces[h].(tables := spaces[h].tables + 1, owned := spaces[h].owned + {i})];
      hide PutWord, DirWord, EmptyTable, DirChanged;
      AddTable(old(St()), owner, h, i, f, St());
      EnrolledSame(old(spaces), spaces, order);
      owner := owner[f := Private(h, i)];
    }

    /** Take an empty private table out of the directory. */
    method RemoveTable(h: nat, i: nat)
      requires Sound() && h in spaces && i in spaces[h].owned && TableEmpty(St(), h, i)
      modifies this`memory, this`spaces, this`owner, pmm`taken, pmm`free, pmm`next
      ensures Sound() && Account() == old(Account()) && |pmm.taken| == |old(pmm.taken)|
      ensures TableRemoved(old(St()), old(owner), St(), owner, h, i)
    {
      hide Books, Enrolled, TableEmpty, Foreign, pmm.Valid, Backed;
      OwnedTable(St(), owner, h, i);
      TablesPositive(St(), owner, h, i);
      var frame := DirWord(St(), h, i).frame;
      memory := PutWord(memory, spaces[h].directory, i, NONE);
      spaces := spaces[h := spaces[h].(tables := spaces[h].tables - 1, owned := spaces[h].owned - {i})];
      hide PutWord, DirWord, DirChanged;
      DropTable(old(St()), owner, h, i, St());
      EnrolledSame(old(spaces), spaces, order);
      ForeignLost(pmm.taken, owner, frame);
      owner := owner - {frame};
      ReturnFrame(frame);
    }

    // ----- One user page -----------------------------------------------------------------------

    /** Map a zeroed frame at entry `j` of table `i`. */
    method MapPage(h: nat, i: nat, j: nat, w: Word)
      requires Books(St(), owner) && Enrolled(spaces, order) && h in spaces && i in spaces[h].owned && j < ENTRIES
      requires UserWord(St(), h, i, j) == NONE && IsUser(w) && w.frame !in owner
      modifies this`memory, this`spaces, this`owner
      ensures Books(St(), owner) && Enrolled(spaces, order)
      ensures PageMapped(old(St()), old(owner), St(), owner, h, i, j, w)
    {
      hide Books, Enrolled;
      var table := DirWord(St(), h, i).frame;
      memory := memory[w.frame := ZEROED];
      memory := PutWord(memory, table, j, w);
      spaces := spaces[h := spaces[h].(pages := spaces[h].pages + 1)];
      hide PutWord, DirWord, UserWord, UserChanged;
      MapUser(old(St()), owner, h, i, j, w, ZEROED, St());
      EnrolledSame(old(spaces), spaces, order);
      owner := owner[w.frame := User(h, i, j)];
    }

    /** Clear entry `j` of table `i` and give its frame back. */
    method UnmapPage(h: nat, i: nat, j: nat)
      requires Sound() && h in spaces && UserWord(St(), h, i, j).present
      modifies this`memory, this`spaces, this`owner, pmm`taken, pmm`free, pmm`next
      ensures Sound() && Account() == old(Account()) && |pmm.taken| == |old(pmm.taken)|
      ensures PageUnmapped(old(St()), old(owner), St(), owner, h, i, j)
    {
      hide Books, Enrolled, Foreign, UserWord, pmm.Valid, Backed;
      UserFrame(St(), owner, h, i, j);
      PagesPositive(St(), owner, h, i, j);
      var frame := UserWord(St(), h, i, j).frame;
      memory := PutWord(memory, DirWord(St(), h, i).frame, j, NONE);
      spaces := spaces[h := spaces[h].(pages := spaces[h].pages - 1)];
      hide PutWord, DirWord, UserChanged;
      UnmapUser(old(St()), owner, h, i, j, St());
      EnrolledSame(old(spaces), spaces, order);
      ForeignLost(pmm.taken, owner, frame);
      owner := owner - {frame};
      ReturnFrame(frame);
    }

    // ----- Runs of pages -------------------------------------------------------------------------

    /** Whether every page of the run is free. The tables are never found damaged. */
    method IsRunClear(h: nat, first: nat, pages: nat) returns (ok: bool)
      requires Sound() && h in spaces && h != KERNEL && KERNEL_ENTRIES * ENTRIES <= first
      requires first + pages <= USER_ENTRIES * ENTRIES
      ensures ok <==> RunClear(St(), h, first, pages)
    {
      hide Books, Enrolled, UserWord;
      for n := 0 to pages
        invariant RunClear(St(), h, first, n)
      {
        var i, j := (first + n) / ENTRIES, (first + n) % ENTRIES;
        assert Window(first, 0, pages, i, j);
        BooksDir(St(), owner, h, i);
        var w := DirWord(St(), h, i);
        if (w != NONE) != (i in spaces[h].owned) || (w != NONE && !IsUserTable(w)) { return false; }
        TableWord(St(), h, i, j);
        if w != NONE && WordAt(memory, w.frame, j) != NONE { return false; }
        LastOfWindow(first, n, i, j);
      }
      ok := true;
    }

    /** Map pages one after another until done or out of frames. */
    method MapRun(h: nat, first: nat, pages: nat, writable: bool) returns (mapped: nat, ghost extra: set<nat>)
      requires Sound() && h in spaces && h != KERNEL && KERNEL_ENTRIES * ENTRIES <= first
      requires first + pages <= USER_ENTRIES * ENTRIES
      requires RunClear(St(), h, first, pages)
      modifies this`memory, this`spaces, this`owner, pmm`taken, pmm`free, pmm`next
      ensures Sound() && Account() == old(Account()) && |pmm.taken| == |old(pmm.taken)| && mapped <= pages
      ensures Ahead(old(St()), old(owner), St(), owner, h, first, 0, mapped, writable, extra)
      ensures extra <= NewTables(old(St()), h, first, pages)
      ensures forall i :: i in extra ==> Touches(first, pages, i) && (mapped == pages ==> Touches(first, mapped, i))
      ensures pmm.free == old(pmm.free) - mapped - |extra|
      ensures mapped < pages ==> pmm.free == 0 && old(pmm.free) < pages + |NewTables(old(St()), h, first, pages)|
      ensures mapped == pages ==> extra == NewTables(old(St()), h, first, pages)
    {
      hide Books, Enrolled, Foreign, Ahead, RunClear, TableAdded, PageMapped, NewTables;
      mapped, extra := 0, {};
      AheadStart(St(), owner, h, first, writable);
      while mapped < pages
        invariant mapped <= pages && Sound() && Account() == old(Account()) && |pmm.taken| == |old(pmm.taken)|
        invariant Ahead(old(St()), old(owner), St(), owner, h, first, 0, mapped, writable, extra)
        invariant h in spaces && extra <= NewTables(old(St()), h, first, pages)
        invariant forall i :: i in extra ==> Touches(first, mapped, i)
        invariant forall i :: Touches(first, mapped, i) ==> i in spaces[h].owned
        invariant pmm.free == old(pmm.free) - mapped - |extra|
      {
        ghost var i := (first + mapped) / ENTRIES;
        NextIsClear(old(St()), h, first, mapped, pages);
        TouchesStep(first, mapped, i);
        var ok;
        ghost var more;
        ok, more := MapNext(h, first, mapped, writable, old(St()), old(owner), extra);
        NextIsNew(old(St()), h, first, mapped, pages, extra, more);
        extra := more;
        if !ok {
          SubsetSize(extra, NewTables(old(St()), h, first, pages));
          return;
        }
        AheadOwned(old(St()), old(owner), St(), owner, h, first, 0, mapped + 1, writable, extra);
        mapped := mapped + 1;
      }
      AheadOwned(old(St()), old(owner), St(), owner, h, first, 0, mapped, writable, extra);
      AllTables(old(St()), h, first, pages, extra, spaces[h].owned);
    }

    /** Map the next page of the run, with its table if it is the first there. */
    method MapNext(h: nat, first: nat, n: nat, writable: bool, ghost st0: Store, ghost owner0: map<nat, Use>,
                   ghost extra: set<nat>)
      returns (ok: bool, ghost more: set<nat>)
      requires Sound() && h in spaces && h != KERNEL && Books(st0, owner0)
      requires KERNEL_ENTRIES * ENTRIES <= first && first + n < USER_ENTRIES * ENTRIES
      requires Ahead(st0, owner0, St(), owner, h, first, 0, n, writable, extra)
      requires UserWord(st0, h, (first + n) / ENTRIES, (first + n) % ENTRIES) == NONE
      modifies this`memory, this`spaces, this`owner, pmm`taken, pmm`free, pmm`next
      ensures Sound() && Account() == old(Account()) && |pmm.taken| == |old(pmm.taken)| && h in spaces
      ensures var i := (first + n) / ENTRIES;
        (more == extra || (h in st0.spaces && i !in st0.spaces[h].owned && i !in extra && more == extra + {i}))
        && (ok ==> i in spaces[h].owned)
      ensures ok ==>
        Ahead(st0, owner0, St(), owner, h, first, 0, n + 1, writable, more) &&
        pmm.free + 1 + |more| == old(pmm.free) + |extra|
      ensures !ok ==>
        Ahead(st0, owner0, St(), owner, h, first, 0, n, writable, more) && pmm.free == 0 &&
        |more| == old(pmm.free) + |extra|
      ensures old(spaces)[h].owned <= spaces[h].owned
    {
      hide Books, Enrolled, Foreign, Ahead, UserWord, UserChanged, DirChanged, DirWord;
      var i, j := (first + n) / ENTRIES, (first + n) % ENTRIES;
      ok, more := TableFor(h, first, n, i, writable, st0, owner0, extra);
      if !ok { return; }
      AheadClear(st0, owner0, St(), owner, h, first, n, writable, more, i, j);
      ok := MapFrame(h, first, n, i, j, writable, st0, owner0, more);
    }

    /** Make sure the next page has its table. */
    method TableFor(h: nat, first: nat, n: nat, i: nat, writable: bool, ghost st0: Store, ghost owner0: map<nat, Use>,
                    ghost extra: set<nat>)
      returns (ok: bool, ghost more: set<nat>)
      requires Sound() && h in spaces && InUser(h, i) && Books(st0, owner0)
      requires Ahead(st0, owner0, St(), owner, h, first, 0, n, writable, extra)
      modifies this`memory, this`spaces, this`owner, pmm`taken, pmm`free, pmm`next
      ensures Sound() && Account() == old(Account()) && |pmm.taken| == |old(pmm.taken)| && h in spaces
      ensures h in st0.spaces
      ensures more == extra || (i !in st0.spaces[h].owned && i !in extra && more == extra + {i})
      ensures Ahead(st0, owner0, St(), owner, h, first, 0, n, writable, more)
      ensures pmm.free + |more| == old(pmm.free) + |extra| && (ok ==> i in spaces[h].owned) && (!ok ==> pmm.free == 0)
      ensures old(spaces)[h].owned <= spaces[h].owned
    {
      hide Books, Enrolled, Foreign, Backed, Ahead, TableAdded;
      AheadOwned(st0, owner0, St(), owner, h, first, 0, n, writable, extra);
      more := extra;
      ghost var f;
      ok, f := EnsureUserTable(h, i);
      if ok && i !in old(spaces)[h].owned {
        AddedAhead(st0, owner0, old(St()), old(owner), St(), owner, h, first, n, writable, extra, i, f);
        more := extra + {i};
      }
    }

    /** Take a frame for the page and enter it. */
    method MapFrame(h: nat, first: nat, n: nat, i: nat, j: nat, writable: bool, ghost st0: Store,
                    ghost owner0: map<nat, Use>, ghost extra: set<nat>)
      returns (ok: bool)
      requires Sound() && h in spaces && i in spaces[h].owned && j < ENTRIES && i * ENTRIES + j == first + n
      requires Ahead(st0, owner0, St(), owner, h, first, 0, n, writable, extra) && UserWord(St(), h, i, j) == NONE
      modifies this`memory, this`spaces, this`owner, pmm`taken, pmm`free, pmm`next
      ensures Sound() && Account() == old(Account()) && |pmm.taken| == |old(pmm.taken)| && h in spaces
      ensures ok ==>
        Ahead(st0, owner0, St(), owner, h, first, 0, n + 1, writable, extra) && pmm.free + 1 == old(pmm.free)
      ensures !ok ==> Ahead(st0, owner0, St(), owner, h, first, 0, n, writable, extra) && pmm.free == 0 == old(pmm.free)
      ensures spaces[h].owned == old(spaces)[h].owned
    {
      hide Books, Enrolled, Foreign, Ahead, UserWord, UserChanged, DirWord, pmm.Valid, Backed;
      var frame := TakeFrame();
      if frame == 0 { return false; }
      var w := Word(frame, true, writable, true);
      MapPage(h, i, j, w);
      AheadMapped(st0, owner0, old(St()), old(owner), St(), h, first, n, extra, i, j, w);
      ForeignGained(old(pmm.taken), old(owner), frame, User(h, i, j));
      ok := true;
    }

    /** Unmap the first `mapped` pages of the run again. */
    method UnwindRun(h: nat, first: nat, mapped: nat, ghost writable: bool, ghost st0: Store,
                     ghost owner0: map<nat, Use>, ghost extra: set<nat>)
      requires Sound() && h in spaces && Books(st0, owner0) && RunClear(st0, h, first, mapped)
      requires Ahead(st0, owner0, St(), owner, h, first, 0, mapped, writable, extra)
      modifies this`memory, this`spaces, this`owner, pmm`taken, pmm`free, pmm`next
      ensures Sound() && Account() == old(Account()) && |pmm.taken| == |old(pmm.taken)| && h in spaces
      ensures Ahead(st0, owner0, St(), owner, h, first, mapped, mapped, writable, extra)
    {
      hide Books, Enrolled, Foreign, Backed, Ahead, RunClear, PageUnmapped;
      for n := 0 to mapped
        invariant Sound() && Account() == old(Account()) && |pmm.taken| == |old(pmm.taken)| && h in spaces
        invariant Ahead(st0, owner0, St(), owner, h, first, n, mapped, writable, extra)
      {
        var i, j := (first + n) / ENTRIES, (first + n) % ENTRIES;
        NextIsClear(st0, h, first, n, mapped);
        AheadPresent(st0, owner0, St(), owner, h, first, n, mapped, writable, extra, i, j);
        ghost var before, ledger := St(), owner;
        UnmapPage(h, i, j);
        UnmappedAhead(st0, owner0, before, ledger, St(), owner, h, first, n, mapped, writable, extra, i, j);
      }
    }

    /** Give back every empty private table with an index from `from` up to `to`. */
    method ReclaimTables(h: nat, from: nat, to: nat)
      requires Sound() && h in spaces && from <= to
      modifies this`memory, this`spaces, this`owner, pmm`taken, pmm`free, pmm`next
      ensures Sound() && Account() == old(Account()) && |pmm.taken| == |old(pmm.taken)| && h in spaces
      ensures Reclaimed(old(St()), old(owner), St(), owner, h, Empties(old(St()), h, from, to))
    {
      hide Sound, Account, Reclaimed, Empties;
      SoundBooks();
      ReclaimNothing(St(), owner, h);
      EmptiesNone(St(), h, from);
      for i := from to to
        invariant Sound() && Account() == old(Account()) && |pmm.taken| == |old(pmm.taken)| && h in spaces
        invariant Reclaimed(old(St()), old(owner), St(), owner, h, Empties(old(St()), h, from, i))
      {
        ReclaimOne(h, from, i, old(St()), old(owner));
      }
    }

    lemma SoundBooks()
      requires Sound()
      ensures Books(St(), owner)
    {
      hide Books, Backed, Enrolled, pmm.Valid;
    }

    /** Return table `i` if nothing is left in it. */
    method ReclaimOne(h: nat, ghost from: nat, i: nat, ghost st0: Store, ghost owner0: map<nat, Use>)
      requires Sound() && h in spaces && from <= i
      requires Books(st0, owner0) && Reclaimed(st0, owner0, St(), owner, h, Empties(st0, h, from, i))
      modifies this`memory, this`spaces, this`owner, pmm`taken, pmm`free, pmm`next
      ensures Sound() && Account() == old(Account()) && |pmm.taken| == |old(pmm.taken)| && h in spaces
      ensures Reclaimed(st0, owner0, St(), owner, h, Empties(st0, h, from, i + 1))
    {
      hide Books, Enrolled, Foreign, Backed, Reclaimed, TableRemoved, Empties, TableEmpty, pmm.Valid, Account;
      EmptiesStep(st0, owner0, St(), owner, h, from, i);
      if i in spaces[h].owned {
        var empty := IsTableEmpty(h, i);
        if empty {
          RemoveTable(h, i);
          RemovedReclaims(st0, owner0, old(St()), old(owner), St(), owner, h, Empties(st0, h, from, i), i);
        }
      }
    }

    /** When an allocation succeeds: a legal request for unmapped pages of a registered
        process space, within its budget, and frames for the pages and their tables. */
    ghost predicate Allocatable(h: nat, virtual: nat, pages: nat, flags: nat)
      reads this, pmm
    {
      && enabled && UserRange(virtual, pages) && (flags == 0 || flags == WRITABLE)
      && h in spaces && h != KERNEL && spaces[h].pages + pages <= USER_PAGE_LIMIT
      && RunClear(St(), h, virtual / PAGE, pages)
      && pages + |NewTables(St(), h, virtual / PAGE, pages)| <= pmm.free
    }

    /** Map zeroed pages. All of them, or nothing changes. */
    method UserAllocate(h: nat, virtual: nat, pages: nat, flags: nat) returns (ok: bool)
      requires Valid()
      modifies this`memory, this`spaces, this`owner, pmm`taken, pmm`free, pmm`next
      ensures Valid() && Account() == old(Account())
      ensures ok <==> old(Allocatable(h, virtual, pages, flags))
      ensures ok ==>
        Ahead(old(St()), old(owner), St(), owner, h, virtual / PAGE, 0, pages, flags == WRITABLE,
              NewTables(old(St()), h, virtual / PAGE, pages))
      ensures ok ==> pmm.free == old(pmm.free) - pages - |NewTables(old(St()), h, virtual / PAGE, pages)|
      ensures !ok ==> Restored(old(St()), old(owner), St(), owner) && pmm.taken == old(pmm.taken)
    {
      hide Books, Enrolled, Foreign, Backed, Ahead, RunClear, NoneEmpty, Restored, NewTables;
      RestoredSelf(St(), owner);
      if !UserRange(virtual, pages) || (flags != 0 && flags != WRITABLE) || !enabled { return false; }
      if h !in spaces || h == KERNEL || spaces[h].pages > USER_PAGE_LIMIT || pages > USER_PAGE_LIMIT - spaces[h].pages {
        return false;
      }
      var first := virtual / PAGE;
      RangeInUser(virtual, pages);
      var clear := IsRunClear(h, first, pages);
      if !clear { return false; }
      ok := AllocateRun(h, first, pages, flags == WRITABLE);
    }

    method AllocateRun(h: nat, first: nat, pages: nat, writable: bool) returns (ok: bool)
      requires Sound() && NoneEmpty(St()) && h in spaces && h != KERNEL
      requires KERNEL_ENTRIES * ENTRIES <= first && first + pages <= USER_ENTRIES * ENTRIES && pages > 0
      requires RunClear(St(), h, first, pages)
      modifies this`memory, this`spaces, this`owner, pmm`taken, pmm`free, pmm`next
      ensures Sound() && NoneEmpty(St()) && Account() == old(Account())
      ensures ok <==> pages + |NewTables(old(St()), h, first, pages)| <= old(pmm.free)
      ensures ok ==>
        Ahead(old(St()), old(owner), St(), owner, h, first, 0, pages, writable, NewTables(old(St()), h, first, pages))
      ensures ok ==> pmm.free == old(pmm.free) - pages - |NewTables(old(St()), h, first, pages)|
      ensures !ok ==> Restored(old(St()), old(owner), St(), owner) && pmm.taken == old(pmm.taken)
    {
      hide Books, Enrolled, Foreign, Ahead, RunClear, NoneEmpty, Restored, NewTables;
      var mapped;
      ghost var extra;
      mapped, extra := MapRun(h, first, pages, writable);
      AheadOwned(old(St()), old(owner), St(), owner, h, first, 0, mapped, writable, extra);
      if mapped == pages {
        NoneEmptyAhead(old(St()), old(owner), St(), owner, h, first, pages, writable, extra);
        return true;
      }
      ShorterClear(old(St()), h, first, mapped, pages);
      UnwindRun(h, first, mapped, writable, old(St()), old(owner), extra);
      ghost var before, ledger := St(), owner;
      var from, to := first / ENTRIES, (first + pages - 1) / ENTRIES + 1;
      ReclaimTables(h, from, to);
      UndoneIsRestored(old(St()), old(owner), before, ledger, St(), owner, h, first, mapped, writable, extra, from, to);
      RestoredKeeps(old(St()), old(owner), St(), owner);
      SameTaken(old(pmm.taken), pmm.taken, owner);
      ok := false;
    }

    /** Whether no entry of the table is present. */
    method IsTableEmpty(h: nat, i: nat) returns (b: bool)
      requires Sound() && h in spaces && i in spaces[h].owned
      ensures b <==> TableEmpty(St(), h, i)
    {
      hide Books, Enrolled, UserWord, DirWord;
      OwnedTable(St(), owner, h, i);
      var table := DirWord(St(), h, i).frame;
      for j := 0 to ENTRIES
        invariant forall l: nat :: l < j ==> !UserWord(St(), h, i, l).present
      {
        TableWord(St(), h, i, j);
        if WordAt(memory, table, j).present { return false; }
      }
      b := true;
    }
  }

  lemma TableWord(st: Store, h: nat, i: nat, j: nat)
    requires InUser(h, i)
    ensures UserWord(st, h, i, j) ==
      if DirWord(st, h, i).present then WordAt(st.memory, DirWord(st, h, i).frame, j) else NONE
  {
  }

  /** A window of `n + 1` pages is one of `n` and the entry of the last. */
  lemma LastOfWindow(first: nat, n: nat, i: nat, j: nat)
    requires i == (first + n) / ENTRIES && j == (first + n) % ENTRIES
    ensures forall k, l :: Window(first, 0, n + 1, k, l) <==> Window(first, 0, n, k, l) || (k == i && l == j)
  {
  }

  lemma NextIsClear(st: Store, h: nat, first: nat, n: nat, pages: nat)
    requires RunClear(st, h, first, pages) && n < pages
    ensures UserWord(st, h, (first + n) / ENTRIES, (first + n) % ENTRIES) == NONE
  {
    assert Window(first, 0, pages, (first + n) / ENTRIES, (first + n) % ENTRIES);
  }

  lemma TouchesStep(first: nat, n: nat, i: nat)
    requires i == (first + n) / ENTRIES
    ensures forall k: nat :: Touches(first, n + 1, k) <==> Touches(first, n, k) || k == i
  {
  }

  lemma NextIsNew(st: Store, h: nat, first: nat, n: nat, pages: nat, extra: set<nat>, more: set<nat>)
    requires h in st.spaces && n < pages && extra <= NewTables(st, h, first, pages)
    requires first + pages <= USER_ENTRIES * ENTRIES
    requires var i := (first + n) / ENTRIES; more == extra || (i !in st.spaces[h].owned && more == extra + {i})
    ensures more <= NewTables(st, h, first, pages)
    ensures forall i :: i in more ==> Touches(first, pages, i)
  {
    var i := (first + n) / ENTRIES;
    assert Touches(first, pages, i);
  }

  lemma AheadOwned(st0: Store, owner0: map<nat, Use>, st: Store, owner: map<nat, Use>, h: nat, first: nat, lo: nat,
                   hi: nat, writable: bool, extra: set<nat>)
    requires Ahead(st0, owner0, st, owner, h, first, lo, hi, writable, extra)
    ensures h in st0.spaces && h in st.spaces && st.spaces[h].owned == st0.spaces[h].owned + extra
    ensures extra !! st0.spaces[h].owned
  {
  }

  lemma AheadClear(st0: Store, owner0: map<nat, Use>, st: Store, owner: map<nat, Use>, h: nat, first: nat, n: nat,
                   writable: bool, extra: set<nat>, i: nat, j: nat)
    requires Ahead(st0, owner0, st, owner, h, first, 0, n, writable, extra) && UserWord(st0, h, i, j) == NONE
    requires i * ENTRIES + j == first + n
    ensures UserWord(st, h, i, j) == NONE
  {
    assert !Window(first, 0, n, i, j);
  }

  lemma AllTables(st: Store, h: nat, first: nat, pages: nat, extra: set<nat>, owned: set<nat>)
    requires h in st.spaces && extra <= NewTables(st, h, first, pages) && owned == st.spaces[h].owned + extra
    requires forall i :: Touches(first, pages, i) ==> i in owned
    ensures extra == NewTables(st, h, first, pages)
  {
  }

  lemma AheadPresent(st0: Store, owner0: map<nat, Use>, st: Store, owner: map<nat, Use>, h: nat, first: nat, lo: nat,
                     hi: nat, writable: bool, extra: set<nat>, i: nat, j: nat)
    requires Ahead(st0, owner0, st, owner, h, first, lo, hi, writable, extra) && lo < hi && j < ENTRIES
    requires i * ENTRIES + j == first + lo
    ensures UserWord(st, h, i, j).present && UserWord(st, h, i, j).frame !in owner0
  {
    assert Window(first, lo, hi, i, j);
    assert FreshPage(st, owner0, UserWord(st, h, i, j), writable);
  }

  lemma UnmappedAhead(st0: Store, owner0: map<nat, Use>, st: Store, owner: map<nat, Use>, st': Store,
                      owner': map<nat, Use>, h: nat, first: nat, lo: nat, hi: nat, writable: bool, extra: set<nat>,
                      i: nat, j: nat)
    requires Books(st, owner) && Ahead(st0, owner0, st, owner, h, first, lo, hi, writable, extra)
    requires lo < hi && j < ENTRIES && i * ENTRIES + j == first + lo && UserWord(st0, h, i, j) == NONE
    requires UserWord(st, h, i, j).present && PageUnmapped(st, owner, st', owner', h, i, j)
    ensures Ahead(st0, owner0, st', owner', h, first, lo + 1, hi, writable, extra) && st'.spaces.Keys == st.spaces.Keys
  {
    hide Books, Ahead, UserChanged, UserWord, DirWord;
    AheadUnmapped(st0, owner0, st, owner, st', h, first, lo, hi, writable, extra, i, j);
  }

  lemma EmptiesNone(st: Store, h: nat, from: nat)
    ensures Empties(st, h, from, from) == {}
  {
  }

  /** The tables to reclaim among one more index. */
  lemma EmptiesStep(st0: Store, owner0: map<nat, Use>, st: Store, owner: map<nat, Use>, h: nat, from: nat, i: nat)
    requires Reclaimed(st0, owner0, st, owner, h, Empties(st0, h, from, i)) && from <= i
    ensures h in st0.spaces && (i in st.spaces[h].owned <==> i in st0.spaces[h].owned)
    ensures Empties(st0, h, from, i + 1) ==
      if i in st.spaces[h].owned && TableEmpty(st, h, i) then Empties(st0, h, from, i) + {i}
      else Empties(st0, h, from, i)
  {
    hide UserWord;
    assert TableEmpty(st, h, i) <==> TableEmpty(st0, h, i);
  }

  lemma RemovedReclaims(st0: Store, owner0: map<nat, Use>, st: Store, owner: map<nat, Use>, st': Store,
                        owner': map<nat, Use>, h: nat, gone: set<nat>, i: nat)
    requires Books(st0, owner0) && Books(st, owner) && Reclaimed(st0, owner0, st, owner, h, gone)
    requires i in st.spaces[h].owned && TableRemoved(st, owner, st', owner', h, i)
    ensures Reclaimed(st0, owner0, st', owner', h, gone + {i}) && st'.spaces.Keys == st.spaces.Keys
  {
    hide Books, DirChanged;
    ReclaimStep(st0, owner0, st, owner, st', h, gone, i);
  }

  lemma RestoredSelf(st: Store, owner: map<nat, Use>)
    ensures Restored(st, owner, st, owner)
  {
  }

  lemma RangeInUser(virtual: nat, pages: nat)
    requires UserRange(virtual, pages)
    ensures KERNEL_ENTRIES * ENTRIES <= virtual / PAGE && virtual / PAGE + pages <= USER_ENTRIES * ENTRIES
  {
  }

  lemma ShorterClear(st: Store, h: nat, first: nat, n: nat, pages: nat)
    requires RunClear(st, h, first, pages) && n <= pages
    ensures RunClear(st, h, first, n)
  {
    assert forall k, l :: Window(first, 0, n, k, l) ==> Window(first, 0, pages, k, l);
  }

  lemma RestoredKeeps(st0: Store, owner0: map<nat, Use>, st: Store, owner: map<nat, Use>)
    requires Books(st0, owner0) && NoneEmpty(st0) && Restored(st0, owner0, st, owner)
    ensures owner == owner0 && NoneEmpty(st)
  {
    assert forall h, i, j :: UserWord(st, h, i, j) == UserWord(st0, h, i, j) by {
      forall h, i, j
        ensures UserWord(st, h, i, j) == UserWord(st0, h, i, j)
      {
        assert FrameOf(st0, Private(h, i)) == if InUser(h, i) then Frame(DirWord(st0, h, i)) else None;
        if h in st0.spaces { assert FrameOf(st0, Directory(h)).Some?; }
      }
    }
    forall h, i | h in st.spaces && i in st.spaces[h].owned
      ensures !TableEmpty(st, h, i)
    {
      assert !TableEmpty(st0, h, i);
      var j: nat :| j < ENTRIES && UserWord(st0, h, i, j).present;
      assert UserWord(st, h, i, j).present;
    }
  }

  lemma TablesPositive(st: Store, owner: map<nat, Use>, h: nat, i: nat)
    requires Books(st, owner) && h in st.spaces && i in st.spaces[h].owned
    ensures st.spaces[h].tables > 0
  {
    OwnedTable(st, owner, h, i);
    assert DirWord(st, h, i).frame in TablesOf(owner, h);
  }

  lemma PagesPositive(st: Store, owner: map<nat, Use>, h: nat, i: nat, j: nat)
    requires Books(st, owner) && UserWord(st, h, i, j).present
    ensures h in st.spaces && st.spaces[h].pages > 0
  {
    UserFrame(st, owner, h, i, j);
    assert UserWord(st, h, i, j).frame in UsersOf(owner, h);
  }

  lemma AddedAhead(st0: Store, owner0: map<nat, Use>, st: Store, owner: map<nat, Use>, st': Store,
                   owner': map<nat, Use>, h: nat, first: nat, n: nat, writable: bool, extra: set<nat>, i: nat, f: nat)
    requires Books(st0, owner0) && Books(st, owner) && Ahead(st0, owner0, st, owner, h, first, 0, n, writable, extra)
    requires InUser(h, i) && h in st.spaces && i !in st.spaces[h].owned && TableAdded(st, owner, st', owner', h, i, f)
    ensures Ahead(st0, owner0, st', owner', h, first, 0, n, writable, extra + {i})
    ensures st'.spaces.Keys == st.spaces.Keys && st'.spaces[h].owned == st.spaces[h].owned + {i}
  {
    hide Books, Ahead, DirChanged;
    AheadTable(st0, owner0, st, owner, st', h, first, 0, n, writable, extra, i, f);
  }

  lemma AddedKeys(st: Store, owner: map<nat, Use>, st': Store, owner': map<nat, Use>, h: nat, i: nat, f: nat)
    requires TableAdded(st, owner, st', owner', h, i, f)
    ensures st'.spaces.Keys == st.spaces.Keys && owner' == owner[f := Private(h, i)]
  {
  }

  ghost predicate TableRemoved(st: Store, owner: map<nat, Use>, st': Store, owner': map<nat, Use>, h: nat, i: nat) {
    && owner' == owner - {DirWord(st, h, i).frame} && DirChanged(st, st', h, i, NONE) && h in st.spaces
    && st.spaces[h].tables > 0
    && st'.spaces == st.spaces[h := st.spaces[h].(tables := st.spaces[h].tables - 1, owned := st.spaces[h].owned - {i})]
    && (forall g :: g in st.memory && g != st.spaces[h].directory ==> g in st'.memory && st'.memory[g] == st.memory[g])
  }

  ghost predicate PageMapped(st: Store, owner: map<nat, Use>, st': Store, owner': map<nat, Use>, h: nat, i: nat, j: nat,
                             w: Word) {
    && owner' == owner[w.frame := User(h, i, j)] && UserChanged(st, st', h, i, j, w) && h in st.spaces
    && st'.spaces == st.spaces[h := st.spaces[h].(pages := st.spaces[h].pages + 1)]
    && (forall f :: f in st.memory && f != w.frame && f != DirWord(st, h, i).frame ==>
          f in st'.memory && st'.memory[f] == st.memory[f])
    && w.frame in st'.memory && st'.memory[w.frame] == ZEROED
  }

  ghost predicate PageUnmapped(st: Store, owner: map<nat, Use>, st': Store, owner': map<nat, Use>, h: nat, i: nat,
                               j: nat) {
    && owner' == owner - {UserWord(st, h, i, j).frame} && UserChanged(st, st', h, i, j, NONE) && h in st.spaces
    && st.spaces[h].pages > 0
    && st'.spaces == st.spaces[h := st.spaces[h].(pages := st.spaces[h].pages - 1)]
    && (forall f :: f in st.memory && f != DirWord(st, h, i).frame ==> f in st'.memory && st'.memory[f] == st.memory[f])
  }

  lemma EnrolledSame(spaces: map<nat, Space>, spaces': map<nat, Space>, order: seq<nat>)
    requires Enrolled(spaces, order) && spaces'.Keys == spaces.Keys
    ensures Enrolled(spaces', order)
  {
  }

  ghost predicate TableAdded(st: Store, owner: map<nat, Use>, st': Store, owner': map<nat, Use>, h: nat, i: nat,
                             f: nat) {
    && f !in owner && owner' == owner[f := Private(h, i)] && DirChanged(st, st', h, i, Word(f, true, true, true))
    && h in st.spaces
    && st'.spaces == st.spaces[h := st.spaces[h].(tables := st.spaces[h].tables + 1, owned := st.spaces[h].owned + {i})]
    && (forall g :: g in st.memory && g != f && g != st.spaces[h].directory ==>
          g in st'.memory && st'.memory[g] == st.memory[g])
  }
}
