/** Building a process from a load plan: a new space, its segments and its stack. */
module ElfLoad {
  import opened Common
  import opened Frames
  import opened PageTables
  import opened PageSteps
  import opened PageRuns
  import opened Paging
  import opened UserPages
  import opened UserCopy
  import opened SpaceLife
  import opened Disk
  import E = ElfPlan
  import A = Arguments

  // ----- What a program sees of its space -------------------------------------------------------

  /** Whether page `v` of space `h` is mapped, and if so whether it may be written. */
  function Perm(st: Store, h: nat, v: nat): Option<bool> {
    var w := UserWord(st, h, v / ENTRIES, v % ENTRIES);
    if w.present then Some(w.writable) else None
  }

  predicate Covers(s: E.Segment, v: nat) { s.start / PAGE <= v < s.start / PAGE + s.pages }

  /** The byte a segment puts at an address of its pages: from the file, or zero. */
  function SegmentByte(image: seq<byte>, s: E.Segment, a: nat): byte {
    var p := s.program;
    if p.address <= a < p.address + p.fileBytes && p.offset + (a - p.address) < |image|
    then image[p.offset + (a - p.address)]
    else 0
  }

  function PermOf(segments: seq<E.Segment>, v: nat): Option<bool> {
    if segments == [] then None
    else
      var last := segments[|segments| - 1];
      if Covers(last, v) then Some(E.CanWrite(last.program.flags)) else PermOf(segments[..|segments| - 1], v)
  }

  function ByteOf(image: seq<byte>, segments: seq<E.Segment>, a: nat): Option<byte> {
    if segments == [] then None
    else
      var last := segments[|segments| - 1];
      if Covers(last, a / PAGE) then Some(SegmentByte(image, last, a)) else ByteOf(image, segments[..|segments| - 1], a)
  }

  /** The space holds exactly these segments: every byte and every permission. */
  ghost predicate Loaded(st: Store, h: nat, image: seq<byte>, segments: seq<E.Segment>) {
    && (forall v: nat :: Perm(st, h, v) == PermOf(segments, v))
    && (forall a: nat :: ByteAt(st, h, a) == ByteOf(image, segments, a))
  }

  /** Nothing of any other space, and no kernel stack, differs. */
  ghost predicate Elsewhere(st: Store, st': Store, h: nat) {
    && (forall g :: g in st.spaces && g != h ==> g in st'.spaces && st'.spaces[g] == st.spaces[g])
    && (forall g, k, l :: g != h ==> UserWord(st', g, k, l) == UserWord(st, g, k, l))
    && (forall g: nat, a: nat :: g != h ==> ByteAt(st', g, a) == ByteAt(st, g, a))
    && (forall l :: StackWord(st', l) == StackWord(st, l))
  }

  lemma ElsewhereTwice(a: Store, b: Store, c: Store, h: nat)
    requires Elsewhere(a, b, h) && Elsewhere(b, c, h)
    ensures Elsewhere(a, c, h)
  {
    hide UserWord, StackWord, ByteAt;
  }

  lemma WordOfAddress(st: Store, h: nat, a: nat)
    ensures AddressWord(st, h, a) == UserWord(st, h, (a / PAGE) / ENTRIES, (a / PAGE) % ENTRIES)
  {
    PageOf(a);
  }

  predicate InRun(first: nat, n: nat, v: nat) { first <= v < first + n }

  lemma RunWindow(first: nat, n: nat, v: nat)
    ensures Window(first, 0, n, v / ENTRIES, v % ENTRIES) <==> InRun(first, n, v)
  {
  }

  /** What an allocation shows: zeroed pages in the run, everything else as before. */
  lemma AllocatedView(st0: Store, owner0: map<nat, Use>, st: Store, owner: map<nat, Use>, h: nat, first: nat, n: nat,
                      writable: bool, extra: set<nat>, g: nat, v: nat)
    requires Books(st0, owner0) && Books(st, owner) && Ahead(st0, owner0, st, owner, h, first, 0, n, writable, extra)
    ensures Perm(st, g, v) == if g == h && InRun(first, n, v) then Some(writable) else Perm(st0, g, v)
  {
    hide Books, UserWord, DirWord, StackWord;
    RunWindow(first, n, v);
    if g == h && InRun(first, n, v) {
      assert FreshPage(st, owner0, UserWord(st, h, v / ENTRIES, v % ENTRIES), writable);
    }
  }

  lemma AllocatedByte(st0: Store, owner0: map<nat, Use>, st: Store, owner: map<nat, Use>, h: nat, first: nat, n: nat,
                      writable: bool, extra: set<nat>, g: nat, a: nat)
    requires Books(st0, owner0) && Books(st, owner) && Ahead(st0, owner0, st, owner, h, first, 0, n, writable, extra)
    ensures ByteAt(st, g, a) == if g == h && InRun(first, n, a / PAGE) then Some(0) else ByteAt(st0, g, a)
  {
    hide Books, UserWord, DirWord, StackWord;
    var v := a / PAGE;
    RunWindow(first, n, v);
    WordOfAddress(st, g, a);
    WordOfAddress(st0, g, a);
    if g == h && InRun(first, n, v) {
      assert FreshPage(st, owner0, UserWord(st, h, v / ENTRIES, v % ENTRIES), writable);
    } else {
      var w := UserWord(st0, g, v / ENTRIES, v % ENTRIES);
      assert UserWord(st, g, v / ENTRIES, v % ENTRIES) == w;
      if w.present { UserFrame(st0, owner0, g, v / ENTRIES, v % ENTRIES); }
    }
  }

  lemma AllocatedElsewhere(st0: Store, owner0: map<nat, Use>, st: Store, owner: map<nat, Use>, h: nat, first: nat,
                           n: nat, writable: bool, extra: set<nat>)
    requires Books(st0, owner0) && Books(st, owner) && Ahead(st0, owner0, st, owner, h, first, 0, n, writable, extra)
    ensures Elsewhere(st0, st, h)
  {
    hide Books, UserWord, DirWord, StackWord, ByteAt;
    forall g: nat, a: nat | g != h
      ensures ByteAt(st, g, a) == ByteAt(st0, g, a)
    {
      AllocatedByte(st0, owner0, st, owner, h, first, n, writable, extra, g, a);
    }
  }

  lemma CopiedView(st0: Store, owner: map<nat, Use>, st: Store, h: nat, to: nat, source: seq<byte>)
    requires SameTables(st0, owner, st, h) && Overlaid(st0, st, h, to, source)
    ensures Elsewhere(st0, st, h) && forall v: nat :: Perm(st, h, v) == Perm(st0, h, v)
  {
    hide UserWord, StackWord, ByteAt, DirWord;
  }

  lemma ProtectedByte(st0: Store, owner: map<nat, Use>, st: Store, h: nat, first: nat, n: nat, writable: bool, g: nat,
                      a: nat)
    requires Books(st0, owner) && Protected(st0, owner, st, h, first, n, writable)
    ensures ByteAt(st, g, a) == ByteAt(st0, g, a)
  {
    hide Books, UserWord, DirWord, StackWord;
    var v := a / PAGE;
    WordOfAddress(st, g, a);
    WordOfAddress(st0, g, a);
    var w := UserWord(st0, g, v / ENTRIES, v % ENTRIES);
    if w.present { UserFrame(st0, owner, g, v / ENTRIES, v % ENTRIES); }
  }

  lemma ProtectedView(st0: Store, owner: map<nat, Use>, st: Store, h: nat, first: nat, n: nat, writable: bool)
    requires Books(st0, owner) && Protected(st0, owner, st, h, first, n, writable) && RunMapped(st0, h, first, n)
    ensures Elsewhere(st0, st, h)
    ensures forall v: nat :: Perm(st, h, v) == if InRun(first, n, v) then Some(writable) else Perm(st0, h, v)
    ensures forall a: nat :: ByteAt(st, h, a) == ByteAt(st0, h, a)
  {
    hide Books, UserWord, StackWord, ByteAt, DirWord;
    forall g: nat, a: nat
      ensures ByteAt(st, g, a) == ByteAt(st0, g, a)
    {
      ProtectedByte(st0, owner, st, h, first, n, writable, g, a);
    }
    forall v: nat
      ensures Perm(st, h, v) == if InRun(first, n, v) then Some(writable) else Perm(st0, h, v)
    {
      RunWindow(first, n, v);
      if InRun(first, n, v) { assert UserWord(st0, h, v / ENTRIES, v % ENTRIES).present; }
    }
  }

  // ----- One segment ----------------------------------------------------------------------------

  function FirstPageOf(s: E.Segment): nat { s.start / PAGE }

  /** Pages of the segment are free. */
  ghost predicate Unused(segments: seq<E.Segment>, s: E.Segment) {
    forall v: nat :: Covers(s, v) ==> PermOf(segments, v) == None
  }

  lemma ClearForSegment(st: Store, owner: map<nat, Use>, h: nat, image: seq<byte>, done: seq<E.Segment>, s: E.Segment)
    requires Books(st, owner) && Loaded(st, h, image, done) && Unused(done, s)
    ensures RunClear(st, h, FirstPageOf(s), s.pages)
  {
    hide Books, UserWord, ByteAt, PermOf, ByteOf;
    forall k: nat, l: nat | Window(FirstPageOf(s), 0, s.pages, k, l)
      ensures UserWord(st, h, k, l) == NONE
    {
      var v := k * ENTRIES + l;
      assert v / ENTRIES == k && v % ENTRIES == l && Covers(s, v);
      assert Perm(st, h, v) == PermOf(done, v);
      UserWordOk(st, owner, h, k, l);
    }
  }

  lemma SegmentWritable(st: Store, h: nat, s: E.Segment, bytes: nat)
    requires E.SegmentOk(s, bytes) && h in st.spaces && h != KERNEL
    requires forall v: nat :: Covers(s, v) ==> Perm(st, h, v) == Some(true)
    ensures Accessible(st, h, s.program.address, s.program.fileBytes, true)
  {
    hide UserWord;
    var p := s.program;
    forall a | p.address <= a < p.address + p.fileBytes
      ensures AddressWord(st, h, a).present && AddressWord(st, h, a).writable
    {
      WordOfAddress(st, h, a);
      assert Covers(s, a / PAGE);
      assert Perm(st, h, a / PAGE) == Some(true);
    }
  }

  lemma SegmentMapped(st: Store, h: nat, s: E.Segment)
    requires forall v: nat :: Covers(s, v) ==> Perm(st, h, v) == Some(true)
    ensures RunMapped(st, h, FirstPageOf(s), s.pages)
  {
    hide UserWord;
    forall k: nat, l: nat | Window(FirstPageOf(s), 0, s.pages, k, l)
      ensures UserWord(st, h, k, l).present
    {
      var v := k * ENTRIES + l;
      assert v / ENTRIES == k && v % ENTRIES == l && Covers(s, v);
      assert Perm(st, h, v) == Some(true);
    }
  }

  /** After the allocation and the copy: the pages are writable and hold the segment. */
  ghost predicate Poured(st: Store, h: nat, image: seq<byte>, done: seq<E.Segment>, s: E.Segment, writable: bool) {
    && (forall v: nat :: Perm(st, h, v) == if Covers(s, v) then Some(writable) else PermOf(done, v))
    && (forall a: nat ::
          ByteAt(st, h, a) == if Covers(s, a / PAGE) then Some(SegmentByte(image, s, a)) else ByteOf(image, done, a))
  }

  lemma PouredIsLoaded(st: Store, h: nat, image: seq<byte>, done: seq<E.Segment>, s: E.Segment)
    requires Poured(st, h, image, done, s, E.CanWrite(s.program.flags))
    ensures Loaded(st, h, image, done + [s])
  {
    hide Perm, ByteAt;
    var more := done + [s];
    assert more[..|done|] == done && more[|done|] == s;
  }

  /** The pages are mapped writable and still zero. */
  ghost predicate Blank(st: Store, h: nat, image: seq<byte>, done: seq<E.Segment>, s: E.Segment) {
    && (forall v: nat :: Perm(st, h, v) == if Covers(s, v) then Some(true) else PermOf(done, v))
    && (forall a: nat :: ByteAt(st, h, a) == if Covers(s, a / PAGE) then Some(0) else ByteOf(image, done, a))
  }

  lemma CopyPours(st: Store, st': Store, h: nat, image: seq<byte>, done: seq<E.Segment>, s: E.Segment)
    requires E.SegmentOk(s, |image|) && Blank(st, h, image, done, s)
    requires forall v: nat :: Perm(st', h, v) == Perm(st, h, v)
    requires Overlaid(st, st', h, s.program.address, image[s.program.offset..s.program.offset + s.program.fileBytes])
    ensures Poured(st', h, image, done, s, true)
  {
    hide Perm, ByteAt, PermOf, ByteOf;
    var p := s.program;
    forall a: nat
      ensures ByteAt(st', h, a) ==
        if Covers(s, a / PAGE) then Some(SegmentByte(image, s, a)) else ByteOf(image, done, a)
    {
      if p.address <= a < p.address + p.fileBytes { assert Covers(s, a / PAGE); }
    }
  }

  /** Frames recorded since belong to the space. */
  ghost predicate OwnerGrew(owner0: map<nat, Use>, owner: map<nat, Use>, h: nat) {
    && (forall f :: f in owner0 ==> f in owner && owner[f] == owner0[f])
    && (forall f :: f in owner && f !in owner0 ==> OfSpace(owner[f], h))
  }

  lemma AheadGrew(owner0: map<nat, Use>, st: Store, owner: map<nat, Use>, st': Store, owner': map<nat, Use>, h: nat,
                  first: nat, n: nat, writable: bool, extra: set<nat>)
    requires OwnerGrew(owner0, owner, h) && Ahead(st, owner, st', owner', h, first, 0, n, writable, extra)
    ensures OwnerGrew(owner0, owner', h)
  {
    forall f | f in owner' && f !in owner0
      ensures OfSpace(owner'[f], h)
    {
      if f !in owner { assert NewUse(owner'[f], h, first, 0, n, extra); }
    }
  }

  /** Tables a run of pages lies in. */
  ghost function Touched(first: nat, n: nat): set<nat> {
    set i: nat | i < USER_ENTRIES && Touches(first, n, i)
  }

  /** Map, fill and protect one segment. */
  method LoadSegment(s: AddressSpaces, h: nat, image: seq<byte>, segment: E.Segment, ghost done: seq<E.Segment>,
                     ghost owner0: map<nat, Use>)
    returns (ok: bool)
    requires s.Valid() && s.enabled && h in s.spaces && h != KERNEL && E.SegmentOk(segment, |image|)
    requires Loaded(s.St(), h, image, done) && Unused(done, segment)
    requires s.spaces[h].pages + segment.pages <= USER_PAGE_LIMIT && OwnerGrew(owner0, s.owner, h)
    modifies s`memory, s`spaces, s`owner, s.pmm`taken, s.pmm`free, s.pmm`next
    ensures s.Valid() && s.Account() == old(s.Account()) && Elsewhere(old(s.St()), s.St(), h)
    ensures s.spaces.Keys == old(s.spaces).Keys && OwnerGrew(owner0, s.owner, h)
    ensures ok <==>
      segment.pages + |Touched(FirstPageOf(segment), segment.pages) - old(s.spaces)[h].owned| <= old(s.pmm.free)
    ensures ok ==>
      Loaded(s.St(), h, image, done + [segment]) && s.spaces[h].pages == old(s.spaces)[h].pages + segment.pages
    ensures ok ==> s.spaces[h].owned == old(s.spaces)[h].owned + Touched(FirstPageOf(segment), segment.pages)
    ensures ok ==>
      s.pmm.free ==
        old(s.pmm.free) - segment.pages - |Touched(FirstPageOf(segment), segment.pages) - old(s.spaces)[h].owned|
  {
    hide Books, Enrolled, Backed, Foreign, NoneEmpty, Loaded, Elsewhere, Blank, OwnerGrew, Unused, Touched;
    ok := AllocateSegment(s, h, image, segment, done, owner0);
    if ok {
      ghost var blank := s.St();
      FillSegment(s, h, image, segment, done);
      ElsewhereTwice(old(s.St()), blank, s.St(), h);
    }
  }

  /** Map the pages of a segment. */
  method AllocateSegment(s: AddressSpaces, h: nat, image: seq<byte>, segment: E.Segment, ghost done: seq<E.Segment>,
                         ghost owner0: map<nat, Use>)
    returns (ok: bool)
    requires s.Valid() && s.enabled && h in s.spaces && h != KERNEL && E.SegmentOk(segment, |image|)
    requires Loaded(s.St(), h, image, done) && Unused(done, segment)
    requires s.spaces[h].pages + segment.pages <= USER_PAGE_LIMIT && OwnerGrew(owner0, s.owner, h)
    modifies s`memory, s`spaces, s`owner, s.pmm`taken, s.pmm`free, s.pmm`next
    ensures s.Valid() && s.Account() == old(s.Account()) && Elsewhere(old(s.St()), s.St(), h)
    ensures s.spaces.Keys == old(s.spaces).Keys && OwnerGrew(owner0, s.owner, h)
    ensures ok <==>
      segment.pages + |Touched(FirstPageOf(segment), segment.pages) - old(s.spaces)[h].owned| <= old(s.pmm.free)
    ensures ok ==> Blank(s.St(), h, image, done, segment) && s.spaces[h].pages == old(s.spaces)[h].pages + segment.pages
    ensures ok ==> s.spaces[h].owned == old(s.spaces)[h].owned + Touched(FirstPageOf(segment), segment.pages)
    ensures ok ==>
      s.pmm.free ==
        old(s.pmm.free) - segment.pages - |Touched(FirstPageOf(segment), segment.pages) - old(s.spaces)[h].owned|
  {
    hide Books, Enrolled, Backed, Foreign, NoneEmpty, Ahead, Loaded, Elsewhere, RunClear, Restored, NewTables,
         OwnerGrew, Unused, Blank, Touched;
    ghost var extra := NewTables(s.St(), h, FirstPageOf(segment), segment.pages);
    ClearForSegment(s.St(), s.owner, h, image, done, segment);
    NewTouched(s.St(), h, FirstPageOf(segment), segment.pages);
    ok := s.UserAllocate(h, segment.start, segment.pages, WRITABLE);
    if !ok {
      RestoredElsewhere(old(s.St()), old(s.owner), s.St(), s.owner, h);
      return;
    }
    AllocatedSegment(old(s.St()), old(s.owner), s.St(), s.owner, h, image, done, segment, extra);
    AheadGrew(owner0, old(s.St()), old(s.owner), s.St(), s.owner, h, FirstPageOf(segment), segment.pages, true, extra);
  }

  lemma NewTouched(st: Store, h: nat, first: nat, n: nat)
    requires h in st.spaces
    ensures NewTables(st, h, first, n) == Touched(first, n) - st.spaces[h].owned
  {
  }

  /** A restored store shows what it showed. */
  lemma RestoredElsewhere(st0: Store, owner0: map<nat, Use>, st: Store, owner: map<nat, Use>, h: nat)
    requires Books(st0, owner0) && Restored(st0, owner0, st, owner)
    ensures Elsewhere(st0, st, h) && st.spaces == st0.spaces && owner == owner0
  {
    hide Formed, Counted;
    forall g, k
      ensures DirWord(st, g, k) == DirWord(st0, g, k)
    {
      if g in st0.spaces { assert FrameOf(st0, Directory(g)).Some?; }
    }
    assert FrameOf(st0, Shared(STACK_TABLE)) == Frame(DirWord(st0, KERNEL, STACK_TABLE));
    forall g, k, l
      ensures UserWord(st, g, k, l) == UserWord(st0, g, k, l)
    {
      if InUser(g, k) && DirWord(st0, g, k).present { TableFrame(st0, owner0, g, k); }
    }
    forall g: nat, a: nat
      ensures ByteAt(st, g, a) == ByteAt(st0, g, a)
    {
      RestoredByte(st0, owner0, st, owner, g, a);
    }
  }

  lemma RestoredByte(st0: Store, owner0: map<nat, Use>, st: Store, owner: map<nat, Use>, g: nat, a: nat)
    requires Books(st0, owner0) && Restored(st0, owner0, st, owner)
    requires forall g, k, l :: UserWord(st, g, k, l) == UserWord(st0, g, k, l)
    ensures ByteAt(st, g, a) == ByteAt(st0, g, a)
  {
    hide Books, UserWord;
    var k, l := a / TABLE_SPAN, (a / PAGE) % ENTRIES;
    assert UserWord(st, g, k, l) == UserWord(st0, g, k, l);
    if UserWord(st0, g, k, l).present { UserFrame(st0, owner0, g, k, l); }
  }

  lemma AllocatedSegment(st0: Store, owner0: map<nat, Use>, st: Store, owner: map<nat, Use>, h: nat, image: seq<byte>,
                         done: seq<E.Segment>, s: E.Segment, extra: set<nat>)
    requires Books(st0, owner0) && Books(st, owner) && Loaded(st0, h, image, done)
    requires Ahead(st0, owner0, st, owner, h, FirstPageOf(s), 0, s.pages, true, extra)
    ensures Blank(st, h, image, done, s) && Elsewhere(st0, st, h) && st.spaces.Keys == st0.spaces.Keys
    ensures h in st0.spaces
    ensures st.spaces[h].pages == st0.spaces[h].pages + s.pages && st.spaces[h].owned == st0.spaces[h].owned + extra
  {
    AllocatedElsewhere(st0, owner0, st, owner, h, FirstPageOf(s), s.pages, true, extra);
    AheadOwned(st0, owner0, st, owner, h, FirstPageOf(s), 0, s.pages, true, extra);
    hide Books, Perm, ByteAt, PermOf, ByteOf, Elsewhere, UserWord, AheadWords, AheadOwner, KeptData;
    forall v: nat
      ensures Perm(st, h, v) == if Covers(s, v) then Some(true) else PermOf(done, v)
    {
      AllocatedView(st0, owner0, st, owner, h, FirstPageOf(s), s.pages, true, extra, h, v);
    }
    forall a: nat
      ensures ByteAt(st, h, a) == if Covers(s, a / PAGE) then Some(0) else ByteOf(image, done, a)
    {
      AllocatedByte(st0, owner0, st, owner, h, FirstPageOf(s), s.pages, true, extra, h, a);
    }
  }

  /** Copy the file bytes in and take the write permission away unless it is asked for. */
  method FillSegment(s: AddressSpaces, h: nat, image: seq<byte>, segment: E.Segment, ghost done: seq<E.Segment>)
    requires s.Valid() && s.enabled && h in s.spaces && h != KERNEL && E.SegmentOk(segment, |image|)
    requires Blank(s.St(), h, image, done, segment)
    modifies s`memory
    ensures s.Valid() && Loaded(s.St(), h, image, done + [segment]) && Elsewhere(old(s.St()), s.St(), h)
  {
    hide Books, Enrolled, Backed, NoneEmpty, Loaded, Elsewhere, RunMapped, Accessible, Overlaid, SameTables, Protected,
         Poured, Blank, Perm, ByteAt;
    var p := segment.program;
    assert Accessible(s.St(), h, p.address, p.fileBytes, true) by {
      BlankWritable(s.St(), h, image, done, segment);
      SegmentWritable(s.St(), h, segment, |image|);
    }
    var copied := CopyToUser(s, h, p.address, image[p.offset..p.offset + p.fileBytes]);
    CopiedView(old(s.St()), s.owner, s.St(), h, p.address, image[p.offset..p.offset + p.fileBytes]);
    CopyPours(old(s.St()), s.St(), h, image, done, segment);
    if !E.CanWrite(p.flags) {
      ghost var poured := s.St();
      assert RunMapped(poured, h, FirstPageOf(segment), segment.pages) by {
        PouredWritable(poured, h, image, done, segment);
        SegmentMapped(poured, h, segment);
      }
      var protected := UserProtect(s, h, segment.start, segment.pages, 0);
      ProtectedView(poured, s.owner, s.St(), h, FirstPageOf(segment), segment.pages, false);
      ProtectPours(poured, s.St(), h, image, done, segment);
      ElsewhereTwice(old(s.St()), poured, s.St(), h);
    }
    PouredIsLoaded(s.St(), h, image, done, segment);
  }

  lemma BlankWritable(st: Store, h: nat, image: seq<byte>, done: seq<E.Segment>, s: E.Segment)
    requires Blank(st, h, image, done, s)
    ensures forall v: nat :: Covers(s, v) ==> Perm(st, h, v) == Some(true)
  {
  }

  lemma PouredWritable(st: Store, h: nat, image: seq<byte>, done: seq<E.Segment>, s: E.Segment)
    requires Poured(st, h, image, done, s, true)
    ensures forall v: nat :: Covers(s, v) ==> Perm(st, h, v) == Some(true)
  {
  }

  lemma ProtectPours(st: Store, st': Store, h: nat, image: seq<byte>, done: seq<E.Segment>, s: E.Segment)
    requires Poured(st, h, image, done, s, true)
    requires forall v: nat ::
      Perm(st', h, v) == if InRun(FirstPageOf(s), s.pages, v) then Some(false) else Perm(st, h, v)
    requires forall a: nat :: ByteAt(st', h, a) == ByteAt(st, h, a)
    ensures Poured(st', h, image, done, s, false)
  {
    hide Perm, ByteAt, PermOf, ByteOf;
  }

  // ----- All segments -----------------------------------------------------------------------------

  /** Page tables the segments lie in. */
  ghost function TablesIn(segments: seq<E.Segment>): set<nat> {
    if segments == [] then {} else var last := segments[|segments| - 1];
      TablesIn(segments[..|segments| - 1]) + Touched(FirstPageOf(last), last.pages)
  }

  /** Frames the segments need: their pages and the tables those lie in. */
  ghost function Need(segments: seq<E.Segment>): nat { E.Total(segments) + |TablesIn(segments)| }

  /** What makes a plan's segments loadable one after the other. */
  ghost predicate Plannable(segments: seq<E.Segment>, bytes: nat) {
    && (forall i :: 0 <= i < |segments| ==> E.SegmentOk(segments[i], bytes)) && E.Ascending(segments)
    && E.Total(segments) + E.STACK_PAGES <= E.PAGE_BUDGET
  }

  /** No earlier segment reaches a page of a later one. */
  lemma {:induction false} PermBelow(segments: seq<E.Segment>, v: nat)
    requires forall j :: 0 <= j < |segments| ==> !Covers(segments[j], v)
    ensures PermOf(segments, v) == None
    decreases |segments|
  {
    if segments != [] { PermBelow(segments[..|segments| - 1], v); }
  }

  lemma LaterUnused(segments: seq<E.Segment>, bytes: nat, i: nat)
    requires Plannable(segments, bytes) && i < |segments|
    ensures Unused(segments[..i], segments[i])
  {
    hide PermOf;
    forall v: nat | Covers(segments[i], v)
      ensures PermOf(segments[..i], v) == None
    {
      forall j | 0 <= j < i
        ensures !Covers(segments[..i][j], v)
      {
        E.SegmentsApart(segments, j, i);
        assert E.SegmentOk(segments[j], bytes) && E.SegmentOk(segments[i], bytes);
      }
      PermBelow(segments[..i], v);
    }
  }

  /** Needs grow with the list. */
  lemma {:induction false} NeedPrefix(segments: seq<E.Segment>, i: nat)
    requires i <= |segments|
    ensures E.Total(segments[..i]) <= E.Total(segments) && TablesIn(segments[..i]) <= TablesIn(segments)
    ensures Need(segments[..i]) <= Need(segments)
    decreases |segments|
  {
    if i < |segments| {
      var init := segments[..|segments| - 1];
      assert init[..i] == segments[..i];
      NeedPrefix(init, i);
    } else {
      assert segments[..i] == segments;
    }
    SubsetSize(TablesIn(segments[..i]), TablesIn(segments));
  }

  lemma NeedStep(segments: seq<E.Segment>, i: nat)
    requires i < |segments|
    ensures var s := segments[i]; var t := Touched(FirstPageOf(s), s.pages);
      && E.Total(segments[..i + 1]) == E.Total(segments[..i]) + s.pages
      && TablesIn(segments[..i + 1]) == TablesIn(segments[..i]) + t
      && |TablesIn(segments[..i + 1])| == |TablesIn(segments[..i])| + |t - TablesIn(segments[..i])|
      && Need(segments[..i + 1]) <= Need(segments)
  {
    assert segments[..i + 1][..i] == segments[..i];
    NeedPrefix(segments, i + 1);
    var s := segments[i];
    var a, t := TablesIn(segments[..i]), Touched(FirstPageOf(s), s.pages);
    assert a + t == a + (t - a) && a !! (t - a);
  }

  /** Load every segment of the plan; fails only when the frames run out. */
  method LoadSegments(s: AddressSpaces, h: nat, image: seq<byte>, segments: seq<E.Segment>, ghost owner0: map<nat, Use>)
    returns (ok: bool)
    requires s.Valid() && s.enabled && h in s.spaces && h != KERNEL && Plannable(segments, |image|)
    requires Loaded(s.St(), h, image, []) && s.spaces[h].pages == 0 && s.spaces[h].owned == {}
    requires OwnerGrew(owner0, s.owner, h)
    modifies s`memory, s`spaces, s`owner, s.pmm`taken, s.pmm`free, s.pmm`next
    ensures s.Valid() && s.Account() == old(s.Account()) && Elsewhere(old(s.St()), s.St(), h)
    ensures s.spaces.Keys == old(s.spaces).Keys && OwnerGrew(owner0, s.owner, h)
    ensures ok <==> Need(segments) <= old(s.pmm.free)
    ensures ok ==>
      Loaded(s.St(), h, image, segments) && s.spaces[h].pages == E.Total(segments) &&
      s.spaces[h].owned == TablesIn(segments)
    ensures ok ==> s.pmm.free == old(s.pmm.free) - Need(segments)
  {
    hide Books, Enrolled, Backed, Foreign, NoneEmpty, Loaded, Elsewhere, OwnerGrew, TablesIn, E.Total, Plannable, Need;
    ElsewhereSelf(s.St(), h);
    NeedNothing(segments);
    for i := 0 to |segments|
      invariant s.Valid() && s.Account() == old(s.Account()) && Elsewhere(old(s.St()), s.St(), h)
      invariant s.spaces.Keys == old(s.spaces).Keys && OwnerGrew(owner0, s.owner, h)
      invariant Loaded(s.St(), h, image, segments[..i]) && s.spaces[h].pages == E.Total(segments[..i])
      invariant s.spaces[h].owned == TablesIn(segments[..i])
      invariant s.pmm.free == old(s.pmm.free) - Need(segments[..i])
    {
      ghost var before := s.St();
      ok := LoadNext(s, h, image, segments, i, owner0);
      ElsewhereTwice(old(s.St()), before, s.St(), h);
      NeedPrefix(segments, i + 1);
      if !ok { return; }
    }
    assert segments[..|segments|] == segments;
    ok := true;
  }

  /** The next segment of the plan. */
  method LoadNext(s: AddressSpaces, h: nat, image: seq<byte>, segments: seq<E.Segment>, i: nat,
                  ghost owner0: map<nat, Use>)
    returns (ok: bool)
    requires s.Valid() && s.enabled && h in s.spaces && h != KERNEL && Plannable(segments, |image|) && i < |segments|
    requires OwnerGrew(owner0, s.owner, h)
    requires Loaded(s.St(), h, image, segments[..i]) && s.spaces[h].pages == E.Total(segments[..i])
    requires s.spaces[h].owned == TablesIn(segments[..i])
    modifies s`memory, s`spaces, s`owner, s.pmm`taken, s.pmm`free, s.pmm`next
    ensures s.Valid() && s.Account() == old(s.Account()) && Elsewhere(old(s.St()), s.St(), h)
    ensures s.spaces.Keys == old(s.spaces).Keys && OwnerGrew(owner0, s.owner, h)
    ensures ok <==> Need(segments[..i + 1]) - Need(segments[..i]) <= old(s.pmm.free)
    ensures ok ==>
      Loaded(s.St(), h, image, segments[..i + 1]) && s.spaces[h].pages == E.Total(segments[..i + 1]) &&
      s.spaces[h].owned == TablesIn(segments[..i + 1])
    ensures ok ==> s.pmm.free == old(s.pmm.free) - (Need(segments[..i + 1]) - Need(segments[..i]))
  {
    hide Books, Enrolled, Backed, Foreign, NoneEmpty, Loaded, Elsewhere, OwnerGrew, Unused, Touched, TablesIn, E.Total,
         E.Ascending;
    LaterUnused(segments, |image|, i);
    NeedStep(segments, i);
    NeedPrefix(segments, i + 1);
    assert segments[..i] + [segments[i]] == segments[..i + 1];
    ok := LoadSegment(s, h, image, segments[i], segments[..i], owner0);
  }

  lemma ElsewhereSelf(st: Store, h: nat)
    ensures Elsewhere(st, st, h)
  {
  }

  lemma NeedNothing(segments: seq<E.Segment>)
    ensures E.Total(segments[..0]) == 0 && TablesIn(segments[..0]) == {} && segments[..0] == []
    ensures Need(segments[..0]) == 0
  {
  }

  // ----- The initial stack -----------------------------------------------------------------------

  const STACK_PAGE := 0xBFFF0  // the first page of the user stack
  const STACK_TOP := 0xC000_0000
  const FIXED_WORDS := 3       // the count, and the ends of the two vectors

  function LittleEndian(n: nat): (b: seq<byte>)
    ensures |b| == 4
  {
    [n % 256, (n / 0x100) % 256, (n / 0x1_0000) % 256, (n / 0x100_0000) % 256]
  }

  function WordBytes(words: seq<nat>): (b: seq<byte>)
    ensures |b| == 4 * |words|
  {
    if words == [] then [] else WordBytes(words[..|words| - 1]) + LittleEndian(words[|words| - 1])
  }

  lemma WordReadsBack(n: nat)
    requires n < 0x1_0000_0000
    ensures U32(LittleEndian(n), 0) == n
  {
    var b := LittleEndian(n);
    assert U16(b, 0) == n % 0x1_0000 && U16(b, 2) == n / 0x1_0000;
  }

  lemma {:induction false} WordInBytes(words: seq<nat>, i: nat)
    requires i < |words|
    ensures WordBytes(words)[4 * i..4 * i + 4] == LittleEndian(words[i])
    decreases |words|
  {
    var init := words[..|words| - 1];
    if i < |init| {
      WordInBytes(init, i);
      assert WordBytes(words)[4 * i..4 * i + 4] == WordBytes(init)[4 * i..4 * i + 4];
    } else {
      assert WordBytes(words)[4 * i..4 * i + 4] == LittleEndian(words[i]);
    }
  }

  /** Where the strings go: right below the top. */
  function StringsAt(packet: A.Packet): int { STACK_TOP - packet.stringBytes }

  /** The stack pointer: the vector below the strings, aligned down to 16. */
  function StackPointer(packet: A.Packet): int {
    (StringsAt(packet) - 4 * (packet.argc + FIXED_WORDS)) / 16 * 16
  }

  /** Word `i` of the vector: the count, the argument addresses, two zero words. */
  function VectorWord(packet: A.Packet, i: nat): int
    requires A.Shaped(packet) && packet.argc <= A.ARGUMENT_LIMIT
  {
    if i == 0 then packet.argc else if i <= packet.argc then StringsAt(packet) + packet.offsets[i - 1] else 0
  }

  /** Four bytes of user memory hold the word `n`. */
  predicate WordIs(st: Store, h: nat, a: nat, n: int) {
    forall k :: 0 <= k < 4 ==> n >= 0 && ByteAt(st, h, a + k) == Some(LittleEndian(n)[k])
  }

  /** The stack of a new process: an aligned pointer at the argument count, the addresses of
      the strings, the two terminators, and the packet's strings where they point. */
  ghost predicate StackHolds(st: Store, h: nat, esp: nat, packet: A.Packet) {
    && A.Shaped(packet) && packet.argc <= A.ARGUMENT_LIMIT && packet.stringBytes <= A.ARGUMENT_BYTES
    && esp == StackPointer(packet) && esp % 16 == 0
    && STACK_PAGE * PAGE <= esp && esp + 4 * (packet.argc + FIXED_WORDS) <= StringsAt(packet)
    && (forall i: nat :: i < packet.argc + FIXED_WORDS ==> WordIs(st, h, esp + 4 * i, VectorWord(packet, i)))
    && (forall x: nat :: x < packet.stringBytes ==> ByteAt(st, h, StringsAt(packet) + x) == Some(packet.strings[x]))
  }

  /** The 32-bit word a program reads at `a`. */
  function WordAt(st: Store, h: nat, a: nat): Option<nat> {
    var b := seq(4, k requires 0 <= k < 4 => ByteAt(st, h, a + k));
    if b[0].Some? && b[1].Some? && b[2].Some? && b[3].Some?
    then Some(U32([b[0].value, b[1].value, b[2].value, b[3].value], 0)) else None
  }

  lemma WordDecodes(st: Store, h: nat, a: nat, n: nat)
    requires n < 0x1_0000_0000 && WordIs(st, h, a, n)
    ensures WordAt(st, h, a) == Some(n)
  {
    hide ByteAt, LittleEndian;
    var b := LittleEndian(n);
    assert [b[0], b[1], b[2], b[3]] == b;
    WordReadsBack(n);
  }

  /** A program that reads the count at its stack pointer and follows the pointers above
      it finds every argument whole and terminated. */
  lemma ArgumentReads(st: Store, h: nat, esp: nat, packet: A.Packet, strs: seq<seq<byte>>, i: nat, x: nat)
    requires StackHolds(st, h, esp, packet) && A.Packs(packet, strs) && i < packet.argc && x <= |strs[i]|
    ensures WordAt(st, h, esp) == Some(|strs|) && WordAt(st, h, esp + 4 * (|strs| + 1)) == Some(0)
    ensures WordAt(st, h, esp + 4 * (i + 1)).Some?
    ensures ByteAt(st, h, WordAt(st, h, esp + 4 * (i + 1)).value + x) == Some(if x < |strs[i]| then strs[i][x] else 0)
  {
    hide ByteAt, WordIs, WordAt;
    assert WordIs(st, h, esp + 4 * 0, VectorWord(packet, 0));
    assert WordIs(st, h, esp + 4 * (i + 1), VectorWord(packet, i + 1));
    assert WordIs(st, h, esp + 4 * (packet.argc + 1), VectorWord(packet, packet.argc + 1));
    var at := packet.offsets[i];
    WordDecodes(st, h, esp, packet.argc);
    WordDecodes(st, h, esp + 4 * (packet.argc + 1), 0);
    A.NextIs(packet, strs, i, at);
    WordDecodes(st, h, esp + 4 * (i + 1), StringsAt(packet) + at);
    assert ByteAt(st, h, StringsAt(packet) + (at + x)) == Some(packet.strings[at + x]);
    if x < |strs[i]| { assert packet.strings[at..at + |strs[i]|][x] == packet.strings[at + x]; }
  }

  /** The stack pages are mapped writable and everything below them shows the segments. */
  ghost predicate Stacked(st: Store, h: nat, image: seq<byte>, segments: seq<E.Segment>) {
    && (forall v: nat ::
          Perm(st, h, v) == if InRun(STACK_PAGE, E.STACK_PAGES, v) then Some(true) else PermOf(segments, v))
    && (forall a: nat :: !InRun(STACK_PAGE, E.STACK_PAGES, a / PAGE) ==> ByteAt(st, h, a) == ByteOf(image, segments, a))
  }

  lemma StackAccessible(st: Store, h: nat, image: seq<byte>, segments: seq<E.Segment>, a: nat, n: nat)
    requires Stacked(st, h, image, segments) && h in st.spaces && h != KERNEL && STACK_PAGE * PAGE <= a
    requires a + n <= STACK_TOP
    ensures Accessible(st, h, a, n, true)
  {
    hide UserWord, ByteAt, PermOf, ByteOf;
    forall b | a <= b < a + n
      ensures AddressWord(st, h, b).present && AddressWord(st, h, b).writable
    {
      WordOfAddress(st, h, b);
      assert InRun(STACK_PAGE, E.STACK_PAGES, b / PAGE);
      assert Perm(st, h, b / PAGE) == Some(true);
    }
  }

  /** A copy into the stack keeps the rest. */
  lemma StackCopied(st: Store, st': Store, h: nat, image: seq<byte>, segments: seq<E.Segment>, a: nat,
                    source: seq<byte>)
    requires Stacked(st, h, image, segments) && Overlaid(st, st', h, a, source) && STACK_PAGE * PAGE <= a
    requires a + |source| <= STACK_TOP
    requires forall v: nat :: Perm(st', h, v) == Perm(st, h, v)
    ensures Stacked(st', h, image, segments)
  {
    hide Perm, ByteAt, PermOf, ByteOf;
  }

  /** Fill the argument vector. */
  method VectorWords(packet: A.Packet) returns (words: seq<nat>)
    requires A.Shaped(packet) && 0 < packet.argc <= A.ARGUMENT_LIMIT && packet.stringBytes <= A.ARGUMENT_BYTES
    ensures |words| == packet.argc + FIXED_WORDS && forall i :: 0 <= i < |words| ==> words[i] == VectorWord(packet, i)
  {
    words := [packet.argc];
    for i := 0 to packet.argc
      invariant |words| == i + 1 && forall j :: 0 <= j < |words| ==> words[j] == VectorWord(packet, j)
    {
      words := words + [STACK_TOP - packet.stringBytes + packet.offsets[i]];
    }
    words := words + [0, 0];
  }

  /** Write the strings and the vector; never refused for a valid packet. */
  method BuildStack(s: AddressSpaces, h: nat, packet: A.Packet, ghost image: seq<byte>, ghost segments: seq<E.Segment>)
    returns (ok: bool, esp: nat)
    requires s.Valid() && s.enabled && h in s.spaces && h != KERNEL && A.WellPacked(packet)
    requires Stacked(s.St(), h, image, segments)
    modifies s`memory
    ensures s.Valid() && ok && Elsewhere(old(s.St()), s.St(), h) && Stacked(s.St(), h, image, segments)
    ensures StackHolds(s.St(), h, esp, packet)
  {
    hide Books, Enrolled, Backed, NoneEmpty, Elsewhere, Accessible, Overlaid, SameTables, Stacked, Perm, ByteAt,
         A.Packs, StackHolds;
    ok, esp := false, 0;
    var strings := STACK_TOP - packet.stringBytes;
    var bytes := 4 * (packet.argc + FIXED_WORDS);
    if strings < STACK_PAGE * PAGE + bytes { return; }
    esp := (strings - bytes) / 16 * 16;
    if esp < STACK_PAGE * PAGE { return; }
    var words := VectorWords(packet);
    var text, vector := packet.strings[..packet.stringBytes], WordBytes(words);
    StackAccessible(s.St(), h, image, segments, strings, |text|);
    ok := CopyToUser(s, h, strings, text);
    ghost var mid := s.St();
    CopiedView(old(s.St()), s.owner, mid, h, strings, text);
    StackCopied(old(s.St()), mid, h, image, segments, strings, text);
    StackAccessible(mid, h, image, segments, esp, |vector|);
    ok := CopyToUser(s, h, esp, vector);
    CopiedView(mid, s.owner, s.St(), h, esp, vector);
    StackCopied(mid, s.St(), h, image, segments, esp, vector);
    ElsewhereTwice(old(s.St()), mid, s.St(), h);
    StackBuilt(old(s.St()), mid, s.St(), h, esp, packet, words);
  }

  lemma StackBuilt(st0: Store, st: Store, st': Store, h: nat, esp: nat, packet: A.Packet, words: seq<nat>)
    requires A.Shaped(packet) && packet.argc <= A.ARGUMENT_LIMIT && packet.stringBytes <= A.ARGUMENT_BYTES
    requires |words| == packet.argc + FIXED_WORDS && forall i :: 0 <= i < |words| ==> words[i] == VectorWord(packet, i)
    requires esp == StackPointer(packet) && esp % 16 == 0 && STACK_PAGE * PAGE <= esp
    requires esp + 4 * |words| <= StringsAt(packet)
    requires Overlaid(st0, st, h, StringsAt(packet), packet.strings[..packet.stringBytes])
    requires Overlaid(st, st', h, esp, WordBytes(words))
    ensures StackHolds(st', h, esp, packet)
  {
    hide ByteAt, WordBytes, WordIs, Overlaid, VectorWord;
    forall i: nat | i < packet.argc + FIXED_WORDS
      ensures WordIs(st', h, esp + 4 * i, VectorWord(packet, i))
    {
      WordBuilt(st, st', h, esp, words, i);
    }
    forall x: nat | x < packet.stringBytes
      ensures ByteAt(st', h, StringsAt(packet) + x) == Some(packet.strings[x])
    {
      StringBuilt(st0, st, st', h, StringsAt(packet), packet.strings[..packet.stringBytes], esp, WordBytes(words), x);
    }
  }

  lemma WordBuilt(st: Store, st': Store, h: nat, esp: nat, words: seq<nat>, i: nat)
    requires Overlaid(st, st', h, esp, WordBytes(words)) && i < |words|
    ensures WordIs(st', h, esp + 4 * i, words[i])
  {
    hide ByteAt, WordBytes, LittleEndian, Overlaid;
    WordInBytes(words, i);
    var bytes, word := WordBytes(words), LittleEndian(words[i]);
    forall k | 0 <= k < 4
      ensures ByteAt(st', h, esp + 4 * i + k) == Some(word[k])
    {
      assert bytes[4 * i..4 * i + 4][k] == bytes[4 * i + k];
      ByteBuilt(st, st', h, esp, bytes, 4 * i + k);
    }
  }

  lemma ByteBuilt(st: Store, st': Store, h: nat, to: nat, text: seq<byte>, x: nat)
    requires Overlaid(st, st', h, to, text) && x < |text|
    ensures ByteAt(st', h, to + x) == Some(text[x])
  {
    hide ByteAt;
  }

  /** Bytes above the vector survive it. */
  lemma StringBuilt(st0: Store, st: Store, st': Store, h: nat, to: nat, text: seq<byte>, esp: nat, vector: seq<byte>,
                    x: nat)
    requires Overlaid(st0, st, h, to, text) && Overlaid(st, st', h, esp, vector) && esp + |vector| <= to && x < |text|
    ensures ByteAt(st', h, to + x) == Some(text[x])
  {
    hide ByteAt;
    assert ByteAt(st, h, to + x) == Some(text[x]);
  }

  /** The stack has a table of its own. */
  lemma {:induction false} StackTable(segments: seq<E.Segment>, bytes: nat)
    requires forall i :: 0 <= i < |segments| ==> E.SegmentOk(segments[i], bytes)
    ensures forall i :: i in TablesIn(segments) ==> i < 767
    ensures Touched(STACK_PAGE, E.STACK_PAGES) == {767}
    decreases |segments|
  {
    if segments != [] {
      StackTable(segments[..|segments| - 1], bytes);
      assert E.SegmentOk(segments[|segments| - 1], bytes);
    }
  }

  lemma {:induction false} NotInStack(segments: seq<E.Segment>, bytes: nat, v: nat)
    requires (forall i :: 0 <= i < |segments| ==> E.SegmentOk(segments[i], bytes))
    requires InRun(STACK_PAGE, E.STACK_PAGES, v)
    ensures PermOf(segments, v) == None
    decreases |segments|
  {
    if segments != [] {
      NotInStack(segments[..|segments| - 1], bytes, v);
      assert E.SegmentOk(segments[|segments| - 1], bytes);
    }
  }

  lemma ClearForStack(st: Store, owner: map<nat, Use>, h: nat, image: seq<byte>, segments: seq<E.Segment>)
    requires Books(st, owner) && Loaded(st, h, image, segments) && forall i :: 0 <= i < |segments| ==>
      E.SegmentOk(segments[i], |image|)
    ensures RunClear(st, h, STACK_PAGE, E.STACK_PAGES)
  {
    hide Books, UserWord, ByteAt, PermOf, ByteOf;
    forall k: nat, l: nat | Window(STACK_PAGE, 0, E.STACK_PAGES, k, l)
      ensures UserWord(st, h, k, l) == NONE
    {
      var v := k * ENTRIES + l;
      assert v / ENTRIES == k && v % ENTRIES == l;
      NotInStack(segments, |image|, v);
      assert Perm(st, h, v) == PermOf(segments, v);
      UserWordOk(st, owner, h, k, l);
    }
  }

  lemma StackAllocated(st0: Store, owner0: map<nat, Use>, st: Store, owner: map<nat, Use>, h: nat, image: seq<byte>,
                       segments: seq<E.Segment>, extra: set<nat>)
    requires Books(st0, owner0) && Books(st, owner) && Loaded(st0, h, image, segments)
    requires Ahead(st0, owner0, st, owner, h, STACK_PAGE, 0, E.STACK_PAGES, true, extra)
    ensures Stacked(st, h, image, segments) && Elsewhere(st0, st, h) && st.spaces.Keys == st0.spaces.Keys
    ensures h in st.spaces
  {
    AllocatedElsewhere(st0, owner0, st, owner, h, STACK_PAGE, E.STACK_PAGES, true, extra);
    hide Books, Perm, ByteAt, PermOf, ByteOf, Elsewhere, UserWord, AheadWords, AheadOwner, KeptData;
    forall v: nat
      ensures Perm(st, h, v) == if InRun(STACK_PAGE, E.STACK_PAGES, v) then Some(true) else PermOf(segments, v)
    {
      AllocatedView(st0, owner0, st, owner, h, STACK_PAGE, E.STACK_PAGES, true, extra, h, v);
    }
    forall a: nat | !InRun(STACK_PAGE, E.STACK_PAGES, a / PAGE)
      ensures ByteAt(st, h, a) == ByteOf(image, segments, a)
    {
      AllocatedByte(st0, owner0, st, owner, h, STACK_PAGE, E.STACK_PAGES, true, extra, h, a);
    }
  }

  // ----- The whole process -------------------------------------------------------------------------

  datatype Process = Process(space: nat, entry: nat, stack: nat)

  /** Frames a process needs: a directory, its segments with their tables, the stack with its. */
  ghost function FramesFor(segments: seq<E.Segment>): nat { 1 + Need(segments) + E.STACK_PAGES + 1 }

  /** Map the stack and put the arguments on it. */
  method MakeStack(s: AddressSpaces, h: nat, packet: A.Packet, ghost image: seq<byte>, ghost segments: seq<E.Segment>,
                   ghost owner0: map<nat, Use>)
    returns (ok: bool, esp: nat)
    requires s.Valid() && s.enabled && h in s.spaces && h != KERNEL && A.WellPacked(packet)
    requires Plannable(segments, |image|) && OwnerGrew(owner0, s.owner, h)
    requires Loaded(s.St(), h, image, segments) && s.spaces[h].pages == E.Total(segments)
    requires s.spaces[h].owned == TablesIn(segments)
    modifies s`memory, s`spaces, s`owner, s.pmm`taken, s.pmm`free, s.pmm`next
    ensures s.Valid() && s.Account() == old(s.Account()) && Elsewhere(old(s.St()), s.St(), h)
    ensures s.spaces.Keys == old(s.spaces).Keys && OwnerGrew(owner0, s.owner, h)
    ensures ok <==> E.STACK_PAGES + 1 <= old(s.pmm.free)
    ensures ok ==> Stacked(s.St(), h, image, segments) && StackHolds(s.St(), h, esp, packet)
  {
    hide Books, Enrolled, Backed, Foreign, NoneEmpty, Loaded, Elsewhere, OwnerGrew, Stacked, TablesIn, StackHolds,
         A.WellPacked, E.Ascending, E.Total;
    esp := 0;
    ok := AllocateStack(s, h, image, segments, owner0);
    if ok {
      ghost var mid := s.St();
      ok, esp := BuildStack(s, h, packet, image, segments);
      ElsewhereTwice(old(s.St()), mid, s.St(), h);
    }
  }

  method AllocateStack(s: AddressSpaces, h: nat, ghost image: seq<byte>, ghost segments: seq<E.Segment>,
                       ghost owner0: map<nat, Use>)
    returns (ok: bool)
    requires s.Valid() && s.enabled && h in s.spaces && h != KERNEL && Plannable(segments, |image|)
    requires OwnerGrew(owner0, s.owner, h)
    requires Loaded(s.St(), h, image, segments) && s.spaces[h].pages == E.Total(segments)
    requires s.spaces[h].owned == TablesIn(segments)
    modifies s`memory, s`spaces, s`owner, s.pmm`taken, s.pmm`free, s.pmm`next
    ensures s.Valid() && s.Account() == old(s.Account()) && Elsewhere(old(s.St()), s.St(), h)
    ensures s.spaces.Keys == old(s.spaces).Keys && OwnerGrew(owner0, s.owner, h)
    ensures ok <==> E.STACK_PAGES + 1 <= old(s.pmm.free)
    ensures ok ==> Stacked(s.St(), h, image, segments)
  {
    hide Books, Enrolled, Backed, Foreign, NoneEmpty, Ahead, Loaded, Elsewhere, RunClear, Restored, NewTables,
         OwnerGrew, Stacked, Touched, TablesIn, E.Ascending, E.Total;
    ghost var extra := NewTables(s.St(), h, STACK_PAGE, E.STACK_PAGES);
    ClearForStack(s.St(), s.owner, h, image, segments);
    NewTouched(s.St(), h, STACK_PAGE, E.STACK_PAGES);
    StackTable(segments, |image|);
    assert extra == {767};
    ok := s.UserAllocate(h, STACK_BASE, E.STACK_PAGES, WRITABLE);
    if !ok {
      RestoredElsewhere(old(s.St()), old(s.owner), s.St(), s.owner, h);
      return;
    }
    StackAllocated(old(s.St()), old(s.owner), s.St(), s.owner, h, image, segments, extra);
    AheadGrew(owner0, old(s.St()), old(s.owner), s.St(), s.owner, h, STACK_PAGE, E.STACK_PAGES, true, extra);
  }

  /** A new space shows nothing. */
  lemma NewIsBlank(st: Store, owner: map<nat, Use>, st': Store, owner': map<nat, Use>, h: nat, image: seq<byte>)
    requires Books(st, owner) && SpaceAdded(st, owner, st', owner', h)
    ensures Loaded(st', h, image, []) && Elsewhere(st, st', h) && OwnerGrew(owner, owner', h) && |owner'| == |owner| + 1
    ensures h in st'.spaces && st'.spaces.Keys == st.spaces.Keys + {h} && st'.spaces[h].pages == 0
    ensures st'.spaces[h].owned == {}
  {
    NewOwner(st, owner, st', owner', h);
    hide Books, SpaceAdded, Loaded, Elsewhere, OwnerGrew;
    NewLoaded(st, owner, st', owner', h, image);
    NewElsewhere(st, owner, st', owner', h);
  }

  lemma NewOwner(st: Store, owner: map<nat, Use>, st': Store, owner': map<nat, Use>, h: nat)
    requires SpaceAdded(st, owner, st', owner', h)
    ensures OwnerGrew(owner, owner', h) && |owner'| == |owner| + 1
    ensures h in st'.spaces && st'.spaces.Keys == st.spaces.Keys + {h} && st'.spaces[h].pages == 0
    ensures st'.spaces[h].owned == {}
  {
    hide UserWord, StackWord;
    OneMoreFrame(owner, st'.spaces[h].directory, Directory(h));
  }

  lemma OneMoreFrame(owner: map<nat, Use>, f: nat, u: Use)
    requires f !in owner
    ensures |owner[f := u]| == |owner| + 1
  {
    assert owner[f := u].Keys == owner.Keys + {f};
    assert |owner[f := u].Keys| == |owner.Keys| + 1;
  }

  lemma NewLoaded(st: Store, owner: map<nat, Use>, st': Store, owner': map<nat, Use>, h: nat, image: seq<byte>)
    requires SpaceAdded(st, owner, st', owner', h)
    ensures Loaded(st', h, image, [])
  {
    hide UserWord, StackWord, DirWord;
    forall v: nat
      ensures Perm(st', h, v) == PermOf([], v)
    {
      NoWords(st, h, v / ENTRIES, v % ENTRIES);
    }
    forall a: nat
      ensures ByteAt(st', h, a) == ByteOf(image, [], a)
    {
      NoWords(st, h, a / TABLE_SPAN, (a / PAGE) % ENTRIES);
    }
  }

  lemma NewElsewhere(st: Store, owner: map<nat, Use>, st': Store, owner': map<nat, Use>, h: nat)
    requires Books(st, owner) && SpaceAdded(st, owner, st', owner', h)
    ensures Elsewhere(st, st', h)
  {
    hide Books, UserWord, StackWord, DirWord, ByteAt;
    forall g: nat, a: nat | g != h
      ensures ByteAt(st', g, a) == ByteAt(st, g, a)
    {
      AddedByte(st, owner, st', owner', h, g, a);
    }
  }

  lemma NoWords(st: Store, h: nat, k: nat, l: nat)
    requires h !in st.spaces
    ensures UserWord(st, h, k, l) == NONE
  {
  }

  lemma AddedByte(st: Store, owner: map<nat, Use>, st': Store, owner': map<nat, Use>, h: nat, g: nat, a: nat)
    requires Books(st, owner) && SpaceAdded(st, owner, st', owner', h)
    ensures ByteAt(st', g, a) == ByteAt(st, g, a)
  {
    hide Books, UserWord, DirWord, StackWord;
    var k, l := a / TABLE_SPAN, (a / PAGE) % ENTRIES;
    assert UserWord(st', g, k, l) == UserWord(st, g, k, l);
    if UserWord(st, g, k, l).present { UserFrame(st, owner, g, k, l); }
  }

  /** With the space gone again, the ledger and the spaces are what they were. */
  lemma BackToBefore(st0: Store, owner0: map<nat, Use>, st: Store, owner: map<nat, Use>, st': Store,
                     owner': map<nat, Use>, h: nat)
    requires Books(st0, owner0) && h !in st0.spaces && OwnerGrew(owner0, owner, h) && Elsewhere(st0, st, h)
    requires st.spaces.Keys == st0.spaces.Keys + {h}
    requires SpaceGone(st, owner, st', owner', h)
    ensures owner' == owner0 && st'.spaces == st0.spaces && Elsewhere(st0, st', h)
  {
    hide Books, UserWord, DirWord, StackWord, ByteAt;
    OwnerBack(st0, owner0, owner, h);
    assert st'.spaces == st0.spaces;
    forall g: nat, a: nat | g != h
      ensures ByteAt(st', g, a) == ByteAt(st0, g, a)
    {
      SameMemoryByte(st, st', g, a);
      assert ByteAt(st, g, a) == ByteAt(st0, g, a);
    }
  }

  lemma OwnerBack(st0: Store, owner0: map<nat, Use>, owner: map<nat, Use>, h: nat)
    requires Books(st0, owner0) && h !in st0.spaces && OwnerGrew(owner0, owner, h)
    ensures owner - FramesOf(owner, h) == owner0
  {
    hide Books;
    NoFramesOf(st0, owner0, h);
  }

  lemma SameMemoryByte(st: Store, st': Store, g: nat, a: nat)
    requires st'.memory == st.memory
    requires
      UserWord(st', g, a / TABLE_SPAN, (a / PAGE) % ENTRIES) == UserWord(st, g, a / TABLE_SPAN, (a / PAGE) % ENTRIES)
    ensures ByteAt(st', g, a) == ByteAt(st, g, a)
  {
    hide UserWord;
  }

  lemma NoFramesOf(st: Store, owner: map<nat, Use>, h: nat)
    requires Books(st, owner) && h !in st.spaces
    ensures forall f :: f in owner ==> !OfSpace(owner[f], h)
  {
    forall f | f in owner
      ensures !OfSpace(owner[f], h)
    {
      assert FrameOf(st, owner[f]) == Some(f);
    }
  }

  /** When a process can be made. */
  ghost predicate Loadable(s: AddressSpaces, image: seq<byte>, packet: A.Packet, record: Option<nat>)
    reads s, s.pmm
  {
    && s.enabled && A.WellPacked(packet) && E.Loadable(image) && |s.order| < SPACE_LIMIT && record.Some?
    && FramesFor(E.SegmentsOf(E.Programs(image))) <= s.pmm.free
  }

  /** Prepare a process from an executable image and an argument packet. It fails only for a
      bad packet, a bad image, or want of a space slot, a record or frames, and then leaves
      everything as it was. */
  method LoadProcess(s: AddressSpaces, image: seq<byte>, packet: A.Packet, record: Option<nat>)
    returns (r: Option<Process>)
    requires s.Valid() && A.Shaped(packet) && (record.Some? ==> record.value !in s.spaces && record.value != KERNEL)
    modifies s`memory, s`spaces, s`order, s`owner, s.pmm`taken, s.pmm`free, s.pmm`next
    ensures s.Valid() && s.Account() == old(s.Account())
    ensures r.Some? <==> old(Loadable(s, image, packet, record))
    ensures r.Some? ==> E.Loadable(image) && record == Some(r.value.space) && r.value.entry == U32(image, 24)
    ensures r.Some? ==> r.value.space in s.spaces && Elsewhere(old(s.St()), s.St(), r.value.space)
    ensures r.Some? ==>
      Stacked(s.St(), r.value.space, image, E.SegmentsOf(E.Programs(image))) &&
      StackHolds(s.St(), r.value.space, r.value.stack, packet)
    ensures r.None? ==>
      s.spaces == old(s.spaces) && s.order == old(s.order) && s.owner == old(s.owner) && s.pmm.taken == old(s.pmm.taken)
    ensures r.None? && record.Some? ==> Elsewhere(old(s.St()), s.St(), record.value)
  {
    hide Books, Enrolled, Backed, Foreign, NoneEmpty, Loaded, Elsewhere, OwnerGrew, Stacked, StackHolds, A.WellPacked,
         A.Packs, E.Loadable, Need, SpaceAdded, SpaceGone, Cleared, Plannable;
    r := None;
    if record.Some? { ElsewhereSelf(s.St(), record.value); }
    var packed;
    ghost var strs;
    packed, strs := A.ArgumentsValid(packet);
    if !packed { return; }
    var plan := E.PlanImage(image);
    if plan.None? { return; }
    PlanIsPlannable(image);
    var created := CreateSpace(s, record);
    if created.None? {
      FramesNeeded(plan.value.segments);
      return;
    }
    NewIsBlank(old(s.St()), old(s.owner), s.St(), s.owner, created.value, image);
    r := Furnish(s, created.value, image, packet, plan.value, old(s.St()), old(s.owner), old(s.order),
                 old(s.pmm.taken));
  }

  /** Load the segments, then build the stack. */
  method Populate(s: AddressSpaces, h: nat, image: seq<byte>, packet: A.Packet, segments: seq<E.Segment>,
                  ghost owner0: map<nat, Use>)
    returns (ok: bool, esp: nat)
    requires s.Valid() && s.enabled && h in s.spaces && h != KERNEL && A.WellPacked(packet)
    requires Plannable(segments, |image|) && OwnerGrew(owner0, s.owner, h)
    requires Loaded(s.St(), h, image, []) && s.spaces[h].pages == 0 && s.spaces[h].owned == {}
    modifies s`memory, s`spaces, s`owner, s.pmm`taken, s.pmm`free, s.pmm`next
    ensures s.Valid() && s.Account() == old(s.Account()) && Elsewhere(old(s.St()), s.St(), h)
    ensures s.spaces.Keys == old(s.spaces).Keys && OwnerGrew(owner0, s.owner, h)
    ensures ok <==> Need(segments) + E.STACK_PAGES + 1 <= old(s.pmm.free)
    ensures ok ==> Stacked(s.St(), h, image, segments) && StackHolds(s.St(), h, esp, packet)
  {
    hide Books, Enrolled, Backed, Foreign, NoneEmpty, Loaded, Elsewhere, OwnerGrew, Stacked, StackHolds, A.WellPacked,
         Need, Plannable, s.Valid;
    esp := 0;
    ok := LoadSegments(s, h, image, segments, owner0);
    if ok {
      ghost var loaded := s.St();
      ok, esp := MakeStack(s, h, packet, image, segments, owner0);
      ElsewhereTwice(old(s.St()), loaded, s.St(), h);
    }
  }

  /** Load the segments and the stack into the new space, or destroy it again. */
  method Furnish(s: AddressSpaces, h: nat, image: seq<byte>, packet: A.Packet, plan: E.Plan,
                 ghost st0: Store, ghost owner0: map<nat, Use>, ghost order0: seq<nat>, ghost taken0: seq<bool>)
     returns (r: Option<Process>)
    requires s.Valid() && s.enabled && h in s.spaces && h != KERNEL && h != s.active && A.WellPacked(packet)
    requires Plannable(plan.segments, |image|)
    requires Loaded(s.St(), h, image, []) && s.spaces[h].pages == 0 && s.spaces[h].owned == {}
    requires OwnerGrew(owner0, s.owner, h)
    requires Books(st0, owner0) && h !in st0.spaces && Elsewhere(st0, s.St(), h)
    requires s.spaces.Keys == st0.spaces.Keys + {h} && s.order == [h] + order0
    requires Backed(taken0, owner0) && |taken0| == PAGE_COUNT
    requires Foreign(s.pmm.taken, s.owner) == Foreign(taken0, owner0)
    modifies s`memory, s`spaces, s`order, s`owner, s.pmm`taken, s.pmm`free, s.pmm`next
    ensures s.Valid() && s.Account() == old(s.Account()) && Elsewhere(st0, s.St(), h)
    ensures r.Some? <==> Need(plan.segments) + E.STACK_PAGES + 1 <= old(s.pmm.free)
    ensures r.Some? ==> r.value.space == h && r.value.entry == plan.entry && h in s.spaces
    ensures r.Some? ==> Stacked(s.St(), h, image, plan.segments) && StackHolds(s.St(), h, r.value.stack, packet)
    ensures r.None? ==> s.spaces == st0.spaces && s.order == order0 && s.owner == owner0 && s.pmm.taken == taken0
  {
    hide Books, Enrolled, Backed, Foreign, NoneEmpty, Loaded, Elsewhere, OwnerGrew, Stacked, StackHolds, A.WellPacked,
         Need, Plannable, BitmapsOk, s.Valid, s.pmm.Valid;
    var ok, esp := Populate(s, h, image, packet, plan.segments, owner0);
    ElsewhereTwice(st0, old(s.St()), s.St(), h);
    if ok { return Some(Process(h, plan.entry, esp)); }
    GiveUp(s, h, st0, owner0, order0, taken0);
    r := None;
  }

  /** Destroy the unfinished space: all is as before it was made. */
  method GiveUp(s: AddressSpaces, h: nat, ghost st0: Store, ghost owner0: map<nat, Use>, ghost order0: seq<nat>,
                ghost taken0: seq<bool>)
    requires s.Valid() && s.enabled && h in s.spaces && h != KERNEL && h != s.active && OwnerGrew(owner0, s.owner, h)
    requires Books(st0, owner0) && h !in st0.spaces && Elsewhere(st0, s.St(), h)
    requires s.spaces.Keys == st0.spaces.Keys + {h} && s.order == [h] + order0
    requires Backed(taken0, owner0) && |taken0| == PAGE_COUNT
    requires Foreign(s.pmm.taken, s.owner) == Foreign(taken0, owner0)
    modifies s`spaces, s`order, s`owner, s.pmm`taken, s.pmm`free, s.pmm`next
    ensures s.Valid() && s.Account() == old(s.Account()) && Elsewhere(st0, s.St(), h)
    ensures s.spaces == st0.spaces && s.order == order0 && s.owner == owner0 && s.pmm.taken == taken0
  {
    hide Books, Enrolled, Backed, Foreign, NoneEmpty, Elsewhere, OwnerGrew, SpaceGone, Cleared;
    var gone := DestroySpace(s, h);
    BackToBefore(st0, owner0, old(s.St()), old(s.owner), s.St(), s.owner, h);
    SameTaken(taken0, s.pmm.taken, owner0);
  }

  lemma PlanIsPlannable(image: seq<byte>)
    requires E.Loadable(image)
    ensures Plannable(E.SegmentsOf(E.Programs(image)), |image|)
  {
    forall i | 0 <= i < |E.SegmentsOf(E.Programs(image))|
      ensures E.SegmentOk(E.SegmentsOf(E.Programs(image))[i], |image|) { E.PlanPromises(image, i, i); }
  }

  lemma FramesNeeded(segments: seq<E.Segment>)
    ensures FramesFor(segments) > 1
  {
  }
}
