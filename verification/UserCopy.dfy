/** Copies between the kernel and user memory, page by page through the tables. */
module UserCopy {
  import opened Common
  import opened Frames
  import opened PageTables
  import opened PageSteps
  import opened Paging
  import opened UserPages
  import opened Disk

  const TABLE_SPAN := 0x40_0000

  /** The entry that maps address `a` in space `h`. */
  function AddressWord(st: Store, h: nat, a: nat): Word {
    UserWord(st, h, a / TABLE_SPAN, (a / PAGE) % ENTRIES)
  }

  /** The byte a program in space `h` reads at address `a`, if it may. */
  function ByteAt(st: Store, h: nat, a: nat): Option<byte> {
    var w := AddressWord(st, h, a);
    if w.present && w.frame in st.memory && st.memory[w.frame].Bytes? && a % PAGE < |st.memory[w.frame].data|
    then Some(st.memory[w.frame].data[a % PAGE]) else None
  }

  /** A range the copy accepts: user addresses, each mapped, and writable if asked. */
  ghost predicate Accessible(st: Store, h: nat, address: nat, bytes: nat, writable: bool) {
    && h in st.spaces && h != KERNEL
    && (bytes > 0 ==> USER_BASE <= address && address + bytes <= USER_END)
    && (forall a :: address <= a < address + bytes ==>
          AddressWord(st, h, a).present && (writable ==> AddressWord(st, h, a).writable))
  }

  /** Test the pages a range covers. */
  method UserBytes(s: AddressSpaces, h: nat, address: nat, bytes: nat, writable: bool) returns (ok: bool)
    requires s.Valid()
    ensures ok <==> s.enabled && Accessible(s.St(), h, address, bytes, writable)
  {
    hide Books, Enrolled, NoneEmpty, UserWord;
    if !s.enabled || h !in s.spaces || h == KERNEL { return false; }
    if bytes == 0 { return true; }
    if address < USER_BASE || address >= USER_END || bytes > USER_END - address { return false; }
    var page, last := address / PAGE, (address + bytes - 1) / PAGE;
    ghost var first := page;
    while true
      invariant first <= page <= last
      invariant forall p :: first <= p < page ==> PageOk(s.St(), h, p, writable)
      decreases last - page
    {
      EntryIsWord(s.St(), s.owner, h, page / ENTRIES, page % ENTRIES);
      var w := UserEntry(s.St(), h, page / ENTRIES, page % ENTRIES);
      if !w.present || (writable && !w.writable) {
        var a := if page == first then address else page * PAGE;
        PageOf(a);
        assert address <= a < address + bytes && AddressWord(s.St(), h, a) == w;
        return false;
      }
      if page == last { break; }
      page := page + 1;
    }
    forall a | address <= a < address + bytes
      ensures AddressWord(s.St(), h, a).present && (writable ==> AddressWord(s.St(), h, a).writable)
    {
      PageOf(a);
      assert PageOk(s.St(), h, a / PAGE, writable);
    }
    ok := true;
  }

  predicate PageOk(st: Store, h: nat, page: nat, writable: bool) {
    var w := UserWord(st, h, page / ENTRIES, page % ENTRIES); w.present && (writable ==> w.writable)
  }

  lemma PageOf(a: nat)
    ensures a / TABLE_SPAN == (a / PAGE) / ENTRIES
  {
  }

  // ----- Writing user memory ------------------------------------------------------------------------

  /** Nothing but the contents of user pages of `h` differs. */
  ghost predicate SameTables(st: Store, owner: map<nat, Use>, st': Store, h: nat) {
    && st'.spaces == st.spaces && SameDirs(st, st')
    && (forall g, k, l :: UserWord(st', g, k, l) == UserWord(st, g, k, l))
    && (forall l :: StackWord(st', l) == StackWord(st, l))
    && (forall f :: f in owner && f in st.memory && !(owner[f].User? && owner[f].space == h) ==>
          f in st'.memory && st'.memory[f] == st.memory[f])
  }

  /** New contents for a user frame leave every table alone. */
  lemma DataWrite(st: Store, owner: map<nat, Use>, f: nat, data: seq<byte>, st': Store)
    requires Books(st, owner) && f in owner && owner[f].User? && |data| == PAGE
    requires st' == st.(memory := st.memory[f := Bytes(data)])
    ensures Books(st', owner) && SameTables(st, owner, st', owner[f].space)
  {
    hide Inverse, Kinds, Formed, Counted, UserWord, DirWord, StackWord, SameDirs, FrameOf;
    DataWords(st, owner, f, data, st');
    forall u: Use ensures FrameOf(st', u) == FrameOf(st, u) { SameFrame(st, st', u); }
    InverseSame(st, owner, st');
    CountedSame(st, owner, st');
    StillFormedAll(st, st');
    assert Kinds(st', owner) by { DataKinds(st, owner, f, data); }
  }

  lemma DataKinds(st: Store, owner: map<nat, Use>, f: nat, data: seq<byte>)
    requires Kinds(st, owner) && f in owner && owner[f].User? && |data| == PAGE
    ensures Kinds(st.(memory := st.memory[f := Bytes(data)]), owner)
  {
  }

  lemma StillFormedAll(st: Store, st': Store)
    requires Formed(st) && SameDirs(st, st') && st'.spaces == st.spaces
    requires (forall g, k, l :: UserWord(st', g, k, l) == UserWord(st, g, k, l))
    requires (forall l :: StackWord(st', l) == StackWord(st, l))
    ensures Formed(st')
  {
    StillFormed(st, st', KERNEL);
  }

  lemma DataWords(st: Store, owner: map<nat, Use>, f: nat, data: seq<byte>, st': Store)
    requires Books(st, owner) && f in owner && owner[f].User? && st' == st.(memory := st.memory[f := Bytes(data)])
    ensures SameDirs(st, st') && (forall l :: StackWord(st', l) == StackWord(st, l))
    ensures forall g, k, l :: UserWord(st', g, k, l) == UserWord(st, g, k, l)
  {
    hide Formed, Counted, Kinds;
    forall g, k
      ensures DirWord(st', g, k) == DirWord(st, g, k)
    {
      if g in st.spaces { assert FrameOf(st, Directory(g)).Some?; }
    }
    assert FrameOf(st, Shared(STACK_TABLE)) == Frame(DirWord(st, KERNEL, STACK_TABLE));
    forall g, k, l
      ensures UserWord(st', g, k, l) == UserWord(st, g, k, l)
    {
      assert FrameOf(st, Private(g, k)) == if InUser(g, k) then Frame(DirWord(st, g, k)) else None;
    }
  }

  /** The new contents show at the addresses of that one page, in that one space. */
  lemma DataShows(st: Store, owner: map<nat, Use>, h: nat, page: nat, data: seq<byte>, st': Store, g: nat, a: nat)
    requires Books(st, owner) && UserWord(st, h, page / ENTRIES, page % ENTRIES).present && |data| == PAGE
    requires st' == st.(memory := st.memory[UserWord(st, h, page / ENTRIES, page % ENTRIES).frame := Bytes(data)])
    ensures ByteAt(st', g, a) == if g == h && a / PAGE == page then Some(data[a % PAGE]) else ByteAt(st, g, a)
  {
    var i, j := page / ENTRIES, page % ENTRIES;
    UserFrame(st, owner, h, i, j);
    var f := UserWord(st, h, i, j).frame;
    DataWords(st, owner, f, data, st');
    PageOf(a);
    hide Inverse, Kinds, Formed, Counted, UserWord, DirWord, StackWord;
    var w := AddressWord(st, g, a);
    assert AddressWord(st', g, a) == w;
    if w.present { UserFrame(st, owner, g, a / TABLE_SPAN, (a / PAGE) % ENTRIES); }
  }

  /** Bytes `to` up to `to + |source|` of space `h` now read as `source`; every other
      byte of every space reads as before. */
  ghost predicate Overlaid(st: Store, st': Store, h: nat, to: nat, source: seq<byte>) {
    forall g: nat, a: nat ::
      ByteAt(st', g, a) == if g == h && to <= a < to + |source| then Some(source[a - to]) else ByteAt(st, g, a)
  }

  /** Bytes placed in a page. */
  function Patched(data: seq<byte>, offset: nat, chunk: seq<byte>): (r: seq<byte>)
    requires offset + |chunk| <= |data|
    ensures |r| == |data|
    ensures forall k :: 0 <= k < |data| ==>
      r[k] == if offset <= k < offset + |chunk| then chunk[k - offset] else data[k]
  {
    data[..offset] + chunk + data[offset + |chunk|..]
  }

  lemma OverlayStep(st0: Store, owner: map<nat, Use>, st: Store, st': Store, h: nat, to: nat, source: seq<byte>,
                    done: nat, chunk: nat, data: seq<byte>)
    requires Books(st, owner) && done + chunk <= |source| && Overlaid(st0, st, h, to, source[..done])
    requires var a := to + done; var f := AddressWord(st, h, a).frame;
      && AddressWord(st, h, a).present && a % PAGE + chunk <= PAGE && f in st.memory && st.memory[f].Bytes?
      && |st.memory[f].data| == PAGE
      && data == Patched(st.memory[f].data, a % PAGE, source[done..done + chunk])
      && st' == st.(memory := st.memory[f := Bytes(data)])
    ensures Overlaid(st0, st', h, to, source[..done + chunk])
  {
    hide Books;
    var at := to + done;
    PageOf(at);
    var page := at / PAGE;
    forall g: nat, a: nat
      ensures ByteAt(st', g, a) ==
        if g == h && to <= a < to + done + chunk then Some(source[..done + chunk][a - to]) else ByteAt(st0, g, a)
    {
      DataShows(st, owner, h, page, data, st', g, a);
      PageOf(a);
      hide UserWord;
      if g == h && a / PAGE == page { OldByte(st, h, a, at); }
    }
  }

  lemma OldByte(st: Store, h: nat, a: nat, b: nat)
    requires a / PAGE == b / PAGE && AddressWord(st, h, b).present
    requires var f := AddressWord(st, h, b).frame; f in st.memory && st.memory[f].Bytes? && |st.memory[f].data| == PAGE
    ensures ByteAt(st, h, a) == Some(st.memory[AddressWord(st, h, b).frame].data[a % PAGE])
  {
    PageOf(a);
    PageOf(b);
  }

  lemma SameAccessible(st: Store, owner: map<nat, Use>, st': Store, h: nat, address: nat, bytes: nat, writable: bool)
    requires SameTables(st, owner, st', h) && Accessible(st, h, address, bytes, writable)
    ensures Accessible(st', h, address, bytes, writable)
  {
    hide UserWord;
    forall a | address <= a < address + bytes
      ensures AddressWord(st', h, a).present && (writable ==> AddressWord(st', h, a).writable)
    {
      assert AddressWord(st', h, a) == AddressWord(st, h, a);
    }
  }

  lemma SameTablesNext(st0: Store, owner: map<nat, Use>, st: Store, st': Store, h: nat)
    requires SameTables(st0, owner, st, h) && SameTables(st, owner, st', h)
    ensures SameTables(st0, owner, st', h)
  {
    hide UserWord, DirWord, StackWord;
  }

  lemma SameTablesNoneEmpty(st: Store, owner: map<nat, Use>, st': Store, h: nat)
    requires SameTables(st, owner, st', h) && NoneEmpty(st)
    ensures NoneEmpty(st')
  {
    hide UserWord;
    forall g, i | g in st'.spaces && i in st'.spaces[g].owned
      ensures !TableEmpty(st', g, i)
    {
      assert !TableEmpty(st, g, i);
      var j: nat :| j < ENTRIES && UserWord(st, g, i, j).present;
      assert UserWord(st', g, i, j).present;
    }
  }

  /** The mapped frame behind an accessible address. */
  lemma AddressFrame(st: Store, owner: map<nat, Use>, h: nat, a: nat)
    requires Books(st, owner) && AddressWord(st, h, a).present
    ensures h in st.spaces && UserEntry(st, h, a / TABLE_SPAN, (a / PAGE) % ENTRIES) == AddressWord(st, h, a)
    ensures var f := AddressWord(st, h, a).frame;
      && f in owner && owner[f].User? && owner[f].space == h
      && f in st.memory && st.memory[f].Bytes? && |st.memory[f].data| == PAGE
  {
    UserFrame(st, owner, h, a / TABLE_SPAN, (a / PAGE) % ENTRIES);
    EntryIsWord(st, owner, h, a / TABLE_SPAN, (a / PAGE) % ENTRIES);
  }

  /** Copy into user memory. The whole range is checked first, so a refused copy writes
      nothing; an accepted one changes those bytes of that space and no other byte. */
  method CopyToUser(s: AddressSpaces, h: nat, destination: nat, source: seq<byte>) returns (ok: bool)
    requires s.Valid()
    modifies s`memory
    ensures s.Valid()
    ensures ok <==> s.enabled && Accessible(old(s.St()), h, destination, |source|, true)
    ensures !ok ==> s.memory == old(s.memory)
    ensures ok ==> Overlaid(old(s.St()), s.St(), h, destination, source) && SameTables(old(s.St()), s.owner, s.St(), h)
  {
    hide Books, Enrolled, Backed, NoneEmpty, Accessible, SameTables, Overlaid, UserWord;
    ok := UserBytes(s, h, destination, |source|, true);
    if !ok { return; }
    SameTablesSelf(s.St(), s.owner, h);
    OverlaidNothing(s.St(), h, destination, source);
    var done := 0;
    while done < |source|
      invariant done <= |source| && s.Sound() && SameTables(old(s.St()), s.owner, s.St(), h)
      invariant Overlaid(old(s.St()), s.St(), h, destination, source[..done])
    {
      var at := destination + done;
      AccessibleAt(old(s.St()), s.owner, s.St(), h, destination, |source|, true, at);
      AddressFrame(s.St(), s.owner, h, at);
      var f := UserEntry(s.St(), h, at / TABLE_SPAN, (at / PAGE) % ENTRIES).frame;
      var chunk := if PAGE - at % PAGE > |source| - done then |source| - done else PAGE - at % PAGE;
      ghost var before := s.St();
      var data := Patched(s.memory[f].data, at % PAGE, source[done..done + chunk]);
      s.memory := s.memory[f := Bytes(data)];
      DataWrite(before, s.owner, f, data, s.St());
      SameTablesNext(old(s.St()), s.owner, before, s.St(), h);
      OverlayStep(old(s.St()), s.owner, before, s.St(), h, destination, source, done, chunk, data);
      done := done + chunk;
    }
    assert source[..done] == source;
    SameTablesNoneEmpty(old(s.St()), s.owner, s.St(), h);
  }

  lemma SameTablesSelf(st: Store, owner: map<nat, Use>, h: nat)
    ensures SameTables(st, owner, st, h)
  {
  }

  lemma OverlaidNothing(st: Store, h: nat, to: nat, source: seq<byte>)
    ensures Overlaid(st, st, h, to, source[..0])
  {
  }

  lemma AccessibleAt(st0: Store, owner: map<nat, Use>, st: Store, h: nat, address: nat, bytes: nat, writable: bool,
                     a: nat)
    requires Accessible(st0, h, address, bytes, writable) && SameTables(st0, owner, st, h)
    requires address <= a < address + bytes
    ensures AddressWord(st, h, a).present
  {
    hide UserWord;
    assert AddressWord(st, h, a) == AddressWord(st0, h, a);
  }

  /** Copy out of user memory exactly the bytes the program sees. */
  method CopyFromUser(s: AddressSpaces, h: nat, source: nat, bytes: nat) returns (ok: bool, r: seq<byte>)
    requires s.Valid()
    ensures ok <==> s.enabled && Accessible(s.St(), h, source, bytes, false)
    ensures ok ==> |r| == bytes && forall k :: 0 <= k < bytes ==> ByteAt(s.St(), h, source + k) == Some(r[k])
  {
    hide Books, Enrolled, Backed, NoneEmpty, Accessible, SameTables, UserWord;
    r := [];
    ok := UserBytes(s, h, source, bytes, false);
    if !ok { return; }
    SameTablesSelf(s.St(), s.owner, h);
    while |r| < bytes
      invariant |r| <= bytes && forall k :: 0 <= k < |r| ==> ByteAt(s.St(), h, source + k) == Some(r[k])
      decreases bytes - |r|
    {
      var at := source + |r|;
      AccessibleAt(s.St(), s.owner, s.St(), h, source, bytes, false, at);
      AddressFrame(s.St(), s.owner, h, at);
      var f := UserEntry(s.St(), h, at / TABLE_SPAN, (at / PAGE) % ENTRIES).frame;
      var offset := at % PAGE;
      var chunk := if PAGE - offset > bytes - |r| then bytes - |r| else PAGE - offset;
      var piece := s.memory[f].data[offset..offset + chunk];
      forall k | 0 <= k < chunk
        ensures ByteAt(s.St(), h, at + k) == Some(piece[k])
      {
        OldByte(s.St(), h, at + k, at);
      }
      r := r + piece;
    }
  }

  /** What was copied in is what is copied out, across any page crossings. */
  method CopyRoundTrip(s: AddressSpaces, h: nat, address: nat, data: seq<byte>) returns (ok: bool, back: seq<byte>)
    requires s.Valid()
    modifies s`memory
    ensures s.Valid() && (ok <==> s.enabled && Accessible(old(s.St()), h, address, |data|, true))
    ensures ok ==> back == data
  {
    hide Accessible, SameTables, ByteAt, Books, NoneEmpty, Enrolled, Backed;
    back := [];
    ok := CopyToUser(s, h, address, data);
    if !ok { return; }
    Readable(old(s.St()), h, address, |data|);
    SameAccessible(old(s.St()), s.owner, s.St(), h, address, |data|, false);
    ok, back := CopyFromUser(s, h, address, |data|);
    forall k | 0 <= k < |data|
      ensures back[k] == data[k]
    {
      assert ByteAt(s.St(), h, address + k) == Some(data[k]);
    }
  }

  lemma Readable(st: Store, h: nat, address: nat, bytes: nat)
    requires Accessible(st, h, address, bytes, true)
    ensures Accessible(st, h, address, bytes, false)
  {
  }
}
