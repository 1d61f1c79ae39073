/** Runs of consecutive user pages: how far an allocation has come, and that undoing
    it leaves the store as it was. */
module PageRuns {
  import opened Common
  import opened Frames
  import opened PageTables
  import opened PageSteps
  import Disk

  /** Entry `l` of table `k` maps one of the pages `lo` to `hi` after page `first`. */
  predicate Window(first: nat, lo: nat, hi: nat, k: nat, l: nat) {
    l < ENTRIES && first + lo <= k * ENTRIES + l < first + hi
  }

  /** Table `k` maps some of the first `n` pages. */
  predicate Touches(first: nat, n: nat, k: nat) {
    n > 0 && first < (k + 1) * ENTRIES && k * ENTRIES < first + n
  }

  const ZEROED := Bytes(Disk.Zeros(PAGE))

  /** A page given out since: mapped as asked, zero-filled, on a frame not known before. */
  predicate FreshPage(st: Store, owner0: map<nat, Use>, w: Word, writable: bool) {
    IsUser(w) && w.writable == writable && w.frame !in owner0 && w.frame in st.memory && st.memory[w.frame] == ZEROED
  }

  /** From `st0` the space `h` gained the tables `extra` and the pages `lo` to `hi`
      after `first`; nothing else changed. */
  ghost predicate Ahead(st0: Store, owner0: map<nat, Use>, st: Store, owner: map<nat, Use>,
                        h: nat, first: nat, lo: nat, hi: nat, writable: bool, extra: set<nat>) {
    && AheadSpaces(st0, st, h, extra) && st.spaces[h].pages + lo == st0.spaces[h].pages + hi
    && AheadWords(st0, owner0, st, h, first, lo, hi, writable, extra)
    && AheadOwner(owner0, owner, h, first, lo, hi, extra)
    && KeptData(st0, owner0, st)
  }

  ghost predicate AheadSpaces(st0: Store, st: Store, h: nat, extra: set<nat>) {
    && st.spaces.Keys == st0.spaces.Keys && h in st0.spaces
    && (forall g :: g in st0.spaces && g != h ==> st.spaces[g] == st0.spaces[g])
    && st.spaces[h].directory == st0.spaces[h].directory
    && extra !! st0.spaces[h].owned && st.spaces[h].owned == st0.spaces[h].owned + extra
  }

  ghost predicate AheadWords(st0: Store, owner0: map<nat, Use>, st: Store,
                             h: nat, first: nat, lo: nat, hi: nat, writable: bool, extra: set<nat>) {
    && (forall g, k :: !(g == h && k in extra) ==> DirWord(st, g, k) == DirWord(st0, g, k))
    && (forall g, k, l :: !(g == h && Window(first, lo, hi, k, l)) ==> UserWord(st, g, k, l) == UserWord(st0, g, k, l))
    && (forall k, l :: Window(first, lo, hi, k, l) ==> FreshPage(st, owner0, UserWord(st, h, k, l), writable))
    && (forall l :: StackWord(st, l) == StackWord(st0, l))
  }

  predicate NewUse(u: Use, h: nat, first: nat, lo: nat, hi: nat, extra: set<nat>) {
    || (u.Private? && u.space == h && u.index in extra)
    || (u.User? && u.space == h && Window(first, lo, hi, u.index, u.entry))
  }

  ghost predicate AheadOwner(owner0: map<nat, Use>, owner: map<nat, Use>, h: nat, first: nat, lo: nat, hi: nat,
                             extra: set<nat>) {
    && (forall f :: f in owner0 ==> f in owner && owner[f] == owner0[f])
    && (forall f :: f in owner && f !in owner0 ==> NewUse(owner[f], h, first, lo, hi, extra))
  }

  /** Frames whose contents page tables do not describe are untouched. */
  ghost predicate KeptData(st0: Store, owner0: map<nat, Use>, st: Store) {
    forall f :: f in owner0 && (Data(owner0[f]) || owner0[f].Shared?) && f in st0.memory ==>
      f in st.memory && st.memory[f] == st0.memory[f]
  }

  /** Everything the ledger covers is exactly as it was. */
  ghost predicate Restored(st0: Store, owner0: map<nat, Use>, st: Store, owner: map<nat, Use>) {
    && st.spaces == st0.spaces && owner == owner0
    && (forall f :: f in owner0 && f in st0.memory ==> f in st.memory && st.memory[f] == st0.memory[f])
  }

  lemma AheadStart(st: Store, owner: map<nat, Use>, h: nat, first: nat, writable: bool)
    requires h in st.spaces
    ensures Ahead(st, owner, st, owner, h, first, 0, 0, writable, {})
  {
  }

  /** One more private table. */
  lemma AheadTable(st0: Store, owner0: map<nat, Use>, st: Store, owner: map<nat, Use>, st': Store,
                   h: nat, first: nat, lo: nat, hi: nat, writable: bool, extra: set<nat>, i: nat, f: nat)
    requires Books(st0, owner0) && Books(st, owner) && Ahead(st0, owner0, st, owner, h, first, lo, hi, writable, extra)
    requires InUser(h, i) && i !in st.spaces[h].owned && f !in owner
    requires DirChanged(st, st', h, i, Word(f, true, true, true))
    requires st'.spaces ==
      st.spaces[h := st.spaces[h].(tables := st.spaces[h].tables + 1, owned := st.spaces[h].owned + {i})]
    requires forall g :: g in st.memory && g != f && g != st.spaces[h].directory ==>
      g in st'.memory && st'.memory[g] == st.memory[g]
    ensures Ahead(st0, owner0, st', owner[f := Private(h, i)], h, first, lo, hi, writable, extra + {i})
  {
    hide Books, AheadWords, KeptData, DirChanged;
    assert AheadSpaces(st0, st', h, extra + {i});
    DirectoryFrame(st, owner, h);
    KeptElsewhere(st0, owner0, st, owner, st', h, f);
    AheadTableWords(st0, owner0, st, owner, st', h, first, lo, hi, writable, extra, i, f);
  }

  lemma KeptElsewhere(st0: Store, owner0: map<nat, Use>, st: Store, owner: map<nat, Use>, st': Store, h: nat, f: nat)
    requires KeptData(st0, owner0, st) && h in st.spaces && f !in owner && (forall g :: g in owner0 ==> g in owner)
    requires forall g :: g in owner0 ==> owner[g] == owner0[g]
    requires st.spaces[h].directory in owner && owner[st.spaces[h].directory] == Directory(h)
    requires forall g :: g in st.memory && g != f && g != st.spaces[h].directory ==>
      g in st'.memory && st'.memory[g] == st.memory[g]
    ensures KeptData(st0, owner0, st')
  {
  }

  lemma AheadTableWords(st0: Store, owner0: map<nat, Use>, st: Store, owner: map<nat, Use>, st': Store,
                        h: nat, first: nat, lo: nat, hi: nat, writable: bool, extra: set<nat>, i: nat, f: nat)
    requires Books(st, owner) && AheadSpaces(st0, st, h, extra) && i !in st.spaces[h].owned
    requires AheadWords(st0, owner0, st, h, first, lo, hi, writable, extra)
    requires InUser(h, i) && f !in owner && DirChanged(st, st', h, i, Word(f, true, true, true))
    requires forall g :: g in st.memory && g != f && g != st.spaces[h].directory ==>
      g in st'.memory && st'.memory[g] == st.memory[g]
    ensures AheadWords(st0, owner0, st', h, first, lo, hi, writable, extra + {i})
  {
    hide Inverse, Formed, Counted, UserWord, StackWord, DirWord, Kinds;
    DirectoryFrame(st, owner, h);
    forall k, l | Window(first, lo, hi, k, l)
      ensures FreshPage(st', owner0, UserWord(st', h, k, l), writable)
    {
      var w := UserWord(st, h, k, l);
      assert FreshPage(st, owner0, w, writable);
      UserFrame(st, owner, h, k, l);
    }
  }

  lemma DirectoryFrame(st: Store, owner: map<nat, Use>, h: nat)
    requires Books(st, owner) && h in st.spaces
    ensures st.spaces[h].directory in owner && owner[st.spaces[h].directory] == Directory(h)
  {
    assert FrameOf(st, Directory(h)) == Some(st.spaces[h].directory);
  }

  /** One more page, the next of the run. */
  lemma AheadMapped(st0: Store, owner0: map<nat, Use>, st: Store, owner: map<nat, Use>, st': Store,
                    h: nat, first: nat, hi: nat, extra: set<nat>, i: nat, j: nat, w: Word)
    requires Books(st, owner) && Ahead(st0, owner0, st, owner, h, first, 0, hi, w.writable, extra)
    requires j < ENTRIES && i * ENTRIES + j == first + hi && i in st.spaces[h].owned
    requires IsUser(w) && w.frame !in owner && UserChanged(st, st', h, i, j, w)
    requires st'.spaces == st.spaces[h := st.spaces[h].(pages := st.spaces[h].pages + 1)]
    requires forall f :: f in st.memory && f != w.frame && f != DirWord(st, h, i).frame ==>
      f in st'.memory && st'.memory[f] == st.memory[f]
    requires w.frame in st'.memory && st'.memory[w.frame] == ZEROED
    ensures Ahead(st0, owner0, st', owner[w.frame := User(h, i, j)], h, first, 0, hi + 1, w.writable, extra)
  {
    hide Inverse, Formed, Counted, UserWord, StackWord, DirWord, Kinds;
    OwnedTable(st, owner, h, i);
    assert AheadSpaces(st0, st', h, extra);
    assert KeptData(st0, owner0, st');
    MappedWords(st0, owner0, st, owner, st', h, first, hi, extra, i, j, w);
    assert AheadOwner(owner0, owner[w.frame := User(h, i, j)], h, first, 0, hi + 1, extra);
  }

  lemma MappedWords(st0: Store, owner0: map<nat, Use>, st: Store, owner: map<nat, Use>, st': Store,
                    h: nat, first: nat, hi: nat, extra: set<nat>, i: nat, j: nat, w: Word)
    requires Books(st, owner) && AheadWords(st0, owner0, st, h, first, 0, hi, w.writable, extra)
    requires h in st.spaces && j < ENTRIES && i * ENTRIES + j == first + hi && i in st.spaces[h].owned
    requires IsUser(w) && w.frame !in owner && w.frame !in owner0 && UserChanged(st, st', h, i, j, w)
    requires forall f :: f in st.memory && f != w.frame && f != DirWord(st, h, i).frame ==>
      f in st'.memory && st'.memory[f] == st.memory[f]
    requires w.frame in st'.memory && st'.memory[w.frame] == ZEROED
    ensures AheadWords(st0, owner0, st', h, first, 0, hi + 1, w.writable, extra)
  {
    hide Inverse, Formed, Counted, UserWord, StackWord, DirWord, Kinds;
    OwnedTable(st, owner, h, i);
    forall k, l | Window(first, 0, hi + 1, k, l)
      ensures FreshPage(st', owner0, UserWord(st', h, k, l), w.writable)
    {
      if k != i || l != j {
        assert Window(first, 0, hi, k, l);
        UserFrame(st, owner, h, k, l);
      }
    }
    forall g, k, l | !(g == h && Window(first, 0, hi + 1, k, l))
      ensures UserWord(st', g, k, l) == UserWord(st0, g, k, l)
    {
      assert !(g == h && Window(first, 0, hi, k, l));
    }
  }

  /** The lowest page of the run goes. */
  lemma AheadUnmapped(st0: Store, owner0: map<nat, Use>, st: Store, owner: map<nat, Use>, st': Store,
                      h: nat, first: nat, lo: nat, hi: nat, writable: bool, extra: set<nat>, i: nat, j: nat)
    requires Books(st, owner) && Ahead(st0, owner0, st, owner, h, first, lo, hi, writable, extra)
    requires lo < hi && j < ENTRIES && i * ENTRIES + j == first + lo && UserWord(st0, h, i, j) == NONE
    requires UserWord(st, h, i, j).present && UserChanged(st, st', h, i, j, NONE)
    requires OnlyPages(st, st', h) && st'.spaces[h].pages + 1 == st.spaces[h].pages
    requires forall f :: f in st.memory && f != DirWord(st, h, i).frame ==>
      f in st'.memory && st'.memory[f] == st.memory[f]
    ensures Ahead(st0, owner0, st', owner - {UserWord(st, h, i, j).frame}, h, first, lo + 1, hi, writable, extra)
  {
    hide Inverse, Formed, Counted, UserWord, StackWord, DirWord, Kinds;
    UserFrame(st, owner, h, i, j);
    OwnedTable(st, owner, h, i);
    assert AheadSpaces(st0, st', h, extra);
    assert KeptData(st0, owner0, st');
    UnmappedWords(st0, owner0, st, owner, st', h, first, lo, hi, writable, extra, i, j);
    assert Window(first, lo, hi, i, j);
    UnmappedOwner(st, owner0, owner, h, first, lo, hi, extra, i, j);
  }

  lemma UnmappedOwner(st: Store, owner0: map<nat, Use>, owner: map<nat, Use>, h: nat, first: nat, lo: nat, hi: nat,
                      extra: set<nat>, i: nat, j: nat)
    requires Books(st, owner) && AheadOwner(owner0, owner, h, first, lo, hi, extra)
    requires lo < hi && j < ENTRIES && i * ENTRIES + j == first + lo && UserWord(st, h, i, j).present
    requires UserWord(st, h, i, j).frame !in owner0
    ensures AheadOwner(owner0, owner - {UserWord(st, h, i, j).frame}, h, first, lo + 1, hi, extra)
  {
    hide Formed, Counted, UserWord, Kinds, DirWord;
    var f := UserWord(st, h, i, j).frame;
    forall g | g in owner - {f} && g !in owner0
      ensures NewUse(owner[g], h, first, lo + 1, hi, extra)
    {
      if owner[g] == User(h, i, j) { assert FrameOf(st, owner[g]) == Some(g); }
    }
  }

  lemma UnmappedWords(st0: Store, owner0: map<nat, Use>, st: Store, owner: map<nat, Use>, st': Store,
                      h: nat, first: nat, lo: nat, hi: nat, writable: bool, extra: set<nat>, i: nat, j: nat)
    requires Books(st, owner) && AheadWords(st0, owner0, st, h, first, lo, hi, writable, extra)
    requires lo < hi && j < ENTRIES && i * ENTRIES + j == first + lo && UserWord(st0, h, i, j) == NONE
    requires UserWord(st, h, i, j).present && UserChanged(st, st', h, i, j, NONE)
    requires forall f :: f in st.memory && f != DirWord(st, h, i).frame ==>
      f in st'.memory && st'.memory[f] == st.memory[f]
    ensures AheadWords(st0, owner0, st', h, first, lo + 1, hi, writable, extra)
  {
    hide Inverse, Formed, Counted, UserWord, StackWord, DirWord, Kinds;
    UserFrame(st, owner, h, i, j);
    OwnedTable(st, owner, h, i);
    forall k, l | Window(first, lo + 1, hi, k, l)
      ensures FreshPage(st', owner0, UserWord(st', h, k, l), writable)
    {
      assert Window(first, lo, hi, k, l);
      UserFrame(st, owner, h, k, l);
    }
    forall g, k, l | !(g == h && Window(first, lo + 1, hi, k, l))
      ensures UserWord(st', g, k, l) == UserWord(st0, g, k, l)
    {
      if !(g == h && k == i && l == j) { assert !(g == h && Window(first, lo, hi, k, l)); }
    }
  }

  // ----- Reclaiming empty tables ------------------------------------------------------------

  /** The empty private tables among the indices `first` to `end`. */
  ghost function Empties(st: Store, h: nat, first: nat, end: nat): set<nat> {
    if h in st.spaces then set i | i in st.spaces[h].owned && first <= i < end && TableEmpty(st, h, i) else {}
  }

  ghost function TablesAt(owner: map<nat, Use>, h: nat, indices: set<nat>): set<nat> {
    set f | f in owner && owner[f].Private? && owner[f].space == h && owner[f].index in indices
  }

  /** The tables `gone` of `h`, all empty, went back; no mapping changed. */
  ghost predicate Reclaimed(st: Store, owner: map<nat, Use>, st': Store, owner': map<nat, Use>, h: nat,
                            gone: set<nat>) {
    && st'.spaces.Keys == st.spaces.Keys && h in st.spaces
    && (forall g :: g in st.spaces && g != h ==> st'.spaces[g] == st.spaces[g])
    && st'.spaces[h].directory == st.spaces[h].directory && st'.spaces[h].pages == st.spaces[h].pages
    && st'.spaces[h].owned == st.spaces[h].owned - gone
    && (forall g, k :: !(g == h && k in gone) ==> DirWord(st', g, k) == DirWord(st, g, k))
    && (forall g, k, l :: UserWord(st', g, k, l) == UserWord(st, g, k, l))
    && (forall l :: StackWord(st', l) == StackWord(st, l))
    && owner' == owner - TablesAt(owner, h, gone)
    && (forall f :: f in owner && owner[f] != Directory(h) && f in st.memory ==>
          f in st'.memory && st'.memory[f] == st.memory[f])
  }

  lemma ReclaimNothing(st: Store, owner: map<nat, Use>, h: nat)
    requires h in st.spaces
    ensures Reclaimed(st, owner, st, owner, h, {})
  {
    assert owner - TablesAt(owner, h, {}) == owner;
  }

  /** One more table reclaimed. */
  lemma ReclaimStep(st0: Store, owner0: map<nat, Use>, st: Store, owner: map<nat, Use>, st': Store, h: nat,
                    gone: set<nat>, i: nat)
    requires Books(st0, owner0) && Books(st, owner) && Reclaimed(st0, owner0, st, owner, h, gone)
    requires i in st.spaces[h].owned && DirChanged(st, st', h, i, NONE)
    requires st'.spaces == st.spaces[h := st'.spaces[h]] && st'.spaces[h].directory == st.spaces[h].directory
    requires st'.spaces[h].pages == st.spaces[h].pages && st'.spaces[h].owned == st.spaces[h].owned - {i}
    requires forall g :: g in st.memory && g != st.spaces[h].directory ==>
      g in st'.memory && st'.memory[g] == st.memory[g]
    ensures Reclaimed(st0, owner0, st', owner - {DirWord(st, h, i).frame}, h, gone + {i})
  {
    hide Inverse, Formed, Counted, UserWord, StackWord, DirWord, Kinds;
    OwnedTable(st, owner, h, i);
    DirectoryFrame(st0, owner0, h);
    var f := DirWord(st, h, i).frame;
    forall g | g in owner0 && owner0[g] == Private(h, i)
      ensures g == f
    {
      TableAlone(st0, owner0, h, i, g, f);
    }
    assert TablesAt(owner0, h, gone + {i}) == TablesAt(owner0, h, gone) + {f};
    assert owner - {f} == owner0 - TablesAt(owner0, h, gone + {i});
  }

  lemma TableAlone(st: Store, owner: map<nat, Use>, h: nat, i: nat, f: nat, g: nat)
    requires Inverse(st, owner) && f in owner && g in owner && owner[f] == owner[g] == Private(h, i)
    ensures f == g
  {
    assert FrameOf(st, owner[f]) == Some(f) && FrameOf(st, owner[g]) == Some(g);
  }

  /** With the pages gone, the empty tables of the range are exactly the new ones, and
      reclaiming them leaves everything as it was: the tables that were there before
      held some page, so none of them is mistaken for an empty one. */
  lemma UndoneIsRestored(st0: Store, owner0: map<nat, Use>, st: Store, owner: map<nat, Use>, st': Store,
                         owner': map<nat, Use>, h: nat, first: nat, n: nat, writable: bool, extra: set<nat>, from: nat,
                         to: nat)
    requires Books(st0, owner0) && NoneEmpty(st0) && Books(st, owner) && Books(st', owner')
    requires Ahead(st0, owner0, st, owner, h, first, n, n, writable, extra)
    requires forall i :: i in extra ==> from <= i < to
    requires Reclaimed(st, owner, st', owner', h, Empties(st, h, from, to))
    ensures Restored(st0, owner0, st', owner')
  {
    hide Inverse, Kinds, Formed, Counted, UserWord, DirWord, StackWord, TableEmpty, NoneEmpty;
    EmptiesAreExtra(st0, owner0, st, owner, h, first, n, writable, extra, from, to);
    BackToWords(st0, owner0, st, owner, st', owner', h, first, n, writable, extra);
    BackToOwner(st0, owner0, owner, owner', h, first, n, extra);
    BackToSpaces(st0, owner0, st', h);
    forall f | f in owner0 && f in st0.memory
      ensures f in st'.memory && st'.memory[f] == st0.memory[f]
    {
      BackToFrame(st0, owner0, st', f);
    }
  }

  lemma EmptiesAreExtra(st0: Store, owner0: map<nat, Use>, st: Store, owner: map<nat, Use>,
                        h: nat, first: nat, n: nat, writable: bool, extra: set<nat>, from: nat, to: nat)
    requires Books(st0, owner0) && NoneEmpty(st0)
    requires Ahead(st0, owner0, st, owner, h, first, n, n, writable, extra)
    requires forall i :: i in extra ==> from <= i < to
    ensures Empties(st, h, from, to) == extra
  {
    hide Inverse, Counted, StackWord, Kinds, DirWord;
    forall i | i in extra
      ensures TableEmpty(st, h, i)
    {
      assert DirOk(st0, h, i);
      assert forall j: nat :: UserWord(st0, h, i, j) == NONE;
    }
    forall i | i in st0.spaces[h].owned
      ensures !TableEmpty(st, h, i)
    {
      assert !TableEmpty(st0, h, i);
      var j: nat :| j < ENTRIES && UserWord(st0, h, i, j).present;
      assert UserWord(st, h, i, j).present;
    }
  }

  lemma BackToWords(st0: Store, owner0: map<nat, Use>, st: Store, owner: map<nat, Use>, st': Store,
                    owner': map<nat, Use>, h: nat, first: nat, n: nat, writable: bool, extra: set<nat>)
    requires Books(st0, owner0) && Books(st, owner) && Books(st', owner')
    requires Ahead(st0, owner0, st, owner, h, first, n, n, writable, extra)
    requires Reclaimed(st, owner, st', owner', h, extra)
    ensures st'.spaces[h].owned == st0.spaces[h].owned && KeptData(st0, owner0, st')
    ensures (forall g, k :: DirWord(st', g, k) == DirWord(st0, g, k))
    ensures (forall g, k, l :: UserWord(st', g, k, l) == UserWord(st0, g, k, l))
  {
    hide Inverse, Kinds, Counted, UserWord, DirWord, StackWord;
    assert st'.spaces[h].owned == st0.spaces[h].owned;
    forall g, k
      ensures DirWord(st', g, k) == DirWord(st0, g, k)
    {
      if g == h && k in extra {
        assert k in st.spaces[h].owned && InUser(h, k);
        assert DirOk(st0, h, k) && DirOk(st', h, k);
      }
    }
    DirectoryFrame(st0, owner0, h);
    assert KeptData(st0, owner0, st');
  }

  lemma PrivateIsOwned(st: Store, owner: map<nat, Use>, f: nat)
    requires Books(st, owner) && f in owner && owner[f].Private?
    ensures owner[f].space in st.spaces && owner[f].index in st.spaces[owner[f].space].owned
  {
    assert FrameOf(st, owner[f]) == Some(f);
    assert DirOk(st, owner[f].space, owner[f].index);
  }

  lemma BackToOwner(st0: Store, owner0: map<nat, Use>, owner: map<nat, Use>, owner': map<nat, Use>, h: nat, first: nat,
                    n: nat, extra: set<nat>)
    requires Books(st0, owner0) && AheadOwner(owner0, owner, h, first, n, n, extra)
    requires owner' == owner - TablesAt(owner, h, extra)
    requires h in st0.spaces && extra !! st0.spaces[h].owned
    ensures owner' == owner0
  {
    forall f | f in owner0
      ensures f in owner'
    {
      if owner0[f].Private? { PrivateIsOwned(st0, owner0, f); }
    }
  }

  lemma BackToSpaces(st0: Store, owner: map<nat, Use>, st': Store, h: nat)
    requires Counted(st0, owner) && Counted(st', owner) && st'.spaces.Keys == st0.spaces.Keys && h in st0.spaces
    requires forall g :: g in st0.spaces && g != h ==> st'.spaces[g] == st0.spaces[g]
    requires st'.spaces[h].directory == st0.spaces[h].directory && st'.spaces[h].owned == st0.spaces[h].owned
    ensures st'.spaces == st0.spaces
  {
    assert st'.spaces[h] == st0.spaces[h];
  }

  lemma BackToFrame(st0: Store, owner: map<nat, Use>, st': Store, f: nat)
    requires Books(st0, owner) && Books(st', owner) && f in owner && st'.spaces == st0.spaces
    requires KeptData(st0, owner, st')
    requires (forall g, k :: DirWord(st', g, k) == DirWord(st0, g, k))
    requires (forall g, k, l :: UserWord(st', g, k, l) == UserWord(st0, g, k, l))
    ensures f in st0.memory && f in st'.memory && st'.memory[f] == st0.memory[f]
  {
    assert KindOk(st0.memory, f, owner[f]) && KindOk(st'.memory, f, owner[f]);
    assert FrameOf(st0, owner[f]) == Some(f) && FrameOf(st', owner[f]) == Some(f);
    match owner[f]
    case Directory(g) =>
      forall k | 0 <= k < ENTRIES
        ensures st'.memory[f].words[k] == st0.memory[f].words[k]
      {
        assert DirWord(st', g, k) == DirWord(st0, g, k);
      }
    case Private(g, i) =>
      forall k | 0 <= k < ENTRIES
        ensures st'.memory[f].words[k] == st0.memory[f].words[k]
      {
        assert UserWord(st', g, i, k) == UserWord(st0, g, i, k);
      }
    case _ =>
  }

  /** A finished run leaves no table empty. */
  lemma NoneEmptyAhead(st0: Store, owner0: map<nat, Use>, st: Store, owner: map<nat, Use>, h: nat, first: nat, n: nat,
                       writable: bool, extra: set<nat>)
    requires NoneEmpty(st0) && Ahead(st0, owner0, st, owner, h, first, 0, n, writable, extra)
    requires forall i :: i in extra ==> Touches(first, n, i)
    ensures NoneEmpty(st)
  {
    hide UserWord, DirWord, StackWord;
    forall g, i | g in st.spaces && i in st.spaces[g].owned
      ensures !TableEmpty(st, g, i)
    {
      if g == h && i in extra {
        var j: nat := if first >= i * ENTRIES then first - i * ENTRIES else 0;
        assert Window(first, 0, n, i, j);
        assert FreshPage(st, owner0, UserWord(st, h, i, j), writable);
      } else {
        assert !TableEmpty(st0, g, i);
        var j: nat :| j < ENTRIES && UserWord(st0, g, i, j).present;
        if g == h && Window(first, 0, n, i, j) { assert FreshPage(st, owner0, UserWord(st, h, i, j), writable); }
        assert UserWord(st, g, i, j).present;
      }
    }
  }

  /** Once the empty tables of a range are gone, none is left anywhere else either. */
  lemma NoneEmptyReclaimed(st: Store, owner: map<nat, Use>, st': Store, owner': map<nat, Use>, h: nat, from: nat,
                           to: nat)
    requires Reclaimed(st, owner, st', owner', h, Empties(st, h, from, to))
    requires forall g, i :: g in st.spaces && i in st.spaces[g].owned && !(g == h && from <= i < to) ==>
      !TableEmpty(st, g, i)
    ensures NoneEmpty(st')
  {
    hide UserWord, DirWord, StackWord;
    forall g, i | g in st'.spaces && i in st'.spaces[g].owned
      ensures !TableEmpty(st', g, i)
    {
      assert !TableEmpty(st, g, i);
      var j: nat :| j < ENTRIES && UserWord(st, g, i, j).present;
      assert UserWord(st', g, i, j).present;
    }
  }

  // ----- The frame account -----------------------------------------------------------------------

  lemma ForeignGained(taken: seq<bool>, owner: map<nat, Use>, f: nat, u: Use)
    requires f < |taken| && !taken[f] && Backed(taken, owner)
    ensures f !in owner && Backed(taken[f := true], owner[f := u])
    ensures Foreign(taken[f := true], owner[f := u]) == Foreign(taken, owner)
    ensures |owner[f := u]| == |owner| + 1
  {
    assert owner[f := u].Keys == owner.Keys + {f};
    assert |owner[f := u].Keys| == |owner.Keys| + 1;
  }

  lemma ForeignLost(taken: seq<bool>, owner: map<nat, Use>, f: nat)
    requires f in owner && Backed(taken, owner)
    ensures f < |taken| && taken[f] && Backed(taken[f := false], owner - {f})
    ensures Foreign(taken[f := false], owner - {f}) == Foreign(taken, owner)
    ensures |owner - {f}| == |owner| - 1
  {
    assert (owner - {f}).Keys == owner.Keys - {f};
    assert |(owner - {f}).Keys| == |owner.Keys| - 1;
  }

  /** With the ledger as it was, the bitmap is as it was. */
  lemma SameTaken(taken: seq<bool>, taken': seq<bool>, owner: map<nat, Use>)
    requires |taken'| == |taken| && Backed(taken, owner) && Backed(taken', owner)
    requires Foreign(taken, owner) == Foreign(taken', owner)
    ensures taken' == taken
  {
    forall p | 0 <= p < |taken|
      ensures taken'[p] == taken[p]
    {
      assert p in Foreign(taken, owner) <==> p in Foreign(taken', owner);
    }
  }
}
