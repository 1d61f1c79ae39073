/** Cursors over a directory's slots and what a search for a name establishes. */
module Search {
  import opened Common
  import opened Errors
  import opened Disk
  import opened Layout
  import opened Tree
  import opened View
  import opened FileData
  import opened FatName

  datatype Dir = RootDir | SubDir(slot: Slot, first: nat, length: nat)

  /** The cluster a directory's own dot entry names; 0 for the root. */
  function FirstOf(dir: Dir): nat { if dir.RootDir? then 0 else dir.first }

  /** The identity of a directory; none for the root. */
  ghost function IdOf(dir: Dir): Option<Slot> {
    match dir
    case RootDir => None
    case SubDir(s, _, _) => Some(s)
  }

  ghost predicate IsDir(nodes: map<Slot, Node>, dir: Dir) {
    dir.SubDir? ==>
      && dir.slot in nodes && nodes[dir.slot].DirNode?
      && dir.first == First(nodes[dir.slot].entry) && dir.length == |nodes[dir.slot].clusters|
  }

  /** All slots of a directory, dot entries included. */
  ghost function AllSlots(g: Geometry, nodes: map<Slot, Node>, dir: Dir): seq<Slot>
    requires IsDir(nodes, dir)
  {
    match dir
    case RootDir => RootSlots(g)
    case SubDir(s, _, _) => DirSlots(g, nodes[s].clusters)
  }

  function Skip(dir: Dir): nat { if dir.RootDir? then 0 else 2 }

  function PlaceAt(dir: Dir, cursor: nat): Place
    requires Skip(dir) <= cursor
  {
    match dir
    case RootDir => InRoot(cursor)
    case SubDir(s, _, _) => InDir(s, cursor - 2)
  }

  function SlotCount(g: Geometry, dir: Dir): nat {
    match dir
    case RootDir => g.rootEntries
    case SubDir(_, _, length) => length * g.perCluster * ENTRIES_PER_SECTOR
  }

  lemma SlotCountIs(g: Geometry, nodes: map<Slot, Node>, dir: Dir)
    requires g.Valid() && IsDir(nodes, dir)
    ensures |AllSlots(g, nodes, dir)| == SlotCount(g, dir)
  {
    if dir.SubDir? {
      ChainSectorsLength(g, nodes[dir.slot].clusters);
    }
  }

  lemma RootSlotAt(g: Geometry, cursor: nat)
    requires cursor < |RootSlots(g)|
    ensures RootSlots(g)[cursor] == Slot(Root(cursor / ENTRIES_PER_SECTOR), cursor % ENTRIES_PER_SECTOR)
  {
  }

  /** The slot at a cursor, from its cluster, sector and position. */
  lemma DirSlotAt(g: Geometry, ch: seq<nat>, q: nat, within: nat)
    requires q < |ch| && within < g.perCluster * ENTRIES_PER_SECTOR
    ensures var cursor := q * (g.perCluster * ENTRIES_PER_SECTOR) + within;
      && cursor < |DirSlots(g, ch)|
      && DirSlots(g, ch)[cursor] == Slot(Data(ch[q], within / ENTRIES_PER_SECTOR), within % ENTRIES_PER_SECTOR)
  {
    hide ChainSectors;
    var r := within / ENTRIES_PER_SECTOR;
    ChainSectorsAt(g, ch, q, r);
    var t := q * g.perCluster + r;
    var cursor := q * (g.perCluster * ENTRIES_PER_SECTOR) + within;
    assert cursor == ENTRIES_PER_SECTOR * t + within % ENTRIES_PER_SECTOR;
    assert cursor / ENTRIES_PER_SECTOR == t && cursor % ENTRIES_PER_SECTOR == within % ENTRIES_PER_SECTOR;
  }

  lemma CursorCluster(g: Geometry, dir: Dir, cursor: nat)
    requires g.perCluster > 0 && dir.SubDir? && cursor < SlotCount(g, dir)
    ensures var per := g.perCluster * ENTRIES_PER_SECTOR;
      per > 0 && cursor / per < dir.length && cursor == (cursor / per) * per + cursor % per
  {
    var per := g.perCluster * ENTRIES_PER_SECTOR;
    DivisionBounds(cursor, per);
    if cursor / per >= dir.length {
      MulMonotone(dir.length, cursor / per, per);
    }
  }

  /** Which cluster of a directory's chain holds slot number `cursor`. */
  function ClusterOf(g: Geometry, cursor: nat): nat
    requires g.perCluster > 0
  {
    cursor / (g.perCluster * ENTRIES_PER_SECTOR)
  }

  /** The slot number `cursor`, once its cluster is known. */
  function SlotIn(g: Geometry, cluster: nat, cursor: nat): Slot
    requires g.perCluster > 0
  {
    var within := cursor % (g.perCluster * ENTRIES_PER_SECTOR);
    Slot(Data(cluster, within / ENTRIES_PER_SECTOR), within % ENTRIES_PER_SECTOR)
  }

  /** A slot is found from its number and the chain alone. */
  lemma CursorSlot(g: Geometry, dir: Dir, ch: seq<nat>, cursor: nat)
    requires g.perCluster > 0 && dir.SubDir? && cursor < SlotCount(g, dir) && dir.length == |ch|
    ensures ClusterOf(g, cursor) < |ch| && cursor < |DirSlots(g, ch)|
    ensures DirSlots(g, ch)[cursor] == SlotIn(g, ch[ClusterOf(g, cursor)], cursor)
  {
    hide DirSlots, SlotCount;
    CursorCluster(g, dir, cursor);
    DirSlotAt(g, ch, ClusterOf(g, cursor), cursor % (g.perCluster * ENTRIES_PER_SECTOR));
  }

  /** Every slot before `cursor` was examined and none ended the directory. */
  ghost predicate NoEndBefore(d: Disk, slots: seq<Slot>, cursor: nat) {
    cursor <= |slots| && forall i :: 0 <= i < cursor ==> EntryAt(d, slots[i])[0] != 0
  }

  lemma EndIsZero(e: Entry)
    ensures Classify(e) == EndMark <==> e[0] == 0
  {
  }

  lemma CursorIsPlace(g: Geometry, d: Disk, nodes: map<Slot, Node>, dir: Dir, cursor: nat)
    requires IsDir(nodes, dir) && Skip(dir) <= cursor < |AllSlots(g, nodes, dir)|
    requires NoEndBefore(d, AllSlots(g, nodes, dir), cursor)
    ensures PlaceOk(g, d, nodes, PlaceAt(dir, cursor))
    ensures Listing(g, nodes, PlaceAt(dir, cursor))[PlaceAt(dir, cursor).index] == AllSlots(g, nodes, dir)[cursor]
  {
    hide Classify, EntryAt, RootSlots, DirSlots;
    var all := AllSlots(g, nodes, dir);
    var place := PlaceAt(dir, cursor);
    var list := Listing(g, nodes, place);
    forall j | 0 <= j < place.index
      ensures Classify(EntryAt(d, list[j])) != EndMark
    {
      assert list[j] == all[j + Skip(dir)];
      EndIsZero(EntryAt(d, list[j]));
    }
  }

  /** Every visible entry before `cursor` decodes, and to another name. */
  ghost predicate NotNamed(d: Disk, slots: seq<Slot>, cursor: nat, name: string) {
    cursor <= |slots| &&
    forall i :: 0 <= i < cursor ==>
      || Passed(EntryAt(d, slots[i]))
      || (ShortName(EntryAt(d, slots[i])) != Name(name) && !ShortName(EntryAt(d, slots[i])).Broken?)
  }

  lemma SearchStep(d: Disk, slots: seq<Slot>, cursor: nat, name: string)
    requires NoEndBefore(d, slots, cursor) && NotNamed(d, slots, cursor, name) && cursor < |slots|
    requires var e := EntryAt(d, slots[cursor]);
      e[0] != 0 && (Passed(e) || (ShortName(e) != Name(name) && !ShortName(e).Broken?))
    ensures NoEndBefore(d, slots, cursor + 1) && NotNamed(d, slots, cursor + 1, name)
  {
    hide EntryAt, Passed, ShortName;
  }

  // ----- Search results ---------------------------------------------------------------------

  datatype Target = Target(
    slot: Slot, cursor: nat, entry: Entry, found: bool, end: bool, grow: bool, longName: bool,
    directory: bool, size: nat, first: nat, length: nat)

  /** A free slot: the end mark or a deleted entry. */
  ghost predicate FreeSlot(d: Disk, s: Slot, end: bool) {
    EntryAt(d, s)[0] == if end then 0 else DELETED
  }

  /** What the writer may rely on after a search of `dir` for `name`. */
  ghost predicate TargetOk(g: Geometry, d: Disk, nodes: map<Slot, Node>, dir: Dir, name: string, t: Target) {
    && IsDir(nodes, dir)
    && var all := AllSlots(g, nodes, dir);
       && (t.found ==>
             && Skip(dir) <= t.cursor < |all| && NoEndBefore(d, all, t.cursor) && t.slot == all[t.cursor]
             && t.slot in nodes && t.entry == EntryAt(d, t.slot) && ShortName(t.entry) == Name(name) && !Passed(t.entry)
             && NotNamed(d, all, t.cursor, name) && !t.end
             && t.directory == nodes[t.slot].DirNode? && t.length == |nodes[t.slot].clusters|
             && t.first == First(t.entry) && t.size == Size(t.entry) && !t.grow)
       && (!t.found ==> t.length == 0 && t.first == 0 && t.size == 0)
       && (!t.found && !t.grow ==>
             && Skip(dir) <= t.cursor < |all| && NoEndBefore(d, all, t.cursor) && t.slot == all[t.cursor]
             && FreeSlot(d, t.slot, t.end))
       && (!t.found ==> exists last: nat ::
             && last <= |all| && NotNamed(d, all, last, name)
             && (last < |all| ==> EntryAt(d, all[last])[0] == 0))
       && (t.grow ==>
             && dir.SubDir? && NoEndBefore(d, all, |all|) && !t.end
             && |all| + g.perCluster * ENTRIES_PER_SECTOR <= DIRECTORY_ENTRY_LIMIT)
  }

  /** A long-name entry stands right before a free slot. */
  ghost predicate Orphan(d: Disk, slots: seq<Slot>, i: nat) {
    && i + 1 < |slots| && Attributes(EntryAt(d, slots[i])) == LONG_NAME
    && EntryAt(d, slots[i + 1])[0] in {0, DELETED}
  }

  /** A visible entry whose name cannot be read. */
  ghost predicate Unreadable(d: Disk, slots: seq<Slot>, i: nat) {
    i < |slots| && !Passed(EntryAt(d, slots[i])) && ShortName(EntryAt(d, slots[i])).Broken?
  }

  ghost predicate NoneFree(d: Disk, slots: seq<Slot>, cursor: nat) {
    cursor <= |slots| && forall i :: 0 <= i < cursor ==> EntryAt(d, slots[i])[0] != DELETED
  }

  /** Why a search of an audited directory for `name` was refused, if every read succeeded. */
  ghost predicate Refusal(g: Geometry, d: Disk, nodes: map<Slot, Node>, dir: Dir, name: string, error: FsError) {
    && IsDir(nodes, dir)
    && var all := AllSlots(g, nodes, dir);
       match error
       case IoError => exists i :: Unreadable(d, all, i)
       case Unsupported => exists i :: Orphan(d, all, i)
       case NoSpace =>
         && NotNamed(d, all, |all|, name) && NoEndBefore(d, all, |all|) && NoneFree(d, all, |all|)
         && (dir.RootDir? || |all| + g.perCluster * ENTRIES_PER_SECTOR > DIRECTORY_ENTRY_LIMIT)
       case _ => false
  }

  lemma UnreadableRefuses(g: Geometry, d: Disk, nodes: map<Slot, Node>, dir: Dir, name: string, i: nat)
    requires IsDir(nodes, dir) && Unreadable(d, AllSlots(g, nodes, dir), i)
    ensures Refusal(g, d, nodes, dir, name, IoError)
  {
    hide Unreadable, AllSlots;
  }

  lemma OrphanRefuses(g: Geometry, d: Disk, nodes: map<Slot, Node>, dir: Dir, name: string, t: Target, cursor: nat)
    requires IsDir(nodes, dir)
    requires var all := AllSlots(g, nodes, dir);
      && cursor < |all| && Scanned(d, all, Skip(dir), name, t, cursor, true)
      && EntryAt(d, all[cursor])[0] in {0, DELETED}
    ensures Refusal(g, d, nodes, dir, name, Unsupported)
  {
    hide AllSlots, EntryAt, NoneFree, NoEndBefore, NotNamed;
    assert Orphan(d, AllSlots(g, nodes, dir), cursor - 1);
  }

  lemma DotsAreNotFree(d: Disk, slots: seq<Slot>, self: nat, parent: nat, i: nat)
    requires DotsRight(d, slots, self, parent) && i < 2
    ensures var e := EntryAt(d, slots[i]);
      e[0] != 0 && e[0] != DELETED && Attributes(e) != LONG_NAME && Passed(e)
  {
    hide EntryAt, First, Size, U16;
  }

  /** The search came to the end without the name. */
  lemma SearchMissed(g: Geometry, d: Disk, nodes: map<Slot, Node>, dir: Dir, name: string, t: Target, last: nat)
    requires IsDir(nodes, dir) && !t.found && t.length == 0 && t.first == 0 && t.size == 0
    requires var all := AllSlots(g, nodes, dir);
      && last <= |all| && NoEndBefore(d, all, last) && NotNamed(d, all, last, name)
      && (last < |all| ==> EntryAt(d, all[last])[0] == 0)
      && (!t.grow ==>
            Skip(dir) <= t.cursor <= last && t.cursor < |all| && t.slot == all[t.cursor] && FreeSlot(d, t.slot, t.end))
      && (t.grow ==>
            && dir.SubDir? && last == |all| && !t.end
            && |all| + g.perCluster * ENTRIES_PER_SECTOR <= DIRECTORY_ENTRY_LIMIT)
    ensures TargetOk(g, d, nodes, dir, name, t)
  {
    hide EntryAt, AllSlots, FreeSlot, NotNamed;
    var all := AllSlots(g, nodes, dir);
    assert NotNamed(d, all, last, name) && (last < |all| ==> EntryAt(d, all[last])[0] == 0);
  }

  // ----- The search loop --------------------------------------------------------------------

  /** What the search knows after `cursor` slots: the name was not among them, `t` is the first
      free one, if any, and `longName` says whether the last one held part of a long name. */
  ghost predicate Scanned(d: Disk, slots: seq<Slot>, skip: nat, name: string, t: Target, cursor: nat, longName: bool) {
    && NoEndBefore(d, slots, cursor) && NotNamed(d, slots, cursor, name)
    && !t.found && !t.grow && !t.longName && t.length == 0 && t.first == 0 && t.size == 0
    && (if t.cursor == |slots| then !t.end && NoneFree(d, slots, cursor)
        else skip <= t.cursor < cursor && t.slot == slots[t.cursor] && FreeSlot(d, t.slot, t.end))
    && (longName ==> cursor > 0 && Attributes(EntryAt(d, slots[cursor - 1])) == LONG_NAME)
  }

  lemma ScanStart(d: Disk, slots: seq<Slot>, skip: nat, name: string, t: Target)
    requires t == Target(t.slot, |slots|, t.entry, false, false, false, false, false, 0, 0, 0)
    ensures Scanned(d, slots, skip, name, t, 0, false)
  {
  }

  lemma ScanKnows(d: Disk, slots: seq<Slot>, skip: nat, name: string, t: Target, cursor: nat, longName: bool)
    requires Scanned(d, slots, skip, name, t, cursor, longName)
    ensures NoEndBefore(d, slots, cursor) && NotNamed(d, slots, cursor, name)
  {
  }

  /** A slot that is in use, under another name. */
  lemma ScanStep(d: Disk, slots: seq<Slot>, skip: nat, name: string, t: Target, cursor: nat, longName: bool, long: bool)
    requires Scanned(d, slots, skip, name, t, cursor, longName) && cursor < |slots|
    requires var e := EntryAt(d, slots[cursor]);
      && e[0] != 0 && e[0] != DELETED && (long ==> Attributes(e) == LONG_NAME)
      && (Passed(e) || (ShortName(e) != Name(name) && !ShortName(e).Broken?))
    ensures Scanned(d, slots, skip, name, t, cursor + 1, long)
  {
    hide EntryAt, Passed, ShortName, FreeSlot, NoEndBefore, NotNamed;
    SearchStep(d, slots, cursor, name);
  }

  /** A deleted slot, which is taken if it is the first free one. */
  lemma ScanDeleted(d: Disk, slots: seq<Slot>, skip: nat, name: string, t: Target, cursor: nat)
    requires Scanned(d, slots, skip, name, t, cursor, false) && skip <= cursor < |slots|
    requires EntryAt(d, slots[cursor])[0] == DELETED
    ensures Scanned(d, slots, skip, name, Taken(t, slots, cursor, false), cursor + 1, false)
  {
    hide EntryAt, ShortName, NoEndBefore, NotNamed, NoneFree;
    SearchStep(d, slots, cursor, name);
  }

  /** The first free slot of the search. */
  function Taken(t: Target, slots: seq<Slot>, cursor: nat, end: bool): Target
    requires cursor < |slots|
  {
    if t.cursor == |slots| then t.(slot := slots[cursor], cursor := cursor, end := end) else t
  }

  /** The end mark: it is the free slot if there was none before. */
  lemma ScanEnd(g: Geometry, d: Disk, nodes: map<Slot, Node>, dir: Dir, name: string, t: Target, cursor: nat)
    requires IsDir(nodes, dir) && Skip(dir) <= cursor < |AllSlots(g, nodes, dir)|
    requires Scanned(d, AllSlots(g, nodes, dir), Skip(dir), name, t, cursor, false)
    requires EntryAt(d, AllSlots(g, nodes, dir)[cursor])[0] == 0
    ensures TargetOk(g, d, nodes, dir, name, Taken(t, AllSlots(g, nodes, dir), cursor, true))
  {
    hide EntryAt, AllSlots, NotNamed, NoneFree, NoEndBefore, TargetOk;
    SearchMissed(g, d, nodes, dir, name, Taken(t, AllSlots(g, nodes, dir), cursor, true), cursor);
  }

  /** No end mark: a free slot was found, or the directory has to grow, or it is full. */
  lemma ScanOver(g: Geometry, d: Disk, nodes: map<Slot, Node>, dir: Dir, name: string, t: Target, longName: bool)
    requires IsDir(nodes, dir)
    requires var all := AllSlots(g, nodes, dir);
      Scanned(d, all, Skip(dir), name, t, |all|, longName)
    ensures var all := AllSlots(g, nodes, dir);
      if t.cursor == |all| && (dir.RootDir? || |all| + g.perCluster * ENTRIES_PER_SECTOR > DIRECTORY_ENTRY_LIMIT)
      then Refusal(g, d, nodes, dir, name, NoSpace)
      else TargetOk(g, d, nodes, dir, name, t.(grow := t.cursor == |all|))
  {
    hide EntryAt, AllSlots, NotNamed, NoneFree, NoEndBefore, TargetOk;
    var all := AllSlots(g, nodes, dir);
    if t.cursor < |all| || (dir.SubDir? && |all| + g.perCluster * ENTRIES_PER_SECTOR <= DIRECTORY_ENTRY_LIMIT) {
      SearchMissed(g, d, nodes, dir, name, t.(grow := t.cursor == |all|), |all|);
    }
  }
}
