/** The calls the namespace makes on a mounted volume. The first mutation audits
    the volume; every later one relies on that audit. */
module Backend {
  import opened Common
  import opened Disk
  import opened Errors
  import opened Fat
  import opened Layout
  import opened Tree
  import opened View
  import opened Commit
  import opened FatName
  import opened Search
  import opened Volume
  import opened Operations
  import opened Names
  import A = Audit
  import Entries

  const WRITE_ENTRY_LIMIT := 65536

  /** The live tree of a volume that passed its audit or would pass it. */
  ghost function Outlook(v: FatVolume): Option<map<Slot, Node>>
    requires v.Coherent()
    reads v
  {
    Prospect(v.g, v.disk, v.fat, v.faulted, AuditDepth(v))
  }

  /** The entries an audit of the volume has to examine, if it is a good one. */
  ghost function LoadOf(v: FatVolume): nat
    requires v.Coherent()
    reads v
  {
    if Outlook(v).Some? then Entries.Entries(v.g, v.disk, Outlook(v).value) else 0
  }

  ghost function Prospect(g: Geometry, d: Disk, fat: seq<byte>, faulted: bool, depth: nat): Option<map<Slot, Node>> {
    if faulted || !Audited(g, d, fat, depth) then None else Nodes(g, d, fat, depth)
  }

  /** How deep the audit went, or will go. */
  ghost function AuditDepth(v: FatVolume): nat
    reads v
  {
    if v.audited then v.depth else PATH_DEPTH
  }

  ghost predicate LiveId(v: FatVolume, id: Option<Slot>)
    requires v.Coherent()
    reads v
  {
    id.Some? && Outlook(v).Some? ==> id.value in Outlook(v).value
  }

  /** Permission to mutate: mounted for writing, not faulted, audited. */
  method Writable(v: FatVolume) returns (error: FsError, failed: bool)
    requires v.Consistent()
    modifies v`cache, v`audited, v`depth
    ensures v.Consistent()
    ensures old(v.faulted) ==> error == IoError
    ensures !v.writable ==> error != Ok
    ensures old(v.audited) ==> v.audited && v.depth == old(v.depth)
    ensures !failed ==>
      (error == Ok <==>
         v.writable && !v.faulted && (old(v.audited) || A.Passes(v.g, v.disk, v.fat, WRITE_ENTRY_LIMIT)))
    ensures failed ==> !old(v.audited) && error != Ok
    ensures error == Ok ==> v.Healthy() && v.audited && Some(v.Tree()) == old(Outlook(v))
    ensures error != Ok ==> v.audited == old(v.audited) && v.depth == old(v.depth)
    ensures Outlook(v) == old(Outlook(v)) && AuditDepth(v) == old(AuditDepth(v))
  {
    hide Nodes, DiskTable, Exclusive, v.Logged;
    failed := false;
    if v.faulted { return IoError, failed; }
    if !v.writable { return ReadOnly, failed; }
    if !v.audited {
      error, failed := A.AuditVolume(v, WRITE_ENTRY_LIMIT);
      if error != Ok { return; }
      v.audited, v.depth := true, PATH_DEPTH;
    }
    error := Ok;
  }

  /** Describe a directory by identity before searching it. */
  method DirectoryAt(v: FatVolume, id: Option<Slot>) returns (error: FsError, dir: Dir)
    requires v.Healthy() && (id.Some? ==> id.value in v.Tree())
    modifies v`cache
    ensures v.Healthy() && v.Tree() == old(v.Tree())
    ensures error == Ok ==> IsDir(v.Tree(), dir) && IdOf(dir) == id
    ensures id.Some? && v.Tree()[id.value].FileNode? ==> error != Ok
  {
    hide Nodes, DiskTable, Audited, NodeAt, ShortName, Classify;
    dir := RootDir;
    if id.None? { return Ok, dir; }
    var desc, e;
    error, desc, e := v.Describe(id.value);
    if error != Ok { return; }
    v.NodeIs(id.value);
    if !desc.directory { return NotDirectory, dir; }
    dir := SubDir(id.value, desc.first, desc.length);
  }

  // ----- The search speaks about lookups ------------------------------------------------------

  lemma {:induction false} ScanSkips(nodes: map<Slot, Node>, slots: seq<Slot>, i: nat, name: string)
    requires i <= |slots|
    requires forall j :: 0 <= j < i ==>
      NameOf(nodes, slots[j]) != Some(Broken) && NameOf(nodes, slots[j]) != Some(Name(name))
    ensures ScanIn(nodes, slots, name) == ScanIn(nodes, slots[i..], name)
    decreases |slots|
  {
    hide NameOf;
    if i == 0 {
      assert slots[0..] == slots;
    } else {
      assert NameOf(nodes, slots[0]) != Some(Broken) && NameOf(nodes, slots[0]) != Some(Name(name));
      assert forall j :: 0 <= j < i - 1 ==> slots[1..][j] == slots[j + 1];
      assert slots[1..][i - 1..] == slots[i..];
      ScanSkips(nodes, slots[1..], i - 1, name);
    }
  }

  lemma SlotsAre(v: FatVolume, dir: Dir)
    requires v.Healthy() && IsDir(v.Tree(), dir)
    ensures var all := AllSlots(v.g, v.Tree(), dir);
      && |all| >= Skip(dir) && SlotsOf(v.g, v.Tree(), IdOf(dir)) == all[Skip(dir)..] && IsDirId(v.Tree(), IdOf(dir))
  {
    hide Nodes, DiskTable, Audited, DirSlots, RootSlots;
    v.HealthyBasics();
    if dir.SubDir? {
      v.DirChain(dir.slot);
      DirHasDots(v.g, v.fat, dir.first);
    }
  }

  /** A visible live entry that decodes to another name is passed by the scan. */
  lemma NotNamedSkips(v: FatVolume, dir: Dir, cursor: nat, name: string)
    requires v.Healthy() && IsDir(v.Tree(), dir) && NotNamed(v.disk, AllSlots(v.g, v.Tree(), dir), cursor, name)
    requires Skip(dir) <= cursor
    ensures var slots := SlotsOf(v.g, v.Tree(), IdOf(dir));
      && cursor - Skip(dir) <= |slots|
      && ScanIn(v.Tree(), slots, name) == ScanIn(v.Tree(), slots[cursor - Skip(dir)..], name)
  {
    hide Nodes, DiskTable, Audited, DirSlots, RootSlots, ScanIn, Passed, ShortName, EntryAt, AllSlots, SlotsOf;
    SlotsAre(v, dir);
    var all, slots := AllSlots(v.g, v.Tree(), dir), SlotsOf(v.g, v.Tree(), IdOf(dir));
    forall j | 0 <= j < cursor - Skip(dir)
      ensures NameOf(v.Tree(), slots[j]) != Some(Broken) && NameOf(v.Tree(), slots[j]) != Some(Name(name))
    {
      assert slots[j] == all[j + Skip(dir)];
      v.NodeIs(slots[j]);
    }
    ScanSkips(v.Tree(), slots, cursor - Skip(dir), name);
  }

  /** The search finds exactly what a lookup would. */
  lemma TargetNamed(v: FatVolume, dir: Dir, name: string, t: Target)
    requires v.Healthy() && TargetOk(v.g, v.disk, v.Tree(), dir, name, t)
    ensures Child(v.g, v.Tree(), IdOf(dir), name) == if t.found then Here(t.slot) else Missing
    ensures t.found ==> NameOf(v.Tree(), t.slot) == Some(Name(name))
  {
    hide Nodes, DiskTable, Audited, DirSlots, RootSlots, Passed, ShortName, EntryAt, AllSlots, SlotsOf, NoEndBefore,
         FreeSlot, NotNamed;
    v.HealthyBasics();
    SlotsAre(v, dir);
    var all, slots := AllSlots(v.g, v.Tree(), dir), SlotsOf(v.g, v.Tree(), IdOf(dir));
    if t.found {
      NotNamedSkips(v, dir, t.cursor, name);
      assert slots[t.cursor - Skip(dir)..][0] == t.slot;
      v.NodeIs(t.slot);
    } else {
      var last: nat :|
        && last <= |all| && NotNamed(v.disk, all, last, name)
        && (last < |all| ==> EntryAt(v.disk, all[last])[0] == 0);
      TargetMissing(v, dir, name, last);
    }
  }

  lemma NothingAfterEnd(g: Geometry, d: Disk, fat: seq<byte>, nodes: map<Slot, Node>, slots: seq<Slot>, i: nat)
    requires g.perCluster > 0 && IsTable(g, fat) && SlotsMatch(g, d, fat, nodes, slots)
    requires i < |slots| && Classify(EntryAt(d, slots[i])) == EndMark
    ensures forall j :: 0 <= j < |slots[i..]| ==> slots[i..][j] !in nodes
  {
    hide NodeAt, Classify, EntryAt;
    forall j | 0 <= j < |slots[i..]|
      ensures slots[i..][j] !in nodes
    {
      assert slots[i..][j] == slots[i + j];
      if j > 0 { assert !Reached(d, slots, i + j); }
    }
  }

  lemma TargetMissing(v: FatVolume, dir: Dir, name: string, last: nat)
    requires v.Healthy() && IsDir(v.Tree(), dir)
    requires var all := AllSlots(v.g, v.Tree(), dir);
      last <= |all| && NotNamed(v.disk, all, last, name) && (last < |all| ==> EntryAt(v.disk, all[last])[0] == 0)
    ensures Child(v.g, v.Tree(), IdOf(dir), name) == Missing
  {
    hide Nodes, DiskTable, Audited, DirSlots, RootSlots, Passed, ShortName, EntryAt, AllSlots, SlotsOf, Classify,
         NotNamed, ScanIn, NodeAt, SlotsMatch;
    v.HealthyBasics();
    SlotsAre(v, dir);
    var all, slots := AllSlots(v.g, v.Tree(), dir), SlotsOf(v.g, v.Tree(), IdOf(dir));
    if last < Skip(dir) {
      v.CursorChecked(dir, last);
      assert false;
    }
    NotNamedSkips(v, dir, last, name);
    var i := last - Skip(dir);
    ListingMatches(v.g, v.disk, v.fat, v.depth, IdOf(dir));
    if last < |all| {
      assert slots[i] == all[last];
      EndIsZero(EntryAt(v.disk, slots[i]));
      NothingAfterEnd(v.g, v.disk, v.fat, v.Tree(), slots, i);
    }
    NoneNamed(v.Tree(), slots[i..], name);
  }

  // ----- What a call does to the tree ------------------------------------------------------------

  /** Nothing but `slot` changed: files are identical, directories keep their entries and
      their clusters, and nothing else came or went. */
  ghost predicate RestKept(before: map<Slot, Node>, after: map<Slot, Node>, slot: Slot) {
    && (forall s :: s in before && s != slot ==> s in after && NodeStays(before[s], after[s]))
    && (forall s :: s in after && s != slot ==> s in before)
  }

  ghost predicate NodeStays(a: Node, b: Node) {
    if a.FileNode? then b == a else b.DirNode? && b.entry == a.entry && a.clusters <= b.clusters
  }

  ghost predicate SameNames(g: Geometry, before: map<Slot, Node>, after: map<Slot, Node>) {
    && SameDirectories(before, after)
    && forall id, n :: IsDirId(before, id) ==> Child(g, after, id, n) == Child(g, before, id, n)
  }

  /** Directories stay directories. */
  ghost predicate SameDirectories(before: map<Slot, Node>, after: map<Slot, Node>) {
    forall id :: IsDirId(before, id) ==> IsDirId(after, id)
  }

  ghost predicate GainedName(g: Geometry, before: map<Slot, Node>, after: map<Slot, Node>, dir: Option<Slot>,
                             name: string, slot: Slot) {
    && IsDirId(before, dir) && Child(g, before, dir, name) == Missing && Child(g, after, dir, name) == Here(slot)
    && slot !in before && slot in after
    && SameDirectories(before, after)
    && (forall id, n :: IsDirId(before, id) && (id != dir || n != name) ==>
          Child(g, after, id, n) == Child(g, before, id, n))
  }

  ghost predicate LostName(g: Geometry, before: map<Slot, Node>, after: map<Slot, Node>, dir: Option<Slot>,
                           name: string, slot: Slot) {
    && IsDirId(before, dir) && Child(g, before, dir, name) == Here(slot)
    && after == before - {slot}
    && (forall n :: Child(g, before, Some(slot), n) == Missing)
    && (exists at: nat :: at < |SlotsOf(g, before, dir)| && SlotsOf(g, before, dir)[at] == slot)
    && NameOf(before, slot) == Some(Name(name))
  }

  ghost function StateOf(v: FatVolume): State
    reads v
  {
    State(v.g, v.disk, v.fat, v.depth)
  }

  lemma HealthySound(v: FatVolume)
    requires v.Healthy()
    ensures Sound(StateOf(v), v.Tree())
  {
  }

  lemma RewriteNames(g: Geometry, before: map<Slot, Node>, slot: Slot, node: Node)
    requires slot in before && before[slot].FileNode? && node.FileNode?
    requires NameOf(before[slot := node], slot) == NameOf(before, slot)
    ensures SameNames(g, before, before[slot := node]) && RestKept(before, before[slot := node], slot)
  {
    hide ScanIn, SlotsOf, NameOf;
    forall id, n | IsDirId(before, id)
      ensures Child(g, before[slot := node], id, n) == Child(g, before, id, n)
    {
      RewriteKeepsNames(g, before, slot, node, id, n);
    }
  }

  lemma CreateNames(u: State, before: map<Slot, Node>, w: State, node: Node, dir: Option<Slot>, at: nat, name: string)
    requires Sound(u, before) && IsDirId(before, dir) && at < |SlotsOf(u.g, before, dir)|
    requires var s := SlotsOf(u.g, before, dir)[at]; s !in before && Sound(w, before[s := node]) && w.g == u.g
    requires NameOf(map[SlotsOf(u.g, before, dir)[at] := node], SlotsOf(u.g, before, dir)[at]) == Some(Name(name))
    requires Child(u.g, before, dir, name) == Missing
    ensures var s := SlotsOf(u.g, before, dir)[at];
      GainedName(u.g, before, before[s := node], dir, name, s) && RestKept(before, before[s := node], s)
  {
    hide ScanIn, NameOf, SlotsOf, Sound;
    var s := SlotsOf(u.g, before, dir)[at];
    CreationNames(u, before, w, node, dir, at, name, dir, name);
    forall id, n | IsDirId(before, id) && (id != dir || n != name)
      ensures Child(u.g, before[s := node], id, n) == Child(u.g, before, id, n)
    {
      CreationNames(u, before, w, node, dir, at, name, id, n);
    }
  }

  lemma ExtendNames(u: State, before: map<Slot, Node>, w: State, dir: Slot, c: nat, node: Node, name: string)
    requires Sound(u, before) && dir in before && before[dir].DirNode? && before[dir].clusters != []
    requires var s := Slot(Data(c, 0), 0);
      && s !in before && w.g == u.g && NameOf(map[s := node], s) == Some(Name(name))
      && Sound(w, before[dir := DirNode(before[dir].entry, before[dir].clusters + [c])][s := node])
    requires Child(u.g, before, Some(dir), name) == Missing
    ensures var s := Slot(Data(c, 0), 0);
      var after := before[dir := DirNode(before[dir].entry, before[dir].clusters + [c])][s := node];
      GainedName(u.g, before, after, Some(dir), name, s) && RestKept(before, after, s)
  {
    hide ScanIn, NameOf, SlotsOf, Sound;
    var s := Slot(Data(c, 0), 0);
    var after := before[dir := DirNode(before[dir].entry, before[dir].clusters + [c])][s := node];
    ExtensionNames(u, before, w, dir, c, node, name, Some(dir), name);
    forall id, n | IsDirId(before, id) && (id != Some(dir) || n != name)
      ensures Child(u.g, after, id, n) == Child(u.g, before, id, n)
    {
      ExtensionNames(u, before, w, dir, c, node, name, id, n);
    }
  }

  /** The place of a target that is not a new slot. */
  lemma TargetPlace(v: FatVolume, dir: Dir, name: string, t: Target)
    requires v.Healthy() && TargetOk(v.g, v.disk, v.Tree(), dir, name, t) && !t.grow
    ensures Skip(dir) <= t.cursor && PlaceOk(v.g, v.disk, v.Tree(), PlaceAt(dir, t.cursor))
    ensures Listing(v.g, v.Tree(), PlaceAt(dir, t.cursor))[PlaceAt(dir, t.cursor).index] == t.slot
    ensures var slots := SlotsOf(v.g, v.Tree(), IdOf(dir));
      t.cursor - Skip(dir) < |slots| && slots[t.cursor - Skip(dir)] == t.slot
    ensures !t.found ==> t.slot !in v.Tree() && CanCreate(v, t, dir)
    ensures t.found ==> t.slot in v.Tree() && Tree.Classify(t.entry) == Used && t.entry == v.Tree()[t.slot].entry
  {
    hide Nodes, DiskTable, Audited, DirSlots, RootSlots, Passed, ShortName, EntryAt, AllSlots, SlotsOf, NoEndBefore,
         FreeSlot, NotNamed, Classify;
    v.HealthyBasics();
    SlotsAre(v, dir);
    CursorIsPlace(v.g, v.disk, v.Tree(), dir, t.cursor);
    PlaceChecked(v.g, v.disk, v.fat, v.depth, PlaceAt(dir, t.cursor));
    if !t.found { FreeSlotKind(v.disk, t.slot, t.end); }
    v.NodeIs(t.slot);
  }
}
