/** Replace, write, truncate, mkdir, remove and lookup as the namespace calls them. */
module Calls {
  import opened Common
  import opened Disk
  import opened Errors
  import opened Fat
  import opened Layout
  import opened Tree
  import opened View
  import opened Commit
  import opened Crash
  import opened FileData
  import opened FatName
  import opened Search
  import opened Volume
  import opened Operations
  import opened Enlarge
  import opened GrowthCrash
  import History
  import opened Names
  import opened Pins
  import opened Backend
  import Entries
  import Path

  /** Any crash during the events since `before` shows the old tree or the one with
      `slot` holding `node`. */
  ghost predicate Atomic(v: FatVolume, d0: Disk, before: seq<Event>, old': map<Slot, Node>, slot: Slot, node: Node)
    reads v`trace, v`depth
  {
    v.g.Valid() && |before| <= |v.trace| && AtomicRun(v.g, d0, v.trace[|before|..], v.depth, old', old'[slot := node])
  }

  /** Any crash now shows the tree with `slot` holding `node`. */
  ghost predicate Durable(v: FatVolume, d0: Disk, before: seq<Event>, old': map<Slot, Node>, slot: Slot, node: Node)
    reads v`trace, v`depth
  {
    && v.g.Valid() && |before| <= |v.trace|
    && forall d :: CrashState(d0, v.trace[|before|..], d) ==> Shows(v.g, d, v.depth, old'[slot := node])
  }

  lemma Rewritable(v: FatVolume, dir: Dir, name: string, t: Target)
    requires v.Healthy() && TargetOk(v.g, v.disk, v.Tree(), dir, name, t) && !t.grow && (t.found ==> !t.directory)
    requires Tree.Classify(t.entry) == Used && !DirectoryBit(t.entry)
    ensures Skip(dir) <= t.cursor && v.CanRewrite(t, dir, PlaceAt(dir, t.cursor))
  {
    hide Nodes, DiskTable, Audited, DirSlots, RootSlots, Passed, ShortName, EntryAt, AllSlots, NoEndBefore, FreeSlot,
         NotNamed, Tree.Classify, PlaceOk;
    TargetPlace(v, dir, name, t);
  }

  lemma FileHasNoDirectoryBit(v: FatVolume, s: Slot)
    requires v.Healthy() && s in v.Tree() && v.Tree()[s].FileNode?
    ensures !DirectoryBit(v.Tree()[s].entry)
  {
    hide Nodes, DiskTable, Audited, EntryAt, Chain, Content, ChainSectors, DirSlots;
    v.HealthyBasics();
    v.NodeIs(s);
  }

  lemma SameVisible(e: Entry, r: Entry)
    requires r[..11] == e[..11] && Tree.Classify(e) == Used && Tree.Classify(r) == Used
    ensures Passed(r) == Passed(e) && ShortName(r) == ShortName(e)
  {
    hide ShortName;
    SameName(e, r);
    assert r[..11][1] == e[..11][1] && r[..11][2] == e[..11][2];
  }

  lemma UsedInTree(v: FatVolume, s: Slot)
    requires v.Healthy() && s in v.Tree()
    ensures Tree.Classify(v.Tree()[s].entry) == Used
  {
    hide Nodes, DiskTable, Exclusive, EntryAt, Tree.Classify;
    NodeIsAt(v.g, v.disk, v.fat, v.depth, s);
  }

  // ----- The history ----------------------------------------------------------------------------

  /** At most one call was added, from the tree `before`; if it succeeded it ends at the
      tree of the volume. */
  ghost predicate Entered(v: FatVolume, calls: seq<History.Call>, before: Option<map<Slot, Node>>, done: bool)
    reads v
  {
    || v.history == calls
    || (&& |v.history| == |calls| + 1 && calls <= v.history
        && before.Some? && Passes(v.history[|calls|].views, before.value)
        && (done ==> v.Healthy() && EndsAt(v.history[|calls|].views, v.Tree())))
  }

  lemma TreeShown(v: FatVolume, depth: nat)
    requires v.Healthy() && v.depth <= depth
    ensures Shows(v.g, v.disk, depth, v.Tree())
  {
    hide Nodes, DiskTable, Exclusive;
    SameSectors(v.g, v.disk, v.fat, v.disk, v.depth, depth);
  }

  /** The history accounts for `d0` and everything issued up to `t0`. */
  ghost predicate Accounted(v: FatVolume, d0: Disk, t0: seq<Event>)
    reads v`history
  {
    && History.Recorded(v.g, v.origin, v.history) && t0 == History.Issue(v.history)
    && Settled(t0) && d0 == Apply(v.origin, t0)
  }

  /** A call starts from a flushed device that shows the tree. */
  lemma Begin(v: FatVolume, depth: nat)
    requires v.Logged() && v.Healthy() && v.depth <= depth
    ensures Accounted(v, v.disk, v.trace) && Shows(v.g, v.disk, depth, v.Tree())
  {
    hide History.Recorded, History.Issue, Settled, Apply, Shows, Nodes, DiskTable, Audited;
    TreeShown(v, depth);
  }

  /** Enter a call that found `before` on `d0` and passed through `views`. */
  ghost method Enter(v: FatVolume, d0: Disk, t0: seq<Event>, before: map<Slot, Node>, depth: nat,
                     views: seq<map<Slot, Node>>)
    requires Accounted(v, d0, t0)
    requires v.Coherent() && v.Synced(d0, t0) && Grew(v, d0, t0, before, depth, views) && v.g.Valid()
    requires Shows(v.g, d0, depth, before)
    modifies v`history
    ensures Entered(v, old(v.history), Some(before), false)
    ensures v.Consistent() && |v.history| == |old(v.history)| + 1 && old(v.history) <= v.history
    ensures v.history[|old(v.history)|].views == views
    ensures v.Healthy() && EndsAt(views, v.Tree()) ==> Entered(v, old(v.history), Some(before), true)
  {
    hide History.Recorded, History.Issue, Settled, Apply, Shows, SomeCopyRun, History.Recoverable, Nodes, DiskTable,
         Audited;
    SomeCopyRecovers(v.g, d0, v.trace[|t0|..], depth, views);
    v.Record(d0, t0, History.Call(v.trace[|t0|..], depth, views));
  }

  // ----- What every call starts with ------------------------------------------------------------

  /** Permission to write, then the search of the parent directory. */
  method Locate(v: FatVolume, parent: Option<Slot>, name: string) returns (error: FsError, dir: Dir, t: Target)
    requires v.Consistent() && LiveId(v, parent)
    modifies v`cache, v`started, v`audited, v`depth
    ensures v.Consistent() && Outlook(v) == old(Outlook(v)) && AuditDepth(v) == old(AuditDepth(v)) && !v.started
    ensures error == Ok ==> v.Healthy() && v.audited && Some(v.Tree()) == Outlook(v) && IdOf(dir) == parent
    ensures error == Ok ==> TargetOk(v.g, v.disk, v.Tree(), dir, name, t)
  {
    hide Nodes, DiskTable, Exclusive, TargetOk, v.Logged, IsDir;
    t := Target(Slot(Root(0), 0), 0, Zeros(32), false, false, false, false, false, 0, 0, 0);
    dir := RootDir;
    v.started := false;
    var failed;
    error, failed := Writable(v);
    if error != Ok { return; }
    error, dir := DirectoryAt(v, parent);
    if error != Ok { return; }
    error, t, failed := v.FindTarget(dir, name);
  }

  /** Permission to write, then the file by its identity. */
  method LocateFile(v: FatVolume, id: Slot) returns (error: FsError, t: Target)
    requires v.Consistent() && LiveId(v, Some(id))
    modifies v`cache, v`started, v`audited, v`depth
    ensures v.Consistent() && Outlook(v) == old(Outlook(v)) && AuditDepth(v) == old(AuditDepth(v)) && !v.started
    ensures error == Ok ==>
      v.Healthy() && v.audited && Some(v.Tree()) == Outlook(v) && id in v.Tree() && IsFile(v.Tree()[id], id, t)
  {
    hide Nodes, DiskTable, Exclusive, v.Logged;
    t := Target(id, 0, Zeros(32), true, false, false, false, false, 0, 0, 0);
    v.started := false;
    var failed;
    error, failed := Writable(v);
    if error != Ok { return; }
    error, t := ById(v, id);
  }

  // ----- Replace ------------------------------------------------------------------------------

  /** `name` in `parent` is a file holding `data`: the file that was there, under the same
      names, or a new one that nothing else had to make room for. */
  ghost predicate Replaced(g: Geometry, before: Option<map<Slot, Node>>, after: map<Slot, Node>, parent: Option<Slot>,
                           name: string, slot: Slot, data: seq<byte>) {
    && before.Some? && slot in after && after[slot].FileNode? && after[slot].content == data
    && NameOf(after, slot) == Some(Name(name)) && RestKept(before.value, after, slot)
    && if slot in before.value
       then
         && before.value[slot].FileNode? && Child(g, before.value, parent, name) == Here(slot)
         && SameNames(g, before.value, after)
       else GainedName(g, before.value, after, parent, name, slot)
  }

  /** Write `data` as the whole contents of `name` in `parent`, creating it if needed. */
  method ReplaceFile(v: FatVolume, pins: PinTable, parent: Option<Slot>, name: string, data: seq<byte>)
    returns (error: FsError, ghost slot: Slot, ghost node: Node, ghost grew: bool, ghost views: seq<map<Slot, Node>>)
    requires v.Consistent() && LiveId(v, parent) && pins.Valid() && Path.Canonical(name)
    modifies v`cache, v`disk, v`trace, v`started, v`fat, v`faulted, v`audited, v`depth, v`history
    ensures v.Consistent() && old(v.trace) <= v.trace
    ensures Entered(v, old(v.history), old(Outlook(v)), error == Ok)
    ensures error == Ok ==>
      v.Healthy() && v.audited && Replaced(v.g, old(Outlook(v)), v.Tree(), parent, name, slot, data)
    ensures error == Ok ==> v.Tree()[slot] == node && (slot in old(Outlook(v)).value ==> pins.Count(Some(slot)) == 0)
    ensures error != Ok && !v.faulted ==> v.disk == old(v.disk) && v.fat == old(v.fat)
    ensures v.trace != old(v.trace) && !grew ==>
      old(Outlook(v)).Some? && Atomic(v, old(v.disk), old(v.trace), old(Outlook(v)).value, slot, node)
    // When the directory had to grow, some copy of the table is whole at every crash.
    ensures v.trace != old(v.trace) && grew ==>
      old(Outlook(v)).Some? && Grew(v, old(v.disk), old(v.trace), old(Outlook(v)).value, v.depth, views)
    ensures error != Ok && !v.faulted ==> Outlook(v) == old(Outlook(v))
    ensures AuditDepth(v) == old(AuditDepth(v))
    ensures error == Ok ==> LoadOf(v) <= old(LoadOf(v)) + 2
  {
    hide Nodes, DiskTable, Exclusive, TargetOk, SameNames, GainedName, Atomic, NameOf, RestKept, Child, Path.Canonical,
         IsDir, Grew, v.Synced, Accounted, Shows, v.Logged, Entries.Entries;
    slot, node, grew, views := Slot(Root(0), 0), FileNode(Zeros(32), [], []), false, [];
    var dir, t;
    error, dir, t := Locate(v, parent, name);
    if error != Ok { return; }
    if t.found && t.directory { return IsDirectory, slot, node, grew, views; }
    if t.found {
      var held := pins.Pinned(Some(t.slot));
      if held { return Busy, slot, node, grew, views; }
    }
    Begin(v, v.depth);
    ghost var before := v.Tree();
    error, slot, node, grew, views := ReplaceTarget(v, t, dir, name, data);
    Enter(v, old(v.disk), old(v.trace), before, v.depth, views);
  }

  /** Prepare the entry of a target, new or found. */
  method TargetEntry(v: FatVolume, t: Target, dir: Dir, name: string) returns (t': Target)
    requires v.Healthy() && TargetOk(v.g, v.disk, v.Tree(), dir, name, t) && (t.found ==> !t.directory)
    requires Path.Canonical(name)
    ensures TargetOk(v.g, v.disk, v.Tree(), dir, name, t') && t' == t.(entry := t'.entry) && (t'.grow ==> !t'.found)
    ensures Tree.Classify(t'.entry) == Used && !DirectoryBit(t'.entry) && ShortName(t'.entry) == Name(name)
    ensures !Passed(t'.entry)
  {
    hide Nodes, DiskTable, Audited, DirSlots, RootSlots, Passed, ShortName, EntryAt, AllSlots, NoEndBefore, FreeSlot,
         NotNamed, Tree.Classify;
    t' := t;
    if t.found {
      v.HealthyBasics();
      v.NodeIs(t.slot);
      UsedInTree(v, t.slot);
      FileHasNoDirectoryBit(v, t.slot);
    } else {
      ghost var b: nat :| Path.BaseOf(name, b);
      var e := MakeEntry(name, false, 0, b);
      NewEntryUsed(name, b, false, 0, 0);
      t' := t.(entry := e);
      NewTargetOk(v, t, dir, name, e);
    }
  }

  lemma NewTargetOk(v: FatVolume, t: Target, dir: Dir, name: string, e: Entry)
    requires v.Healthy() && TargetOk(v.g, v.disk, v.Tree(), dir, name, t) && !t.found
    ensures TargetOk(v.g, v.disk, v.Tree(), dir, name, t.(entry := e))
  {
    hide Nodes, DiskTable, Audited, DirSlots, RootSlots, Passed, ShortName, EntryAt, AllSlots, NoEndBefore, FreeSlot,
         NotNamed, Tree.Classify;
  }

  lemma GrowTarget(v: FatVolume, t: Target, dir: Dir, name: string)
    requires v.Healthy() && TargetOk(v.g, v.disk, v.Tree(), dir, name, t) && t.grow
    ensures MustGrow(v, t, dir) && dir.slot in v.Tree() && v.Tree()[dir.slot].DirNode?
    ensures v.Tree()[dir.slot].clusters != []
  {
    hide Nodes, DiskTable, Audited, DirSlots, RootSlots, Passed, ShortName, EntryAt, AllSlots, NoEndBefore, FreeSlot,
         NotNamed, Tree.Classify;
    v.HealthyBasics();
    v.DirChain(dir.slot);
    ChainIsChain(v.g, v.fat, First(v.Tree()[dir.slot].entry));
  }

  /** The entry on the new tree carries the name searched for. */
  lemma CarriesName(v: FatVolume, slot: Slot, t: Target, name: string)
    requires v.Healthy() && slot in v.Tree() && v.Tree()[slot].entry[..11] == t.entry[..11]
    requires Tree.Classify(t.entry) == Used && ShortName(t.entry) == Name(name) && !Passed(t.entry)
    ensures NameOf(v.Tree(), slot) == Some(Name(name))
  {
    hide Nodes, DiskTable, Audited, Passed, ShortName, Tree.Classify;
    UsedInTree(v, slot);
    SameVisible(t.entry, v.Tree()[slot].entry);
  }

  lemma CreatedByGrowing(v: FatVolume, u: State, before: map<Slot, Node>, dir: Dir, c: nat, node: Node, t: Target,
                         name: string)
    requires v.Healthy() && Sound(u, before) && u.g == v.g && dir.SubDir? && dir.slot in before
    requires before[dir.slot].DirNode? && before[dir.slot].clusters != [] && Slot(Data(c, 0), 0) !in before
    requires v.Tree() ==
      before[dir.slot := DirNode(before[dir.slot].entry, before[dir.slot].clusters + [c])][Slot(Data(c, 0), 0) := node]
    requires node.entry[..11] == t.entry[..11] && Tree.Classify(t.entry) == Used && ShortName(t.entry) == Name(name)
    requires !Passed(t.entry)
    requires Child(u.g, before, Some(dir.slot), name) == Missing
    ensures NameOf(v.Tree(), Slot(Data(c, 0), 0)) == Some(Name(name))
    ensures GainedName(v.g, before, v.Tree(), Some(dir.slot), name, Slot(Data(c, 0), 0))
    ensures RestKept(before, v.Tree(), Slot(Data(c, 0), 0))
  {
    hide Nodes, DiskTable, Audited, Passed, ShortName, Tree.Classify, GainedName, RestKept, Child, Sound;
    HealthySound(v);
    CarriesName(v, Slot(Data(c, 0), 0), t, name);
    ExtendNames(u, before, StateOf(v), dir.slot, c, node, name);
  }

  /** Creating in a free slot, at the level of names. */
  lemma CreatedHere(v: FatVolume, u: State, before: map<Slot, Node>, dir: Option<Slot>, at: nat, node: Node, t: Target,
                    name: string)
    requires v.Healthy() && Sound(u, before) && u.g == v.g && v.Tree() == before[t.slot := node] && t.slot !in before
    requires IsDirId(before, dir) && at < |SlotsOf(u.g, before, dir)| && SlotsOf(u.g, before, dir)[at] == t.slot
    requires node.entry[..11] == t.entry[..11] && Tree.Classify(t.entry) == Used && ShortName(t.entry) == Name(name)
    requires !Passed(t.entry)
    requires Child(u.g, before, dir, name) == Missing
    ensures NameOf(v.Tree(), t.slot) == Some(Name(name))
    ensures GainedName(v.g, before, v.Tree(), dir, name, t.slot) && RestKept(before, v.Tree(), t.slot)
  {
    hide Nodes, DiskTable, Audited, Passed, ShortName, Tree.Classify, GainedName, RestKept, Child, Sound, IsDirId,
         SlotsOf;
    HealthySound(v);
    CarriesName(v, t.slot, t, name);
    CreateNames(u, before, StateOf(v), node, dir, at, name);
  }

  /** Rewriting a file keeps its name and everyone else's. */
  lemma RewroteNames(v: FatVolume, before: map<Slot, Node>, node: Node, t: Target, name: string)
    requires v.Healthy() && v.Tree() == before[t.slot := node] && t.slot in before && before[t.slot].FileNode?
    requires node.FileNode?
    requires before[t.slot].entry == t.entry && node.entry[..11] == t.entry[..11]
    requires Tree.Classify(t.entry) == Used && ShortName(t.entry) == Name(name) && !Passed(t.entry)
    ensures NameOf(v.Tree(), t.slot) == Some(Name(name))
    ensures SameNames(v.g, before, v.Tree()) && RestKept(before, v.Tree(), t.slot)
  {
    hide Nodes, DiskTable, Audited, Passed, ShortName, Tree.Classify, SameNames, RestKept;
    CarriesName(v, t.slot, t, name);
    RewriteNames(v.g, before, t.slot, node);
  }

  method ReplaceTarget(v: FatVolume, t0: Target, dir: Dir, name: string, data: seq<byte>)
    returns (error: FsError, ghost slot: Slot, ghost node: Node, ghost grew: bool, ghost views: seq<map<Slot, Node>>)
    requires v.Healthy() && v.audited && !v.started && TargetOk(v.g, v.disk, v.Tree(), dir, name, t0)
    requires (t0.found ==> !t0.directory)
    requires Path.Canonical(name)
    modifies v`cache, v`disk, v`trace, v`started, v`fat, v`faulted, v`depth
    ensures v.Coherent() && v.audited && v.depth == old(v.depth) && old(v.trace) <= v.trace
    ensures v.Synced(old(v.disk), old(v.trace))
    ensures Grew(v, old(v.disk), old(v.trace), old(v.Tree()), v.depth, views)
    ensures error == Ok ==> v.Healthy() && EndsAt(views, v.Tree())
    ensures error == Ok ==>
      v.Healthy() && slot in v.Tree() && v.Tree()[slot] == node && node.FileNode? && node.content == data
    ensures error == Ok ==> NameOf(v.Tree(), slot) == Some(Name(name)) && RestKept(old(v.Tree()), v.Tree(), slot)
    ensures error == Ok && t0.found ==> slot == t0.slot && slot in old(v.Tree()) && old(v.Tree())[slot].FileNode?
    ensures error == Ok && t0.found ==>
      Child(v.g, old(v.Tree()), IdOf(dir), name) == Here(slot) && SameNames(v.g, old(v.Tree()), v.Tree())
    ensures error == Ok && !t0.found ==>
      slot !in old(v.Tree()) && GainedName(v.g, old(v.Tree()), v.Tree(), IdOf(dir), name, slot)
    ensures error != Ok && !v.faulted ==> v.disk == old(v.disk) && v.fat == old(v.fat)
    ensures !grew ==> Atomic(v, old(v.disk), old(v.trace), old(v.Tree()), slot, node)
    ensures error == Ok ==> v.Load() <= old(v.Load()) + 2
  {
    hide Nodes, DiskTable, Audited, TargetOk, SameNames, GainedName, RestKept, Child, Path.Canonical, IsDir, AtomicRun,
         CrashState, Shows, Tree.Classify, ShortName, Passed, NameOf, Atomic, Grew, v.Synced, Entries.Entries;
    var t := TargetEntry(v, t0, dir, name);
    grew := t.grow;
    TargetNamed(v, dir, name, t);
    if t.grow {
      error, slot, node, views := CreateByGrowing(v, t, dir, name, data);
    } else {
      slot := t.slot;
      error, node, views := RewriteHere(v, t, dir, name, data);
    }
  }

  method CreateByGrowing(v: FatVolume, t: Target, dir: Dir, name: string, data: seq<byte>)
    returns (error: FsError, ghost slot: Slot, ghost node: Node, ghost views: seq<map<Slot, Node>>)
    requires v.Healthy() && v.audited && !v.started && TargetOk(v.g, v.disk, v.Tree(), dir, name, t) && t.grow
    requires Tree.Classify(t.entry) == Used && !DirectoryBit(t.entry) && ShortName(t.entry) == Name(name)
    requires !Passed(t.entry)
    requires Child(v.g, v.Tree(), IdOf(dir), name) == Missing
    modifies v`cache, v`disk, v`trace, v`started, v`fat, v`faulted, v`depth
    ensures v.Coherent() && v.audited && v.depth == old(v.depth) && old(v.trace) <= v.trace
    ensures v.Synced(old(v.disk), old(v.trace))
    ensures Grew(v, old(v.disk), old(v.trace), old(v.Tree()), v.depth, views)
    ensures error == Ok ==> v.Healthy() && EndsAt(views, v.Tree())
    ensures error == Ok ==>
      v.Healthy() && slot in v.Tree() && v.Tree()[slot] == node && node.FileNode? && node.content == data
    ensures error == Ok ==> NameOf(v.Tree(), slot) == Some(Name(name)) && RestKept(old(v.Tree()), v.Tree(), slot)
    ensures error == Ok ==> slot !in old(v.Tree()) && GainedName(v.g, old(v.Tree()), v.Tree(), IdOf(dir), name, slot)
    ensures error != Ok && !v.faulted ==> v.disk == old(v.disk) && v.fat == old(v.fat)
    ensures error == Ok ==> v.Load() <= old(v.Load()) + 2
  {
    hide Nodes, DiskTable, Audited, TargetOk, SameNames, GainedName, RestKept, Child, IsDir, Tree.Classify, ShortName,
         Passed, NameOf, AllSlots, NoEndBefore, Grew, v.Synced, EndsAt, Entries.Entries;
    ghost var u, before := StateOf(v), v.Tree();
    HealthySound(v);
    GrowTarget(v, t, dir, name);
    ghost var c;
    error, node, c, views := CreateGrowing(v, t, dir, data);
    slot := Slot(Data(c, 0), 0);
    if error == Ok { CreatedByGrowing(v, u, before, dir, c, node, t, name); }
  }

  method RewriteHere(v: FatVolume, t: Target, dir: Dir, name: string, data: seq<byte>)
    returns (error: FsError, ghost node: Node, ghost views: seq<map<Slot, Node>>)
    requires v.Healthy() && v.audited && !v.started && TargetOk(v.g, v.disk, v.Tree(), dir, name, t) && !t.grow
    requires (t.found ==> !t.directory)
    requires Tree.Classify(t.entry) == Used && !DirectoryBit(t.entry) && ShortName(t.entry) == Name(name)
    requires !Passed(t.entry)
    requires Child(v.g, v.Tree(), IdOf(dir), name) == if t.found then Here(t.slot) else Missing
    modifies v`cache, v`disk, v`trace, v`started, v`fat, v`faulted
    ensures v.Coherent() && v.audited && v.depth == old(v.depth) && old(v.trace) <= v.trace
    ensures v.Synced(old(v.disk), old(v.trace))
    ensures Grew(v, old(v.disk), old(v.trace), old(v.Tree()), v.depth, views)
    ensures error == Ok ==> v.Healthy() && EndsAt(views, v.Tree())
    ensures error == Ok ==>
      v.Healthy() && t.slot in v.Tree() && v.Tree()[t.slot] == node && node.FileNode? && node.content == data
    ensures error == Ok ==> NameOf(v.Tree(), t.slot) == Some(Name(name)) && RestKept(old(v.Tree()), v.Tree(), t.slot)
    ensures error == Ok && t.found ==>
      t.slot in old(v.Tree()) && old(v.Tree())[t.slot].FileNode? && SameNames(v.g, old(v.Tree()), v.Tree())
    ensures error == Ok && !t.found ==>
      t.slot !in old(v.Tree()) && GainedName(v.g, old(v.Tree()), v.Tree(), IdOf(dir), name, t.slot)
    ensures error != Ok && !v.faulted ==> v.disk == old(v.disk) && v.fat == old(v.fat)
    ensures Atomic(v, old(v.disk), old(v.trace), old(v.Tree()), t.slot, node)
    ensures error == Ok ==> v.Load() <= old(v.Load()) + 1
  {
    hide Nodes, DiskTable, Audited, SameNames, GainedName, RestKept, Child, AtomicRun, CrashState, Shows, Tree.Classify,
         ShortName, Passed, NameOf, PlaceOk, Listing, AllSlots, NoEndBefore, NotNamed, FreeSlot, EntryAt, SlotsOf,
         NewContent, Grew, v.Synced, Entries.Entries;
    ghost var u, before := StateOf(v), v.Tree();
    HealthySound(v);
    Rewritable(v, dir, name, t);
    TargetPlace(v, dir, name, t);
    SlotsAre(v, dir);
    var committed;
    WholeContent(data);
    error, committed, node := v.Rewrite(t, dir, |data|, 0, data, false, PlaceAt(dir, t.cursor));
    views := [before, before[t.slot := node]];
    HereGrew(v, old(v.disk), old(v.trace), before, v.depth, views[1]);
    if error == Ok {
      if t.found {
        RewroteNames(v, before, node, t, name);
      } else {
        CreatedHere(v, u, before, IdOf(dir), t.cursor - Skip(dir), node, t, name);
      }
    }
  }

  // ----- Write and truncate -----------------------------------------------------------------------

  /** A target that describes an existing file. */
  ghost predicate IsFile(node: Node, id: Slot, t: Target) {
    && node.FileNode? && t.found && !t.grow && !t.end && t.slot == id && t.entry == node.entry
    && t.first == First(t.entry) && t.length == |node.clusters| && t.size == Size(t.entry) && t.size == |node.content|
    && Tree.Classify(t.entry) == Used && !DirectoryBit(t.entry)
  }

  /** A file by identity, with its current entry. */
  method ById(v: FatVolume, id: Slot) returns (error: FsError, t: Target)
    requires v.Healthy() && id in v.Tree()
    modifies v`cache
    ensures v.Healthy() && v.Tree() == old(v.Tree())
    ensures error == Ok ==> IsFile(v.Tree()[id], id, t)
  {
    hide Nodes, DiskTable, Audited, NodeAt, ShortName, Tree.Classify, Content, ChainSectors, Chain;
    t := Target(id, 0, Zeros(32), true, false, false, false, false, 0, 0, 0);
    var desc, e;
    error, desc, e := v.Describe(id);
    if error != Ok { return; }
    v.HealthyBasics();
    v.NodeIs(id);
    if desc.directory { return IsDirectory, t; }
    FileNodeIs(v.g, v.disk, v.fat, id);
    UsedInTree(v, id);
    FileHasNoDirectoryBit(v, id);
    t := Target(id, 0, e, true, false, false, false, false, desc.size, desc.first, desc.length);
  }

  /** What rewriting one file leaves: that file changed, everything else and every name kept. */
  ghost predicate OnlyFile(g: Geometry, before: map<Slot, Node>, after: map<Slot, Node>, id: Slot, content: seq<byte>) {
    && id in before && before[id].FileNode? && id in after && after[id].FileNode? && after[id].content == content
    && after == before[id := after[id]] && SameNames(g, before, after)
  }

  /** The old bytes, extended if needed and overlaid with the patch. */
  ghost predicate Wrote(g: Geometry, before: Option<map<Slot, Node>>, after: map<Slot, Node>, id: Slot, offset: nat,
                        data: seq<byte>) {
    && before.Some? && id in before.value && before.value[id].FileNode?
    && var content := before.value[id].content;
       && offset <= |content|
       && OnlyFile(g, before.value, after, id, NewContent(content, Max(|content|, offset + |data|), offset, data))
  }

  /** The old bytes cut or zero-extended to the new size. */
  ghost predicate Resized(g: Geometry, before: Option<map<Slot, Node>>, after: map<Slot, Node>, id: Slot, size: nat) {
    && before.Some? && id in before.value && before.value[id].FileNode?
    && var content := before.value[id].content;
       if |content| == size then after == before.value
       else OnlyFile(g, before.value, after, id, NewContent(content, size, 0, []))
  }

  ghost predicate ReadsBack(before: Option<map<Slot, Node>>, id: Slot, offset: nat, data: seq<byte>, from: nat,
                            bytes: nat, result: seq<byte>) {
    && before.Some? && id in before.value && before.value[id].FileNode?
    && var content := before.value[id].content;
       result == Slice(NewContent(content, Max(|content|, offset + |data|), offset, data), from, bytes)
  }

  ghost predicate AtomicFrom(v: FatVolume, d0: Disk, trace0: seq<Event>, before: Option<map<Slot, Node>>, slot: Slot,
                             node: Node)
    reads v`trace, v`depth
  {
    before.Some? && Atomic(v, d0, trace0, before.value, slot, node)
  }

  ghost predicate DurableFrom(v: FatVolume, d0: Disk, trace0: seq<Event>, before: Option<map<Slot, Node>>, slot: Slot,
                              node: Node)
    reads v`trace, v`depth
  {
    before.Some? && Durable(v, d0, trace0, before.value, slot, node)
  }

  method RewriteFile(v: FatVolume, t: Target, size: nat, offset: nat, patch: seq<byte>)
    returns (error: FsError, committed: bool, ghost node: Node)
    requires v.Healthy() && v.audited && !v.started && t.slot in v.Tree() && v.Tree()[t.slot].FileNode?
    requires t.found && !t.grow && !t.end && t.entry == v.Tree()[t.slot].entry && Tree.Classify(t.entry) == Used
    requires !DirectoryBit(t.entry)
    requires t.first == First(t.entry) && t.length == |v.Tree()[t.slot].clusters| && t.size == Size(t.entry)
    modifies v`cache, v`disk, v`trace, v`started, v`fat, v`faulted
    ensures v.Coherent() && v.audited && v.depth == old(v.depth) && old(v.trace) <= v.trace
    ensures v.Synced(old(v.disk), old(v.trace))
    ensures Grew(v, old(v.disk), old(v.trace), old(v.Tree()), v.depth, [old(v.Tree()), old(v.Tree())[t.slot := node]])
    ensures error == Ok ==> committed && v.Healthy() && v.Tree() == old(v.Tree())[t.slot := node]
    ensures error == Ok ==>
      OnlyFile(v.g, old(v.Tree()), v.Tree(), t.slot, NewContent(old(v.Tree())[t.slot].content, size, offset, patch))
    ensures error != Ok && committed ==> v.faulted
    ensures error != Ok && !v.faulted ==> v.disk == old(v.disk) && v.fat == old(v.fat)
    ensures Atomic(v, old(v.disk), old(v.trace), old(v.Tree()), t.slot, node)
    ensures committed ==> Durable(v, old(v.disk), old(v.trace), old(v.Tree()), t.slot, node)
    ensures size >= 0x1_0000_0000 || size > v.g.clusters * ClusterBytes(v.g) ==> error == FsError.Range
    ensures error == Ok ==> v.Load() <= old(v.Load())
  {
    hide Nodes, DiskTable, Audited, SameNames, Child, AtomicRun, CrashState, Shows, Tree.Classify, ShortName, Passed,
         NameOf, PlaceOk, Listing, EntryAt, NewContent, Grew, v.Synced, Entries.Entries;
    ghost var before := v.Tree();
    v.HealthyBasics();
    ghost var place := PlaceOf(v.g, v.disk, v.fat, v.depth, t.slot);
    error, committed, node := v.Rewrite(t, RootDir, size, offset, patch, true, place);
    HereGrew(v, old(v.disk), old(v.trace), before, v.depth, before[t.slot := node]);
    if error == Ok { KeptNames(v, before, node, t); }
  }

  lemma KeptNames(v: FatVolume, before: map<Slot, Node>, node: Node, t: Target)
    requires v.Healthy() && v.Tree() == before[t.slot := node] && t.slot in before && before[t.slot].FileNode?
    requires node.FileNode?
    requires before[t.slot].entry == t.entry && node.entry[..11] == t.entry[..11] && Tree.Classify(t.entry) == Used
    ensures SameNames(v.g, before, v.Tree())
  {
    hide Nodes, DiskTable, Audited, Passed, ShortName, Tree.Classify, SameNames;
    UsedInTree(v, t.slot);
    SameVisible(t.entry, node.entry);
    RewriteNames(v.g, before, t.slot, node);
  }

  /** Patch a file at an offset not beyond its end, extending it if needed. The
      transfer is all or nothing, and all of it counts exactly when it was published. */
  method WriteFile(v: FatVolume, id: Slot, offset: nat, data: seq<byte>)
    returns (error: FsError, transferred: nat, ghost node: Node)
    requires v.Consistent() && LiveId(v, Some(id))
    modifies v`cache, v`disk, v`trace, v`started, v`fat, v`faulted, v`audited, v`depth, v`history
    ensures v.Consistent() && old(v.trace) <= v.trace
    ensures Entered(v, old(v.history), old(Outlook(v)), error == Ok)
    ensures error == Ok ==>
      v.Healthy() && v.audited && transferred == |data| && Wrote(v.g, old(Outlook(v)), v.Tree(), id, offset, data)
    ensures transferred in {0, |data|}
    ensures error != Ok && !v.faulted ==> v.disk == old(v.disk) && v.fat == old(v.fat) && transferred == 0
    ensures v.trace != old(v.trace) ==> AtomicFrom(v, old(v.disk), old(v.trace), old(Outlook(v)), id, node)
    ensures transferred > 0 ==> DurableFrom(v, old(v.disk), old(v.trace), old(Outlook(v)), id, node)
    ensures error != Ok && !v.faulted ==> Outlook(v) == old(Outlook(v))
    ensures AuditDepth(v) == old(AuditDepth(v))
    ensures error == Ok ==> LoadOf(v) <= old(LoadOf(v))
  {
    hide Nodes, DiskTable, Exclusive, SameNames, AtomicRun, CrashState, Shows, Tree.Classify, NewContent, Atomic,
         OnlyFile, Durable, Grew, v.Synced, Accounted, v.Logged, Entries.Entries;
    transferred, node := 0, FileNode(Zeros(32), [], []);
    var t;
    error, t := LocateFile(v, id);
    if error != Ok { return; }
    if offset > t.size || |data| >= 0x1_0000_0000 || offset + |data| >= 0x1_0000_0000 { return FsError.Range, 0, node; }
    var size := Max(t.size, offset + |data|);
    var committed;
    Begin(v, v.depth);
    ghost var before := v.Tree();
    error, committed, node := RewriteFile(v, t, size, offset, data);
    Enter(v, old(v.disk), old(v.trace), before, v.depth, [before, before[id := node]]);
    transferred := if committed then |data| else 0;
  }

  /** Cut a file, or extend it with zeros. */
  method TruncateFile(v: FatVolume, id: Slot, size: nat) returns (error: FsError, ghost node: Node)
    requires v.Consistent() && LiveId(v, Some(id))
    modifies v`cache, v`disk, v`trace, v`started, v`fat, v`faulted, v`audited, v`depth, v`history
    ensures v.Consistent() && old(v.trace) <= v.trace
    ensures Entered(v, old(v.history), old(Outlook(v)), error == Ok)
    ensures error == Ok ==> v.Healthy() && v.audited && Resized(v.g, old(Outlook(v)), v.Tree(), id, size)
    ensures error != Ok && !v.faulted ==> v.disk == old(v.disk) && v.fat == old(v.fat)
    ensures v.trace != old(v.trace) ==> AtomicFrom(v, old(v.disk), old(v.trace), old(Outlook(v)), id, node)
    ensures error != Ok && !v.faulted ==> Outlook(v) == old(Outlook(v))
    ensures AuditDepth(v) == old(AuditDepth(v))
    ensures error == Ok ==> LoadOf(v) <= old(LoadOf(v))
  {
    hide Nodes, DiskTable, Exclusive, SameNames, AtomicRun, CrashState, Shows, Tree.Classify, NewContent, Atomic,
         OnlyFile, Durable, Grew, v.Synced, Accounted, v.Logged, Entries.Entries;
    node := FileNode(Zeros(32), [], []);
    var t;
    error, t := LocateFile(v, id);
    if error != Ok { return; }
    if ReadOnlyBit(t.entry) { return Access, node; }
    if size == t.size { return; }
    var committed;
    Begin(v, v.depth);
    ghost var before := v.Tree();
    error, committed, node := RewriteFile(v, t, size, 0, []);
    Enter(v, old(v.disk), old(v.trace), before, v.depth, [before, before[id := node]]);
  }

  /** Reading back after a committed write gives the old bytes overlaid with the patch. */
  method WriteThenRead(v: FatVolume, id: Slot, offset: nat, data: seq<byte>, from: nat, bytes: nat)
    returns (written: FsError, read: FsError, result: seq<byte>)
    requires v.Consistent() && LiveId(v, Some(id))
    modifies v`cache, v`disk, v`trace, v`started, v`fat, v`faulted, v`audited, v`depth, v`history
    ensures v.Consistent()
    ensures written == Ok && read == Ok ==> ReadsBack(old(Outlook(v)), id, offset, data, from, bytes, result)
  {
    hide Nodes, DiskTable, Exclusive, SameNames, NodeAt, NewContent;
    var transferred;
    ghost var node;
    written, transferred, node := WriteFile(v, id, offset, data);
    read, result := v.ReadFile(id, from, bytes);
    if written == Ok { v.NodeIs(id); }
  }

  // ----- Mkdir ------------------------------------------------------------------------------------

  ghost predicate MadeDirectory(g: Geometry, before: Option<map<Slot, Node>>, after: map<Slot, Node>,
                                parent: Option<Slot>, name: string, slot: Slot) {
    && before.Some? && GainedName(g, before.value, after, parent, name, slot) && RestKept(before.value, after, slot)
    && after[slot].DirNode? && NameOf(after, slot) == Some(Name(name))
  }

  /** Make an empty directory under a name not yet taken. */
  method MkdirNode(v: FatVolume, parent: Option<Slot>, name: string)
    returns (error: FsError, ghost slot: Slot, ghost node: Node, ghost grew: bool, ghost views: seq<map<Slot, Node>>)
    requires v.Consistent() && LiveId(v, parent) && Path.Canonical(name)
    modifies v`cache, v`disk, v`trace, v`started, v`fat, v`faulted, v`audited, v`depth, v`history
    ensures v.Consistent() && old(v.trace) <= v.trace
    ensures Entered(v, old(v.history), old(Outlook(v)), error == Ok)
    ensures v.trace != old(v.trace) ==> old(Outlook(v)).Some? && var before := old(Outlook(v)).value;
      if grew then Grew(v, old(v.disk), old(v.trace), before, old(AuditDepth(v)) + 1, views)
      else
        && v.g.Valid()
        && AtomicRun(v.g, old(v.disk), v.trace[|old(v.trace)|..], old(AuditDepth(v)) + 1, before, before[slot := node])
    ensures error == Ok ==>
      v.Healthy() && v.audited && MadeDirectory(v.g, old(Outlook(v)), v.Tree(), parent, name, slot)
    ensures error != Ok && !v.faulted ==> v.disk == old(v.disk) && v.fat == old(v.fat)
    ensures error != Ok && !v.faulted ==> Outlook(v) == old(Outlook(v))
    ensures AuditDepth(v) == if error == Ok then old(AuditDepth(v)) + 1 else old(AuditDepth(v))
    ensures error == Ok ==> LoadOf(v) <= old(LoadOf(v)) + 5
  {
    hide Nodes, DiskTable, Exclusive, TargetOk, MadeDirectory, Path.Canonical, IsDir, Grew, v.Synced, AtomicRun, Shows,
         Accounted, v.Logged, Entries.Entries;
    slot, node, grew, views := Slot(Root(0), 0), FileNode(Zeros(32), [], []), false, [];
    var dir, t;
    error, dir, t := Locate(v, parent, name);
    if error != Ok { return; }
    Begin(v, v.depth + 1);
    ghost var before, depth := v.Tree(), v.depth + 1;
    grew := t.grow;
    error, slot, node, views := MkdirTarget(v, t, dir, name);
    Enter(v, old(v.disk), old(v.trace), before, depth, views);
  }

  method MkdirTarget(v: FatVolume, t: Target, dir: Dir, name: string)
    returns (error: FsError, ghost slot: Slot, ghost node: Node, ghost views: seq<map<Slot, Node>>)
    requires v.Healthy() && v.audited && !v.started && TargetOk(v.g, v.disk, v.Tree(), dir, name, t)
    requires Path.Canonical(name)
    modifies v`cache, v`disk, v`trace, v`started, v`fat, v`faulted, v`depth
    ensures v.Coherent() && v.audited && old(v.trace) <= v.trace && v.Synced(old(v.disk), old(v.trace))
    ensures Grew(v, old(v.disk), old(v.trace), old(v.Tree()), old(v.depth) + 1, views)
    ensures v.trace != old(v.trace) && !t.grow ==>
      AtomicRun(v.g, old(v.disk), v.trace[|old(v.trace)|..], old(v.depth) + 1, old(v.Tree()),
                old(v.Tree())[slot := node])
    ensures error == Ok ==> v.Healthy() && EndsAt(views, v.Tree())
    ensures error == Ok ==> v.Healthy() && MadeDirectory(v.g, Some(old(v.Tree())), v.Tree(), IdOf(dir), name, slot)
    ensures error != Ok && !v.faulted ==> v.disk == old(v.disk) && v.fat == old(v.fat)
    ensures error != Ok && !v.faulted ==> v.Healthy() && v.Tree() == old(v.Tree())
    ensures v.depth == if error == Ok then old(v.depth) + 1 else old(v.depth)
    ensures error == Ok ==> v.Load() <= old(v.Load()) + 5
  {
    hide Nodes, DiskTable, Audited, GainedName, RestKept, Child, Tree.Classify, ShortName, Passed, NameOf, AllSlots,
         NoEndBefore, NotNamed, FreeSlot, EntryAt, SlotsOf, PlaceOk, Listing, AtomicRun, Path.BaseOf, Grew, v.Synced,
         EndsAt, Entries.Entries;
    ghost var u, before := StateOf(v), v.Tree();
    HealthySound(v);
    TargetNamed(v, dir, name, t);
    SlotsAre(v, dir);
    if !t.grow { TargetPlace(v, dir, name, t); } else { GrowTarget(v, t, dir, name); }
    ghost var b: nat :| Path.BaseOf(name, b);
    ghost var c;
    error, slot, node, c, views := Mkdir(v, t, dir, name, b);
    if error == Ok {
      ghost var t' := t.(entry := node.entry);
      UsedInTree(v, slot);
      if t.grow {
        CreatedByGrowing(v, u, before, dir, c, node, t', name);
      } else {
        CreatedHere(v, u, before, IdOf(dir), t.cursor - Skip(dir), node, t', name);
      }
    }
  }

  // ----- Remove -------------------------------------------------------------------------------------

  ghost predicate Removed(g: Geometry, before: Option<map<Slot, Node>>, after: map<Slot, Node>, parent: Option<Slot>,
                          name: string, slot: Slot) {
    before.Some? && LostName(g, before.value, after, parent, name, slot)
  }

  /** Remove a file or an empty directory that nobody retains. */
  method RemoveNode(v: FatVolume, pins: PinTable, parent: Option<Slot>, name: string)
    returns (error: FsError, ghost slot: Slot)
    requires v.Consistent() && LiveId(v, parent) && pins.Valid()
    modifies v`cache, v`disk, v`trace, v`started, v`fat, v`faulted, v`audited, v`depth, v`history
    ensures v.Consistent() && old(v.trace) <= v.trace
    ensures Entered(v, old(v.history), old(Outlook(v)), error == Ok)
    ensures v.trace != old(v.trace) ==> old(Outlook(v)).Some? && var before := old(Outlook(v)).value;
      v.g.Valid() && AtomicRun(v.g, old(v.disk), v.trace[|old(v.trace)|..], v.depth, before, before - {slot})
    ensures error == Ok ==>
      v.Healthy() && v.audited && pins.Count(Some(slot)) == 0 &&
      Removed(v.g, old(Outlook(v)), v.Tree(), parent, name, slot)
    ensures error != Ok && !v.faulted ==> v.disk == old(v.disk) && v.fat == old(v.fat)
    ensures error != Ok && !v.faulted ==> Outlook(v) == old(Outlook(v))
    ensures AuditDepth(v) == old(AuditDepth(v))
    ensures error == Ok ==> LoadOf(v) <= old(LoadOf(v))
  {
    hide Nodes, DiskTable, Exclusive, TargetOk, Removed, IsDir, Grew, v.Synced, AtomicRun, Shows, Accounted, v.Logged,
         Entries.Entries;
    slot := Slot(Root(0), 0);
    var dir, t;
    error, dir, t := Locate(v, parent, name);
    if error != Ok { return; }
    slot := t.slot;
    var held := false;
    if t.found { held := pins.Pinned(Some(t.slot)); }
    Begin(v, v.depth);
    ghost var before := v.Tree();
    error := RemoveTarget(v, t, dir, name, held);
    HereGrew(v, old(v.disk), old(v.trace), before, v.depth, before - {slot});
    Enter(v, old(v.disk), old(v.trace), before, v.depth, [before, before - {slot}]);
  }

  method RemoveTarget(v: FatVolume, t: Target, dir: Dir, name: string, held: bool) returns (error: FsError)
    requires v.Healthy() && v.audited && !v.started && TargetOk(v.g, v.disk, v.Tree(), dir, name, t)
    modifies v`cache, v`disk, v`trace, v`started, v`fat, v`faulted
    ensures v.Coherent() && v.audited && old(v.trace) <= v.trace && v.Synced(old(v.disk), old(v.trace))
    ensures AtomicRun(v.g, old(v.disk), v.trace[|old(v.trace)|..], v.depth, old(v.Tree()), old(v.Tree()) - {t.slot})
    ensures error == Ok ==> v.Healthy() && v.Tree() == old(v.Tree()) - {t.slot}
    ensures error == Ok ==>
      v.Healthy() && t.found && !held && Removed(v.g, Some(old(v.Tree())), v.Tree(), IdOf(dir), name, t.slot)
    ensures error != Ok && !v.faulted ==> v.disk == old(v.disk) && v.fat == old(v.fat)
    ensures error == Ok ==> v.Load() <= old(v.Load())
  {
    hide Nodes, DiskTable, Audited, Child, Tree.Classify, ShortName, Passed, NameOf, AllSlots, NoEndBefore, NotNamed,
         FreeSlot, EntryAt, SlotsOf, PlaceOk, Listing, AtomicRun, NoneUsed, DirSlots, LostName, v.Synced,
         Entries.Entries;
    TargetNamed(v, dir, name, t);
    SlotsAre(v, dir);
    ghost var place := InRoot(0);
    if t.found {
      TargetPlace(v, dir, name, t);
      v.NodeIs(t.slot);
      place := PlaceAt(dir, t.cursor);
      assert CanRemove(v, t, place);
      Removable(v, t, dir, name);
    }
    error := Remove(v, t, dir, held, place);
  }

  /** Removing a leaf loses exactly its own name. */
  lemma Removable(v: FatVolume, t: Target, dir: Dir, name: string)
    requires v.Healthy() && TargetOk(v.g, v.disk, v.Tree(), dir, name, t) && t.found
    ensures t.slot in v.Tree()
    ensures (t.directory ==> NoneUsed(v.disk, AfterDots(DirSlots(v.g, v.Tree()[t.slot].clusters)))) ==>
      LostName(v.g, v.Tree(), v.Tree() - {t.slot}, IdOf(dir), name, t.slot)
  {
    hide Nodes, DiskTable, Audited, Tree.Classify, ShortName, Passed, NameOf, AllSlots, NoEndBefore, NotNamed, FreeSlot,
         EntryAt, PlaceOk, Listing, NoneUsed, DirSlots, RootSlots, ScanIn;
    TargetNamed(v, dir, name, t);
    SlotsAre(v, dir);
    TargetPlace(v, dir, name, t);
    if t.directory ==> NoneUsed(v.disk, AfterDots(DirSlots(v.g, v.Tree()[t.slot].clusters))) {
      forall n
        ensures Child(v.g, v.Tree(), Some(t.slot), n) == Missing
      {
        EmptyDirectory(v, t.slot, n);
      }
      var at: nat := t.cursor - Skip(dir);
      assert at < |SlotsOf(v.g, v.Tree(), IdOf(dir))| && SlotsOf(v.g, v.Tree(), IdOf(dir))[at] == t.slot;
    }
  }

  lemma EmptyDirectory(v: FatVolume, s: Slot, n: string)
    requires v.Healthy() && s in v.Tree()
    requires v.Tree()[s].DirNode? ==> NoneUsed(v.disk, AfterDots(DirSlots(v.g, v.Tree()[s].clusters)))
    ensures Child(v.g, v.Tree(), Some(s), n) == Missing
  {
    hide Nodes, DiskTable, Exclusive, Tree.Classify, NameOf, NoneUsed, DirSlots, RootSlots, ScanIn, SlotsMatch;
    v.HealthyBasics();
    var slots := SlotsOf(v.g, v.Tree(), Some(s));
    ListingMatches(v.g, v.disk, v.fat, v.depth, Some(s));
    if v.Tree()[s].DirNode? {
      NoneUsedNotLive(v.g, v.disk, v.fat, v.Tree(), slots);
    }
    NoneNamed(v.Tree(), slots, n);
  }

  lemma NoneUsedNotLive(g: Geometry, d: Disk, fat: seq<byte>, nodes: map<Slot, Node>, slots: seq<Slot>)
    requires g.perCluster > 0 && IsTable(g, fat) && SlotsMatch(g, d, fat, nodes, slots) && NoneUsed(d, slots)
    ensures forall i :: 0 <= i < |slots| ==> slots[i] !in nodes
  {
    hide NodeAt, Tree.Classify, EntryAt;
    forall i | 0 <= i < |slots|
      ensures slots[i] !in nodes
    {
      if Reached(d, slots, i) { NoneUsedAt(d, slots, i); }
    }
  }

  lemma {:induction false} NoneUsedAt(d: Disk, slots: seq<Slot>, i: nat)
    requires NoneUsed(d, slots) && Reached(d, slots, i)
    ensures Tree.Classify(EntryAt(d, slots[i])) != Used
    decreases i
  {
    hide Tree.Classify, EntryAt;
    if i > 0 {
      ReachedTail(d, slots, i - 1);
      NoneUsedAt(d, slots[1..], i - 1);
    }
  }
}
