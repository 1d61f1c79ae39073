/** The mounted volume: cached table, one-sector cache and the device, with the
    mutations that run on them. */
module Volume {
  import opened Common
  import opened Disk
  import opened Errors
  import opened Fat
  import opened Layout
  import opened Tree
  import opened View
  import opened Commit
  import opened Crash
  import opened History
  import opened FileData
  import opened FatName
  import opened Mutations
  import opened Search
  import Entries
  import Budget

  datatype Cached = Cached(addr: Addr, data: Sector)

  /** `after` extends `before` by a prefix of `plan`, by all of it if nothing failed. */
  ghost predicate Issued(before: seq<Event>, after: seq<Event>, plan: seq<Event>, error: FsError) {
    && before <= after <= before + plan
    && (error == Ok ==> after == before + plan)
  }

  /** Nothing but flushes. */
  ghost predicate Quiet(before: seq<Event>, after: seq<Event>) {
    before <= after && forall i :: |before| <= i < |after| ==> after[i].Flush?
  }

  lemma IssuedThen(t0: seq<Event>, t1: seq<Event>, t2: seq<Event>, first: seq<Event>, second: seq<Event>,
                   error: FsError)
    requires Issued(t0, t1, first, Ok) && Issued(t1, t2, second, error)
    ensures Issued(t0, t2, first + second, error)
  {
    assert t0 + (first + second) == (t0 + first) + second;
  }

  lemma IssuedPart(t0: seq<Event>, t1: seq<Event>, first: seq<Event>, second: seq<Event>, error: FsError)
    requires Issued(t0, t1, first, error) && error != Ok
    ensures Issued(t0, t1, first + second, error)
  {
    assert t0 + (first + second) == (t0 + first) + second;
  }

  /** The copy of a file being staged: where it comes from and where it goes. */
  datatype Staging = Staging(
    d0: Disk, start: seq<Event>,
    oldChain: seq<nat>, oldSize: nat, chain: seq<nat>,
    size: nat, offset: nat, patch: seq<byte>, keep: bool)
  {
    ghost function OldContent(g: Geometry): seq<byte> {
      Content(d0, ChainSectors(g, oldChain), oldSize)
    }

    ghost function Staged(g: Geometry): seq<byte> {
      NewContent(if keep then OldContent(g) else [], size, offset, patch)
    }

    ghost function All(g: Geometry): seq<Event> {
      DataWrites(ChainSectors(g, chain), Staged(g))
    }

    ghost predicate Valid(g: Geometry) {
      && g.perCluster > 0 && |chain| == Needed(g, size)
      && (keep && oldSize > 0 ==> |oldChain| == Needed(g, oldSize))
      && (forall c :: c in oldChain ==> c !in chain)
    }
  }

  /** What `describe` reports of a slot. */
  datatype Description = Description(directory: bool, size: nat, first: nat, length: nat, name: string)

  /** The description matches the slot's node and name. */
  ghost predicate Describes(g: Geometry, d: Disk, fat: seq<byte>, s: Slot, desc: Description)
    requires g.perCluster > 0 && IsTable(g, fat)
  {
    && Classify(EntryAt(d, s)) == Used
    && ShortName(EntryAt(d, s)) == Name(desc.name)
    && NodeAt(g, d, fat, s).Some?
    && var node := NodeAt(g, d, fat, s).value;
       && desc.directory == node.DirNode?
       && desc.length == |node.clusters| && desc.first == First(node.entry) && desc.size == Size(node.entry)
  }

  class FatVolume {
    const g: Geometry
    var disk: Disk
    var fat: seq<byte>
    var cache: Option<Cached>
    var faulted: bool
    /** Mounted for writing on a device that accepts writes. */
    const writable: bool
    /** The audit has passed and is not repeated. */
    var audited: bool
    /** The current mutation has tried to write a sector. */
    var started: bool
    /** Every write issued and flush completed since the volume was mounted. */
    ghost var trace: seq<Event>
    /** Levels below the root the audit covers. */
    ghost var depth: nat
    /** The device when the volume was mounted. */
    ghost const origin: Disk
    /** The mutations since then. */
    ghost var history: seq<Call>

    /** A volume whose two tables agree; nothing has been written or audited yet. */
    constructor (g: Geometry, disk: Disk, fat: seq<byte>, writable: bool)
      requires g.Valid() && DiskTable(g, disk, 0) == fat && DiskTable(g, disk, 1) == fat
      ensures this.g == g && this.disk == disk && this.fat == fat && this.writable == writable
      ensures Consistent() && !faulted && !audited && trace == [] && history == [] && origin == disk
    {
      this.g, this.disk, this.fat, this.writable := g, disk, fat, writable;
      cache, faulted, audited, started := None, false, false, false;
      trace, depth, origin, history := [], 0, disk, [];
    }

    /** What holds at all times: a table image and a coherent sector cache. */
    ghost predicate Mounted()
      reads this
    {
      && g.Valid() && IsTable(g, fat)
      && (cache.Some? ==> cache.value.data == At(disk, cache.value.addr))
    }

    /** The invariant every mutation relies on without checking it again. */
    ghost predicate Healthy()
      reads this
    {
      && Mounted() && !faulted
      && Audited(g, disk, fat, depth)
      && DiskTable(g, disk, 0) == fat && DiskTable(g, disk, 1) == fat
    }

    /** The device agrees with the table. The audit's result is relied on, not re-established. */
    ghost predicate Coherent()
      reads this
    {
      && Mounted()
      && (!faulted ==> DiskTable(g, disk, 0) == fat && DiskTable(g, disk, 1) == fat)
      && (!faulted && audited ==> Audited(g, disk, fat, depth))
    }

    /** The history accounts for every event and every call in it survives a power loss. */
    ghost predicate Logged()
      reads this`history, this`trace, this`faulted, this`disk
    {
      && Recorded(g, origin, history) && trace == Issue(history)
      && (!faulted ==> Settled(trace) && disk == Apply(origin, trace))
    }

    /** What holds between calls. */
    ghost predicate Consistent()
      reads this
    {
      Coherent() && Logged()
    }

    /** Unless the mount is faulted, what was issued since `before` has been applied to
        `d0` and flushed. */
    ghost predicate Synced(d0: Disk, before: seq<Event>)
      reads this`faulted, this`trace, this`disk
    {
      !faulted ==> before <= trace && Settled(trace[|before|..]) && disk == Apply(d0, trace[|before|..])
    }

    lemma QuietIsSynced(d0: Disk, before: seq<Event>)
      requires Quiet(before, trace) && disk == d0
      ensures Synced(d0, before)
    {
      hide Apply;
      FlushesOnly(d0, trace[|before|..]);
    }

    lemma PlanIsSynced(m: Mutation, before: seq<Event>)
      requires WellFormed(m) && Issued(before, trace, Plan(m), Ok) && disk == Stage(m, BATCHES)
      ensures Synced(m.d, before)
    {
      hide WellFormed, Located, Stage, Batch, Apply, Plan, IsBatch;
      Basics(m);
      PlanApplied(m);
      assert trace[|before|..] == Plan(m);
    }

    /** Enter a finished call into the history. */
    ghost method Record(d0: Disk, before: seq<Event>, call: Call)
      requires Recorded(g, origin, history) && before == Issue(history) && Settled(before)
      requires d0 == Apply(origin, before)
      requires before <= trace && call.run == trace[|before|..] && Survives(g, d0, call) && Synced(d0, before)
      modifies this`history
      ensures Logged() && history == old(history) + [call]
    {
      hide Survives, Recorded, Apply, Settled;
      OneMore(g, origin, history, call);
      if !faulted {
        SettledJoin(before, call.run);
        ApplyConcat(origin, before, call.run);
      }
      history := history + [call];
      assert before + call.run == trace;
    }

    /** The files and directories of a healthy volume. */
    ghost function Tree(): map<Slot, Node>
      requires Healthy()
      reads this
    {
      Nodes(g, disk, fat, depth).value
    }

    /** Until a write is tried the device is untouched; once tried, it stays noted. */
    ghost predicate Steady(wasStarted: bool, d0: Disk, before: seq<Event>)
      reads this
    {
      && (wasStarted ==> started)
      && (!started ==> disk == d0 && Quiet(before, trace))
    }

    // ----- Device access ------------------------------------------------------------

    /** Read through the one-sector cache. A read may fail; a cached sector cannot. */
    method ReadSector(a: Addr) returns (error: FsError, data: Sector)
      requires Mounted()
      modifies this`cache
      ensures Mounted()
      ensures error in {Ok, IoError}
      ensures error == Ok ==> data == At(disk, a) && cache == Some(Cached(a, data))
    {
      if cache.Some? && cache.value.addr == a { return Ok, cache.value.data; }
      cache := None;
      var failed: bool := *;
      if failed { return IoError, Zeros(SECTOR); }
      data := At(disk, a);
      cache := Some(Cached(a, data));
      error := Ok;
    }

    /** Write one sector. A failed write may or may not have reached the medium. */
    method WriteSector(a: Addr, data: Sector) returns (error: FsError)
      requires Mounted()
      modifies this`cache, this`disk, this`trace, this`started
      ensures Steady(old(started), old(disk), old(trace))
      ensures Mounted() && cache == None && started
      ensures error in {Ok, IoError}
      ensures trace == old(trace) + [Write(a, data)]
      ensures error == Ok ==> disk == old(disk)[a := data]
      ensures error != Ok ==> disk == old(disk) || disk == old(disk)[a := data]
    {
      cache, started := None, true;
      trace := trace + [Write(a, data)];
      var failed: bool, reached: bool := *, *;
      if !failed || reached { disk := disk[a := data]; }
      error := if failed then IoError else Ok;
    }

    method FlushDevice() returns (error: FsError)
      modifies this`trace
      ensures error in {Ok, IoError}
      ensures trace == if error == Ok then old(trace) + [Flush] else old(trace)
    {
      var failed: bool := *;
      if failed { return IoError; }
      trace := trace + [Flush];
      error := Ok;
    }

    method EntryRead(s: Slot) returns (error: FsError, e: Entry)
      requires Mounted()
      modifies this`cache
      ensures Mounted() && error in {Ok, IoError}
      ensures error == Ok ==> e == EntryAt(disk, s)
    {
      var sector;
      error, sector := ReadSector(s.sector);
      e := sector[ENTRY * s.index..ENTRY * s.index + ENTRY];
    }

    /** Decode one entry and validate its whole chain before exposing it. */
    method Decode(s: Slot, e: Entry) returns (error: FsError, desc: Description)
      requires Mounted() && e == EntryAt(disk, s)
      ensures error == Ok ==> Describes(g, disk, fat, s, desc)
      ensures error == FsError.End <==> e[0] == 0
      ensures error in {Ok, FsError.End, NotFound, IoError, Unsupported}
      ensures error == NotFound ==> Passed(e) || ShortName(e).Hidden?
      ensures error == Ok ==> !Passed(e)
      // Nothing well formed is refused.
      ensures NodeAt(g, disk, fat, s).Some? && Classify(e) == Used && !Passed(e) && ShortName(e).Name? ==> error == Ok
      ensures e[0] != 0 && (Passed(e) || ShortName(e).Hidden?) ==> error == NotFound
      ensures e[0] != 0 && !Passed(e) && ShortName(e).Broken? ==> error == IoError
    {
      hide ShortName, Chain, Content, ChainSectors, EntryAt, Needed, At, U16, U32, Walk;
      desc := Description(false, 0, 0, 0, "");
      if e[0] == 0 { return FsError.End, desc; }
      if Passed(e) { return NotFound, desc; }
      var name := ShortName(e);
      if name.Broken? { return IoError, desc; }
      if name.Hidden? { return NotFound, desc; }
      if Bit(Attributes(e), 0x40) || Bit(Attributes(e), 0x80) || U16(e, 20) != 0 { return IoError, desc; }
      NamedIsUsed(e);
      desc := Description(DirectoryBit(e), Size(e), First(e), 0, name.text);
      if desc.directory {
        if desc.size != 0 { return IoError, desc; }
        var length := FollowChain(g, fat, desc.first);
        if length.Failure? { return IoError, desc; }
        ChainSectorsLength(g, Chain(g, fat, desc.first).value);
        if length.value * g.perCluster * ENTRIES_PER_SECTOR > DIRECTORY_ENTRY_LIMIT { return Unsupported, desc; }
        return Ok, desc.(length := length.value);
      }
      if desc.size == 0 { return if desc.first != 0 then IoError else Ok, desc; }
      var required := Needed(g, desc.size);
      if required > g.clusters {
        NoSuchChain(g, fat, desc.first, required);
        return IoError, desc;
      }
      var length := FollowChain(g, fat, desc.first);
      if length.Failure? { return IoError, desc; }
      if length.value != required { return IoError, desc; }
      return Ok, desc.(length := required);
    }

    method Describe(s: Slot) returns (error: FsError, desc: Description, e: Entry)
      requires Mounted()
      modifies this`cache
      ensures Mounted()
      ensures error == Ok ==> e == EntryAt(disk, s) && Describes(g, disk, fat, s, desc) && !faulted
    {
      e := Zeros(32);
      desc := Description(false, 0, 0, 0, "");
      if faulted { return IoError, desc, e; }
      error, e := EntryRead(s);
      if error != Ok { return; }
      error, desc := Decode(s, e);
      if error == FsError.End { error := NotFound; }
    }

    /** Follow the cached table to the cluster at `index`. */
    method ClusterAt(first: nat, index: nat, ghost ch: seq<nat>) returns (cluster: nat)
      requires Mounted() && Chain(g, fat, first) == Some(ch) && index < |ch|
      ensures cluster == ch[index]
    {
      ChainExactly(g, fat, first, ch);
      cluster := first;
      for i := 0 to index
        invariant cluster == ch[i]
      {
        assert Next(g, fat, ch[i]) == ch[i + 1];
        cluster := Next(g, fat, cluster);
      }
    }

    /** The bytes of one file in [offset, offset + bytes), cut at its size. After a
        failed read the bytes already copied are a prefix of the answer. */
    method ReadFile(s: Slot, offset: nat, bytes: nat) returns (error: FsError, data: seq<byte>)
      requires Mounted()
      modifies this`cache
      ensures Mounted()
      ensures error == Ok ==> NodeAt(g, disk, fat, s).Some? && NodeAt(g, disk, fat, s).value.FileNode?
      ensures error == Ok ==> data == Slice(NodeAt(g, disk, fat, s).value.content, offset, bytes)
      ensures data != [] ==>
        && NodeAt(g, disk, fat, s).Some? && NodeAt(g, disk, fat, s).value.FileNode?
        && data <= Slice(NodeAt(g, disk, fat, s).value.content, offset, bytes)
    {
      hide Content, ChainSectors, NodeAt, Needed, Chain, ShortName, Classify;
      data := [];
      var desc, e;
      error, desc, e := Describe(s);
      if error != Ok { return; }
      if desc.directory { return IsDirectory, []; }
      ghost var node := NodeAt(g, disk, fat, s).value;
      FileNodeIs(g, disk, fat, s);
      if offset >= desc.size { return; }
      var wanted := Min(bytes, desc.size - offset);
      error, data := ReadChain(desc.first, desc.size, offset, wanted, node.clusters);
      assert node.content[offset..offset + wanted][..|data|] == data;
    }

    /** Walk the chain from the cluster of `offset`, a sector at a time. */
    method ReadChain(first: nat, size: nat, offset: nat, wanted: nat, ghost ch: seq<nat>)
      returns (error: FsError, data: seq<byte>)
      requires Mounted() && offset < size && offset + wanted <= size
      requires |ch| == Needed(g, size) && Chain(g, fat, first) == Some(ch)
      modifies this`cache
      ensures Mounted() && error in {Ok, IoError}
      ensures |data| <= wanted && data == Content(disk, ChainSectors(g, ch), size)[offset..offset + |data|]
      ensures error == Ok ==> |data| == wanted
    {
      hide Content, ChainSectors, Needed, Chain, ClusterBytes, InCluster;
      data := [];
      var cb := ClusterBytes(g);
      StartIndex(g, offset, size, ch);
      ghost var index: nat := offset / cb;
      ghost var content := Content(disk, ChainSectors(g, ch), size);
      var cluster := ClusterAt(first, offset / cb, ch);
      var pos: nat := offset;
      while |data| < wanted
        invariant Mounted() && pos == offset + |data| && |data| <= wanted
        invariant |data| < wanted ==> index < |ch| && cluster == ch[index] && InCluster(g, pos, index)
        invariant data == content[offset..pos]
        decreases wanted - |data|
      {
        var part;
        error, part := ReadPart(cluster, pos, wanted - |data|, size, ch, index);
        if error != Ok { return; }
        data := data + part;
        pos := pos + |part|;
        if |data| < wanted {
          ChainStep(g, fat, first, ch, index);
          index := NextIndex(g, pos, size, ch, index);
          if pos % cb == 0 { cluster := Next(g, fat, cluster); }
        }
      }
      error := Ok;
    }

    /** The rest of the current sector, or as much of it as is wanted. */
    method ReadPart(cluster: nat, pos: nat, wanted: nat, ghost size: nat, ghost ch: seq<nat>, ghost index: nat)
      returns (error: FsError, part: seq<byte>)
      requires Mounted() && index < |ch| && cluster == ch[index] && 0 < wanted && pos + wanted <= size
      requires InCluster(g, pos, index)
      modifies this`cache
      ensures Mounted() && error in {Ok, IoError}
      ensures error == Ok ==> 0 < |part| <= wanted && InCluster(g, pos + |part| - 1, index)
      ensures error == Ok ==> part == Content(disk, ChainSectors(g, ch), size)[pos..pos + |part|]
    {
      hide Content, ChainSectors;
      var cb := ClusterBytes(g);
      var within := pos % cb;
      QuotientIs(pos, cb, index, pos - index * cb);
      BytesOfClusters(g, index);
      var sector;
      error, sector := ReadSector(Data(cluster, within / SECTOR));
      part := [];
      if error != Ok { return; }
      var amount := Min(SECTOR - within % SECTOR, wanted);
      SectorBytes(g, disk, ch, size, index, within / SECTOR, within % SECTOR, amount);
      part := sector[within % SECTOR..within % SECTOR + amount];
    }

    /** The slot at a cursor of a directory, found by walking its chain. */
    method SlotAt(dir: Dir, cursor: nat) returns (s: Slot)
      requires Healthy() && IsDir(Tree(), dir) && cursor < SlotCount(g, dir)
      ensures cursor < |AllSlots(g, Tree(), dir)| && s == AllSlots(g, Tree(), dir)[cursor]
    {
      hide Nodes, DirSlots, RootSlots, Audited, DiskTable, SlotCount;
      HealthyBasics();
      SlotCountIs(g, Tree(), dir);
      match dir
      case RootDir =>
        RootSlotAt(g, cursor);
        s := Slot(Root(cursor / ENTRIES_PER_SECTOR), cursor % ENTRIES_PER_SECTOR);
      case SubDir(slot, first, length) =>
        DirChain(slot);
        s := SubSlotAt(dir, cursor, Tree()[slot].clusters);
    }

    method SubSlotAt(dir: Dir, cursor: nat, ghost ch: seq<nat>) returns (s: Slot)
      requires Mounted() && dir.SubDir? && cursor < SlotCount(g, dir)
      requires Chain(g, fat, dir.first) == Some(ch) && dir.length == |ch|
      ensures cursor < |DirSlots(g, ch)| && s == DirSlots(g, ch)[cursor]
    {
      hide DirSlots, Chain, SlotCount, At, U16, IsTable, ClusterOf, SlotIn;
      CursorSlot(g, dir, ch, cursor);
      var cluster := ClusterAt(dir.first, ClusterOf(g, cursor), ch);
      s := SlotIn(g, cluster, cursor);
    }

    lemma HealthyBasics()
      requires Healthy()
      ensures Mounted() && g.Valid() && IsTable(g, fat) && Audited(g, disk, fat, depth)
    {
    }

    lemma DirChain(n: Slot)
      requires Healthy() && n in Tree() && Tree()[n].DirNode?
      ensures IsTable(g, fat) && Chain(g, fat, First(Tree()[n].entry)) == Some(Tree()[n].clusters)
    {
      hide Live, NodeAt, Exclusive, DiskTable;
      NodesKeys(g, disk, fat, depth);
      NodeChain(g, disk, fat, n);
    }

    /** Look for `name`, remembering the first reusable slot. Stops at the end mark. `failed`
        says that a read failed. */
    method FindTarget(dir: Dir, name: string) returns (error: FsError, t: Target, failed: bool)
      requires Healthy() && IsDir(Tree(), dir)
      modifies this`cache
      ensures Healthy()
      ensures error == Ok ==> !failed && TargetOk(g, disk, Tree(), dir, name, t)
      ensures error != Ok ==> if failed then error == IoError else Refusal(g, disk, Tree(), dir, name, error)
    {
      hide Nodes, DirSlots, RootSlots, Audited, DiskTable, EntryAt, ShortName, Classify, Passed, NoEndBefore, NotNamed,
           Refusal, Scanned, TargetOk, SlotCount, AllSlots, NodeAt;
      failed := false;
      HealthyBasics();
      ghost var nodes := Tree();
      ghost var all := AllSlots(g, nodes, dir);
      SlotCountIs(g, nodes, dir);
      var count := SlotCount(g, dir);
      t := Target(Slot(Root(0), 0), count, Zeros(32), false, false, false, false, false, 0, 0, 0);
      var longName := false;
      ScanStart(disk, all, Skip(dir), name, t);
      for cursor := 0 to count
        invariant Healthy() && Tree() == nodes
        invariant Scanned(disk, all, Skip(dir), name, t, cursor, longName)
      {
        var s := SlotAt(dir, cursor);
        var e;
        error, e := EntryRead(s);
        if error != Ok { return error, t, true; }
        CursorChecked(dir, cursor);
        if e[0] == DELETED || e[0] == 0 {
          if longName {
            OrphanRefuses(g, disk, nodes, dir, name, t, cursor);
            return Unsupported, t, false;
          }
          ghost var before := t;
          if t.cursor == count { t := t.(slot := s, cursor := cursor, end := e[0] == 0); }
          if e[0] == 0 {
            ScanEnd(g, disk, nodes, dir, name, before, cursor);
            return Ok, t, false;
          }
          ScanDeleted(disk, all, Skip(dir), name, before, cursor);
        } else if Attributes(e) == LONG_NAME {
          LongIsPassed(e);
          ScanStep(disk, all, Skip(dir), name, t, cursor, longName, true);
          longName := true;
        } else {
          var found, at;
          error, found, at := Examine(dir, cursor, s, e, longName, name, t);
          if found || error != Ok { return error, at, false; }
          longName := false;
        }
      }
      ScanOver(g, disk, nodes, dir, name, t, longName);
      error := Ok;
      t := t.(grow := t.cursor == count);
      if t.grow && dir.RootDir? { return NoSpace, t, false; }
      if t.grow && count + g.perCluster * ENTRIES_PER_SECTOR > DIRECTORY_ENTRY_LIMIT { return NoSpace, t, false; }
    }

    /** One entry of the search that holds a name: the one looked for, another, or none. */
    method Examine(dir: Dir, cursor: nat, s: Slot, e: Entry, longName: bool, name: string, ghost t: Target)
      returns (error: FsError, found: bool, at: Target)
      requires Healthy() && IsDir(Tree(), dir) && cursor < |AllSlots(g, Tree(), dir)|
      requires s == AllSlots(g, Tree(), dir)[cursor] && e == EntryAt(disk, s)
      requires e[0] != 0 && e[0] != DELETED && Attributes(e) != LONG_NAME
      requires Scanned(disk, AllSlots(g, Tree(), dir), Skip(dir), name, t, cursor, longName)
      ensures found ==> error == Ok && TargetOk(g, disk, Tree(), dir, name, at)
      ensures error != Ok ==> Refusal(g, disk, Tree(), dir, name, error)
      ensures error == Ok && !found ==>
        Scanned(disk, AllSlots(g, Tree(), dir), Skip(dir), name, t, cursor + 1, false)
    {
      hide Nodes, DirSlots, RootSlots, Audited, DiskTable, EntryAt, ShortName, Classify, Passed, NoEndBefore, NotNamed,
           Refusal, Scanned, TargetOk, AllSlots, NodeAt;
      ghost var all := AllSlots(g, Tree(), dir);
      found, at := false, Target(s, cursor, e, false, false, false, false, false, 0, 0, 0);
      HealthyBasics();
      ScanKnows(disk, all, Skip(dir), name, t, cursor, longName);
      EntryDecodes(dir, cursor);
      var desc;
      error, desc := Decode(s, e);
      if error == Ok && desc.name == name {
        at := FoundTarget(dir, cursor, s, e, desc, longName, name);
        return Ok, true, at;
      }
      if error != Ok && error != NotFound {
        UnreadableRefuses(g, disk, Tree(), dir, name, cursor);
        return;
      }
      ScanStep(disk, all, Skip(dir), name, t, cursor, longName, false);
      error := Ok;
    }

    /** An audited entry that a search can see has its chain. */
    lemma EntryDecodes(dir: Dir, cursor: nat)
      requires Healthy() && IsDir(Tree(), dir) && cursor < |AllSlots(g, Tree(), dir)|
      requires NoEndBefore(disk, AllSlots(g, Tree(), dir), cursor)
      ensures var s := AllSlots(g, Tree(), dir)[cursor];
        var e := EntryAt(disk, s);
        e[0] != 0 && !Passed(e) ==> Classify(e) == Used && NodeAt(g, disk, fat, s).Some?
    {
      hide Live, NodeAt, Exclusive, DiskTable, Classify, EntryAt, DirSlots, RootSlots, Passed, DotsRight, Nodes;
      HealthyBasics();
      CursorChecked(dir, cursor);
      var s := AllSlots(g, Tree(), dir)[cursor];
      var e := EntryAt(disk, s);
      if e[0] != 0 && !Passed(e) {
        CursorIsPlace(g, disk, Tree(), dir, cursor);
        PlaceChecked(g, disk, fat, depth, PlaceAt(dir, cursor));
        VisibleIsUsed(e);
      }
    }

    /** The dot entries are neither free nor visible. */
    lemma CursorChecked(dir: Dir, cursor: nat)
      requires Healthy() && IsDir(Tree(), dir) && cursor < |AllSlots(g, Tree(), dir)|
      ensures cursor < Skip(dir) ==>
        var e := EntryAt(disk, AllSlots(g, Tree(), dir)[cursor]);
        e[0] != 0 && e[0] != DELETED && Attributes(e) != LONG_NAME && Passed(e)
    {
      hide Live, NodeAt, Exclusive, DiskTable, Classify, EntryAt, DirSlots, RootSlots, Passed, DotsRight, Nodes;
      HealthyBasics();
      if cursor < Skip(dir) {
        var parent := DotsPresent(g, disk, fat, depth, dir.slot);
        DotsAreNotFree(disk, AllSlots(g, Tree(), dir), First(Tree()[dir.slot].entry), parent, cursor);
      }
    }

    method FoundTarget(dir: Dir, cursor: nat, s: Slot, e: Entry, desc: Description, longName: bool, ghost name: string)
      returns (t: Target)
      requires Healthy() && IsDir(Tree(), dir) && cursor < |AllSlots(g, Tree(), dir)|
      requires s == AllSlots(g, Tree(), dir)[cursor]
      requires NoEndBefore(disk, AllSlots(g, Tree(), dir), cursor) && e == EntryAt(disk, s)
      requires Describes(g, disk, fat, s, desc) && desc.name == name && !Passed(e)
      requires NotNamed(disk, AllSlots(g, Tree(), dir), cursor, name)
      ensures TargetOk(g, disk, Tree(), dir, name, t)
    {
      hide Live, NodeAt, Exclusive, DiskTable, Classify, EntryAt, DirSlots, RootSlots, Passed, DotsRight, Nodes,
           ShortName;
      HealthyBasics();
      CursorChecked(dir, cursor);
      CursorIsPlace(g, disk, Tree(), dir, cursor);
      PlaceChecked(g, disk, fat, depth, PlaceAt(dir, cursor));
      NodeIs(s);
      t := Target(s, cursor, e, true, false, false, longName, desc.directory, desc.size, desc.first, desc.length);
    }

    lemma NodeIs(s: Slot)
      requires Healthy()
      ensures s in Tree() ==> NodeAt(g, disk, fat, s) == Some(Tree()[s]) && Tree()[s].entry == EntryAt(disk, s)
    {
      hide Live, NodeAt, Exclusive, DiskTable, EntryAt, Classify;
      NodesKeys(g, disk, fat, depth);
      if s in Tree() { NodeEntry(g, disk, fat, s); }
    }

    /** Replace one entry and leave its neighbours in the sector alone. */
    method EntryWrite(s: Slot, e: Entry) returns (error: FsError)
      requires Mounted()
      modifies this`cache, this`disk, this`trace, this`started
      ensures Steady(old(started), old(disk), old(trace))
      ensures Mounted() && error in {Ok, IoError}
      ensures Issued(old(trace), trace, [Write(s.sector, SetEntry(At(old(disk), s.sector), s.index, e))], error)
      ensures error == Ok ==> started && disk == old(disk)[s.sector := SetEntry(At(old(disk), s.sector), s.index, e)]
    {
      var sector;
      error, sector := ReadSector(s.sector);
      if error != Ok { return; }
      error := WriteSector(s.sector, SetEntry(sector, s.index, e));
    }

    /** Write the changed sectors of one copy, then flush if there were any. */
    method PersistCopy(fat': seq<byte>, copy: nat) returns (error: FsError)
      requires Mounted() && IsTable(g, fat')
      modifies this`cache, this`disk, this`trace, this`started
      ensures Steady(old(started), old(disk), old(trace))
      ensures Mounted() && error in {Ok, IoError}
      ensures Issued(old(trace), trace, TableBatch(g, fat, fat', copy), error)
      ensures error == Ok ==> disk == Apply(old(disk), TableBatch(g, fat, fat', copy))
    {
      hide ChangedSectors, Apply, TableBatch, Issued, IsTable;
      ghost var done := ChangedSectors(g, fat, fat', copy, g.fatSectors);
      var changed;
      error, changed := WriteChanged(fat', copy);
      if error != Ok { return; }
      BatchShape(g, fat, fat', copy);
      if changed {
        error := FlushDevice();
        ApplyFlushed(old(disk), done);
      }
      FlushedLast(old(trace), trace, done, TableBatch(g, fat, fat', copy), error);
    }

    /** Write every sector in which the copies differ from `fat'`. */
    method WriteChanged(fat': seq<byte>, copy: nat) returns (error: FsError, changed: bool)
      requires Mounted() && IsTable(g, fat')
      modifies this`cache, this`disk, this`trace, this`started
      ensures Steady(old(started), old(disk), old(trace))
      ensures Mounted() && error in {Ok, IoError}
      ensures error != Ok ==> Issued(old(trace), trace, TableBatch(g, fat, fat', copy), error)
      ensures error == Ok ==> var done := ChangedSectors(g, fat, fat', copy, g.fatSectors);
        && trace == old(trace) + done && disk == Apply(old(disk), done)
        && changed == (done != []) && (changed ==> started)
    {
      hide TableSector, ChangedSectors, Apply, TableBatch, Issued, IsTable;
      changed := false;
      ChangedSectorsNone(g, fat, fat', copy);
      ApplyNothing(disk);
      for i := 0 to g.fatSectors
        invariant Mounted() && trace == old(trace) + ChangedSectors(g, fat, fat', copy, i)
        invariant disk == Apply(old(disk), ChangedSectors(g, fat, fat', copy, i))
        invariant changed == (ChangedSectors(g, fat, fat', copy, i) != [])
        invariant (changed ==> started) && (!changed ==> started == old(started))
      {
        var sector := TableSector(g, fat', i);
        ChangedNext(g, fat, fat', copy, i);
        if sector != TableSector(g, fat, i) {
          ChangedWrite(g, fat, fat', copy, i, old(disk), old(trace));
          error := WriteSector(Table(copy, i), sector);
          if error != Ok { return; }
          changed := true;
        }
      }
      error := Ok;
    }

    /** Stage one sector: the old bytes that survive, then the patch. */
    method CopySector(ghost st: Staging, cluster: nat, oldCluster: nat, i: nat, base: nat, oldSize: nat,
                      size: nat, offset: nat, patch: seq<byte>, keep: bool, ghost index: nat, ghost t: nat)
      returns (error: FsError)
      requires Mounted() && st.Valid(g)
      requires oldSize == st.oldSize && size == st.size && offset == st.offset && patch == st.patch && keep == st.keep
      requires index < |st.chain| && cluster == st.chain[index] && i < g.perCluster
      requires index < |st.oldChain| && keep ==> oldCluster == st.oldChain[index]
      requires t == index * g.perCluster + i && base == SECTOR * t && t < |st.All(g)| && Staged(st, t)
      modifies this`cache, this`disk, this`trace, this`started
      ensures Steady(old(started), old(disk), old(trace))
      ensures Mounted() && error in {Ok, IoError}
      ensures Issued(st.start, trace, st.All(g), if error == Ok then IoError else error)
      ensures error == Ok ==> Staged(st, t + 1)
    {
      hide Apply, NewContent, Content, ChainSectors, DataWrites, Needed, Fill, Padded, Kept, Issued, At, st.Valid,
           st.All, st.OldContent;
      var kept;
      error, kept := KeptPart(st, oldCluster, i, base, oldSize, size, keep, index, t);
      StagedSoFar(st.d0, st.start, st.All(g), t);
      if error != Ok { return; }
      var data := Fill(kept, base, size, offset, patch);
      StagedSector(g, st, kept, index, i, t);
      StagedNext(st.d0, st.start, st.All(g), t);
      error := WriteSector(Data(cluster, i), data);
    }

    /** The bytes of the old file that this sector keeps. */
    method KeptPart(ghost st: Staging, oldCluster: nat, i: nat, base: nat, oldSize: nat, size: nat, keep: bool,
                    ghost index: nat, ghost t: nat)
      returns (error: FsError, kept: seq<byte>)
      requires Mounted() && st.Valid(g) && oldSize == st.oldSize && size == st.size && keep == st.keep
      requires index < |st.chain| && i < g.perCluster
      requires (index < |st.oldChain| && keep ==> oldCluster == st.oldChain[index])
      requires t == index * g.perCluster + i && base == SECTOR * t && t < |st.All(g)| && Staged(st, t)
      modifies this`cache
      ensures Mounted() && error in {Ok, IoError}
      ensures error == Ok ==> KeptOf(g, st, t, kept)
    {
      hide Apply, NewContent, Content, ChainSectors, DataWrites, Needed, Fill, Padded;
      error, kept := Ok, [];
      if keep && base < size && base < oldSize {
        OldClusterExists(g, st, index, i);
        var sector;
        error, sector := ReadSector(Data(oldCluster, i));
        if error != Ok { return; }
        OldSectorIntact(g, st, index, i);
        kept := sector[..Kept(keep, base, size, oldSize)];
      }
    }

    /** Stage one cluster of the new chain. */
    method CopyCluster(ghost st: Staging, cluster: nat, oldCluster: nat, base: nat, oldSize: nat,
                       size: nat, offset: nat, patch: seq<byte>, keep: bool, ghost index: nat)
      returns (error: FsError)
      requires Mounted() && st.Valid(g)
      requires oldSize == st.oldSize && size == st.size && offset == st.offset && patch == st.patch && keep == st.keep
      requires index < |st.chain| && cluster == st.chain[index]
      requires index < |st.oldChain| && keep ==> oldCluster == st.oldChain[index]
      requires base == SECTOR * (index * g.perCluster)
      requires Staged(st, index * g.perCluster)
      modifies this`cache, this`disk, this`trace, this`started
      ensures Steady(old(started), old(disk), old(trace))
      ensures Mounted() && error in {Ok, IoError}
      ensures Issued(st.start, trace, st.All(g), if error == Ok then IoError else error)
      ensures error == Ok ==> Staged(st, (index + 1) * g.perCluster)
    {
      hide Apply, NewContent, Content, ChainSectors, DataWrites, Needed, Fill, Padded, Chain, Issued, At, IsTable,
           st.Valid, st.All;
      ghost var row := index * g.perCluster;
      NextRow(index, g.perCluster);
      var at := base;
      for i := 0 to g.perCluster
        invariant Mounted() && at == SECTOR * (row + i) && Staged(st, row + i)
        invariant Steady(old(started), old(disk), old(trace))
      {
        SectorInPlan(g, st, index, i);
        error := CopySector(st, cluster, oldCluster, i, at, oldSize, size, offset, patch, keep, index, row + i);
        if error != Ok { return; }
        at := at + SECTOR;
      }
      StagedSoFar(st.d0, st.start, st.All(g), row + g.perCluster);
      error := Ok;
    }

    /** The first `t` sectors of the plan are on the device. */
    ghost predicate Staged(st: Staging, t: int)
      reads this
    {
      0 <= t <= |st.All(g)| && trace == st.start + st.All(g)[..t] && disk == Apply(st.d0, st.All(g)[..t])
    }

    /** Stage a file: every sector of the new chain, padding included. */
    method CopyContents(ghost st: Staging, oldFirst: nat, fat': seq<byte>, first: nat, oldLength: nat, oldSize: nat,
                        size: nat, offset: nat, patch: seq<byte>, keep: bool)
      returns (error: FsError)
      requires Mounted() && st.Valid(g) && IsTable(g, fat')
      requires oldSize == st.oldSize && size == st.size && offset == st.offset && patch == st.patch && keep == st.keep
      requires trace == st.start && disk == st.d0 && oldLength == |st.oldChain|
      requires st.chain != [] ==> Chain(g, fat', first) == Some(st.chain)
      requires st.oldChain != [] ==> Chain(g, fat, oldFirst) == Some(st.oldChain)
      modifies this`cache, this`disk, this`trace, this`started
      ensures Steady(old(started), old(disk), old(trace))
      ensures Mounted() && error in {Ok, IoError}
      ensures Issued(st.start, trace, st.All(g), error)
      ensures error == Ok ==> disk == Apply(st.d0, st.All(g))
    {
      hide Apply, NewContent, Content, ChainSectors, DataWrites, Needed, Fill, Padded, Chain, Issued, At, st.Valid,
           st.All;
      var cluster: nat, oldCluster: nat := first, if keep then oldFirst else 0;
      var index: nat, base: nat := 0, 0;
      ApplyNothing(st.d0);
      if st.chain != [] { ChainExactly(g, fat', first, st.chain); }
      if st.oldChain != [] { ChainExactly(g, fat, oldFirst, st.oldChain); }
      while base < size
        invariant Mounted() && base == SECTOR * (index * g.perCluster) && Steady(old(started), old(disk), old(trace))
        invariant index <= |st.chain| && (index < |st.chain| ==> cluster == st.chain[index])
        invariant index < |st.oldChain| && keep ==> oldCluster == st.oldChain[index]
        invariant Staged(st, index * g.perCluster)
        decreases |st.chain| - index
      {
        BaseInChain(g, st, index, size);
        error := CopyCluster(st, cluster, oldCluster, base, oldSize, size, offset, patch, keep, index);
        if error != Ok { return; }
        base := base + SECTOR * g.perCluster;
        NextRow(index, g.perCluster);
        cluster := Next(g, fat', cluster);
        if keep && index + 1 < oldLength { oldCluster := Next(g, fat, oldCluster); }
        index := index + 1;
      }
      BaseDone(g, st, index, size);
      assert st.All(g)[..index * g.perCluster] == st.All(g);
      AllIssued(st.start, st.All(g));
      error := Ok;
    }

    /** Update both copies, each behind its own flush, then the cached table. */
    method PersistTable(fat': seq<byte>) returns (error: FsError)
      requires Mounted() && IsTable(g, fat')
      modifies this`cache, this`disk, this`trace, this`started, this`fat
      ensures Steady(old(started), old(disk), old(trace))
      ensures Mounted() && error in {Ok, IoError}
      ensures fat == if error == Ok then fat' else old(fat)
      ensures Issued(old(trace), trace, TableBatch(g, old(fat), fat', 0) + TableBatch(g, old(fat), fat', 1), error)
      ensures error == Ok ==>
        disk == Apply(Apply(old(disk), TableBatch(g, old(fat), fat', 0)), TableBatch(g, old(fat), fat', 1))
    {
      hide TableBatch, Apply;
      ghost var first, second := TableBatch(g, fat, fat', 0), TableBatch(g, fat, fat', 1);
      error := PersistCopy(fat', 0);
      if error != Ok {
        IssuedPart(old(trace), trace, first, second, error);
        return;
      }
      ghost var middle := trace;
      error := PersistCopy(fat', 1);
      IssuedThen(old(trace), middle, trace, first, second, error);
      if error != Ok { return; }
      fat := fat';
    }

    // ----- Mutations ------------------------------------------------------------------

    /** Between the tables and the entry the volume is healthy with its old tree. */
    lemma ReadyToPublish(m: Mutation)
      requires WellFormed(m) && Mounted() && !faulted && g == m.g && depth == m.depth
      requires disk == Stage(m, 3) && fat == m.fat1
      ensures Healthy() && Tree() == Before(m)
    {
      hide WellFormed, Stage, Nodes, DiskTable, Audited, Early;
      Basics(m);
      Stage3(m);
      Stage3Audited(m);
    }

    /** Keep the next slot an end mark, then write the entry; a flush after each. */
    method Publish(t: Target, dir: Dir, e: Entry, ghost m: Mutation) returns (error: FsError)
      requires WellFormed(m) && Mounted() && !faulted && g == m.g && depth == m.depth
      requires disk == Stage(m, 3) && fat == m.fat1
      requires t.slot == Crash.Target(m) && e == m.entry
      requires t.end <==> Classify(EntryAt(m.d, t.slot)) == EndMark
      requires t.end ==> IsDir(Before(m), dir) && Skip(dir) <= t.cursor && m.place == PlaceAt(dir, t.cursor)
      modifies this`cache, this`disk, this`trace, this`started
      ensures Steady(old(started), old(disk), old(trace))
      ensures Mounted() && error in {Ok, IoError}
      ensures Issued(old(trace), trace, Batch(m, 3) + Batch(m, 4), error)
      ensures error == Ok ==> disk == Stage(m, 5) && started
    {
      hide WellFormed, Stage, Batch, Nodes, DiskTable, Audited, Classify, EntryAt, SetEntry, DirSlots, RootSlots, Apply,
           Exclusive, Located;
      Basics(m);
      ReadyToPublish(m);
      ClearBatch(m);
      StageStep(m, 3);
      StageStep(m, 4);
      ghost var first, second := Batch(m, 3), Batch(m, 4);
      ApplyNothing(disk);
      if t.end {
        NextCursor(m, dir, t.cursor);
        if t.cursor + 1 < SlotCount(g, dir) {
          error := ClearNext(dir, t.cursor + 1, m);
          if error != Ok {
            IssuedPart(old(trace), trace, first, second, error);
            return;
          }
        }
      }
      NotClearing(m, dir, t);
      assert disk == Stage(m, 4) && Issued(old(trace), trace, first, Ok);
      ghost var middle := trace;
      error := WriteEntryFlushed(t.slot, e);
      IssuedThen(old(trace), middle, trace, first, second, error);
    }

    /** One entry behind its own flush. */
    method WriteEntryFlushed(s: Slot, e: Entry) returns (error: FsError)
      requires Mounted()
      modifies this`cache, this`disk, this`trace, this`started
      ensures Steady(old(started), old(disk), old(trace))
      ensures Mounted() && error in {Ok, IoError}
      ensures Issued(old(trace), trace, EntryBatch(old(disk), s, e), error)
      ensures error == Ok ==> started && disk == Apply(old(disk), EntryBatch(old(disk), s, e))
    {
      hide SetEntry, Apply;
      ghost var w := Write(s.sector, SetEntry(At(disk, s.sector), s.index, e));
      assert [w, Flush] == [w] + [Flush];
      error := EntryWrite(s, e);
      if error != Ok { return; }
      error := FlushDevice();
      ApplyFlushed(old(disk), [w]);
      ApplyWrite(old(disk), [w]);
      ApplyNothing(old(disk));
    }

    /** Erase stale bytes behind the consumed end mark, if there are any. */
    method ClearNext(dir: Dir, cursor: nat, ghost m: Mutation) returns (error: FsError)
      requires WellFormed(m) && Healthy() && Tree() == Before(m) && g == m.g && disk == Stage(m, 3)
      requires IsDir(Tree(), dir) && Skip(dir) < cursor < SlotCount(g, dir)
      requires m.place == PlaceAt(dir, cursor - 1)
      requires Classify(EntryAt(m.d, Crash.Target(m))) == EndMark
      modifies this`cache, this`disk, this`trace, this`started
      ensures Steady(old(started), old(disk), old(trace))
      ensures Mounted() && error in {Ok, IoError}
      ensures Issued(old(trace), trace, Batch(m, 3), error)
      ensures error == Ok ==> disk == Stage(m, 4)
    {
      hide WellFormed, Stage, Batch, Nodes, DiskTable, Audited, Classify, EntryAt, SetEntry, DirSlots, RootSlots, Apply,
           Exclusive;
      Basics(m);
      HealthyBasics();
      ClearBatch(m);
      StageStep(m, 3);
      ApplyNothing(disk);
      SlotCountIs(g, Tree(), dir);
      var s := SlotAt(dir, cursor);
      NextInList(m, dir, cursor);
      var e;
      error, e := EntryRead(s);
      if error != Ok { return; }
      Stage3(m);
      EarlyEntry(m, Stage(m, 3), m.place.index + 1);
      EndIsZero(e);
      if e[0] != 0 {
        error := WriteEntryFlushed(s, Zeros(32));
      }
    }

    /** What a rewrite may start from: a file, or a free slot with a fresh entry. */
    ghost predicate CanRewrite(t: Target, dir: Dir, place: Place)
      reads this
    {
      && Healthy() && PlaceOk(g, disk, Tree(), place) && Listing(g, Tree(), place)[place.index] == t.slot
      && Classify(t.entry) == Used && !DirectoryBit(t.entry) && !t.grow
      && (t.found ==>
            && t.slot in Tree() && Tree()[t.slot].FileNode? && t.entry == Tree()[t.slot].entry && !t.end
            && t.first == First(t.entry) && t.length == |Tree()[t.slot].clusters| && t.size == Size(t.entry))
      && (!t.found ==> FreeSlot(disk, t.slot, t.end) && t.length == 0 && t.size == 0)
      && (t.end ==> IsDir(Tree(), dir) && Skip(dir) <= t.cursor && place == PlaceAt(dir, t.cursor))
    }

    /** An error after a write was tried faults the mount; before that it is harmless. */
    method Finish(error: FsError)
      requires Mounted()
      modifies this`faulted, this`cache
      ensures Mounted() && faulted == (old(faulted) || (error != Ok && started))
    {
      if error != Ok && started {
        faulted := true;
        cache := None;
      }
    }

    /** The mutation a rewrite performs, once its clusters are allocated. */
    ghost function RewriteOf(t: Target, place: Place, size: nat, offset: nat, patch: seq<byte>, keep: bool,
                             fat1: seq<byte>, ch: seq<nat>): Mutation
      requires Healthy() && size < 0x1_0000_0000 && IsTable(g, fat1)
      requires forall c :: c in OldChain(t) ==> ValidCluster(g, c)
      requires forall c :: c in ch ==> ValidCluster(g, c)
      reads this
    {
      assert ch != [] ==> ValidCluster(g, ch[0]) by { assert ch != [] ==> ch[0] in ch; }
      Mutation(g, disk, fat, depth, place,
               DataWrites(ChainSectors(g, ch), NewContent(if keep then OldBytes(t) else [], size, offset, patch))
                 + [Flush],
               fat1, Rewritten(t.entry, if ch == [] then 0 else ch[0], size), Release(g, fat1, OldChain(t)))
    }

    ghost function OldChain(t: Target): seq<nat>
      requires Healthy()
      reads this
    {
      if t.found && t.slot in Tree() then Tree()[t.slot].clusters else []
    }

    ghost function OldBytes(t: Target): seq<byte>
      requires Healthy()
      reads this
    {
      if t.found && t.slot in Tree() && Tree()[t.slot].FileNode? then Tree()[t.slot].content else []
    }

    lemma OldChainValid(t: Target)
      requires Healthy()
      ensures forall c :: c in OldChain(t) ==> ValidCluster(g, c) && !IsFree(g, fat, c)
      ensures OldChain(t) != [] ==> Chain(g, fat, First(Tree()[t.slot].entry)) == Some(OldChain(t))
    {
      hide Live, NodeAt, Exclusive, DiskTable, EntryAt, Classify, Chain;
      NodesKeys(g, disk, fat, depth);
      if t.found && t.slot in Tree() { NodeChain(g, disk, fat, t.slot); }
    }

    lemma RewriteIsOne(t: Target, dir: Dir, place: Place, size: nat, offset: nat, patch: seq<byte>, keep: bool,
                       fat1: seq<byte>, ch: seq<nat>)
      requires CanRewrite(t, dir, place) && size < 0x1_0000_0000
      requires Allocated(g, fat, ch, fat1) && |ch| == Needed(g, size)
      ensures (forall c :: c in OldChain(t) ==> ValidCluster(g, c)) && (forall c :: c in ch ==> ValidCluster(g, c))
      ensures var m := RewriteOf(t, place, size, offset, patch, keep, fat1, ch);
        var content := NewContent(if keep then OldBytes(t) else [], size, offset, patch);
        && FileRewrite(m, ch, content) && WellFormed(m) && Crash.Target(m) == t.slot && Before(m) == Tree()
        && After(m) == Tree()[t.slot := FileNode(m.entry, ch, content)]
        && DepthAfter(m) == depth
    {
      hide Nodes, DiskTable, Audited, Classify, EntryAt, DirSlots, RootSlots, Exclusive, ChainSectors, DataWrites,
           NewContent, Rewritten, Release, Allocated, Needed, Reached;
      HealthyBasics();
      OldChainValid(t);
      AllocatedMembers(g, fat, ch, fat1);
      AllocatedTable(g, fat, ch, fat1);
      var m := RewriteOf(t, place, size, offset, patch, keep, fat1, ch);
      var content := NewContent(if keep then OldBytes(t) else [], size, offset, patch);
      RewrittenUsed(t.entry, if ch == [] then 0 else ch[0], size);
      ReleaseFrees(g, fat1, OldChain(t));
      TargetLive(m);
      FreeSlotKind(disk, t.slot, t.end);
      assert OldClusters(m) == OldChain(t);
      RewriteCommits(m, ch, content);
    }

    /** Copy-on-write: stage the whole new file in free clusters, install the
        tables, publish the entry, then release the old chain. */
    method Rewrite(t: Target, dir: Dir, size: nat, offset: nat, patch: seq<byte>, keep: bool, ghost place: Place)
      returns (error: FsError, committed: bool, ghost node: Node)
      requires CanRewrite(t, dir, place) && (keep ==> t.found) && !started
      modifies this`cache, this`disk, this`trace, this`started, this`fat, this`faulted
      ensures Mounted() && old(trace) <= trace && depth == old(depth)
      ensures error == Ok ==> Healthy() && Tree() == old(Tree())[t.slot := node]
      ensures error == Ok ==>
        node.FileNode? && node.content == NewContent(if keep then old(OldBytes(t)) else [], size, offset, patch)
      ensures error == Ok ==> node.entry[..11] == t.entry[..11] && Size(node.entry) == size
      ensures error == Ok ==> Load() <= old(Load()) + if t.found then 0 else 1
      // Either the mount is faulted or nothing happened.
      ensures error != Ok && !faulted ==> Healthy() && disk == old(disk) && Tree() == old(Tree())
      ensures Synced(old(disk), old(trace))
      // A power loss at any point finds the old file or the new one.
      ensures AtomicRun(g, old(disk), trace[|old(trace)|..], depth, old(Tree()), old(Tree())[t.slot := node])
      // After publication only the new one.
      ensures committed ==> forall d :: CrashState(old(disk), trace[|old(trace)|..], d) ==>
        Shows(g, d, depth, old(Tree())[t.slot := node])
      ensures error == Ok ==> committed
      ensures error != Ok && committed ==> faulted
      ensures size >= 0x1_0000_0000 || size > g.clusters * ClusterBytes(g) ==> error == FsError.Range
      ensures !old(faulted) && error in {NoSpace, NoMemory, Access, FsError.Range} ==> !faulted
    {
      hide Nodes, DiskTable, Audited, Classify, EntryAt, DirSlots, RootSlots, Exclusive, ChainSectors, DataWrites,
           NewContent, Rewritten, Release, Allocated, Needed, Reached, Located, Stage, Batch, Apply, AtomicRun,
           WellFormed, CrashState, Plan, Synced, Shows, Entries.Entries;
      HealthyBasics();
      committed, node := false, FileNode(t.entry, [], []);
      NothingDone(Tree()[t.slot := node]);
      QuietIsSynced(disk, trace);
      assert trace[|trace|..] == [];
      if size >= 0x1_0000_0000 || size > g.clusters * ClusterBytes(g) { return FsError.Range, false, node; }
      if t.found && ReadOnlyBit(t.entry) { return Access, false, node; }
      var needed := Needed(g, size);
      var noMemory: bool := *;
      if noMemory { return NoMemory, false, node; }
      var fat1, first;
      ghost var ch;
      error, fat1, first, ch := Allocate(g, fat, needed);
      if error != Ok { return; }
      RewriteIsOne(t, dir, place, size, offset, patch, keep, fat1, ch);
      ghost var m := RewriteOf(t, place, size, offset, patch, keep, fat1, ch);
      node := After(m)[t.slot];
      error, committed := Perform(t, dir, size, offset, patch, keep, place, fat1, first, ch, m);
      RunOf(m, old(trace), trace, error, committed);
      MutationSynced(m, old(trace), error);
      if error == Ok {
        Performed(m);
        RewriteLoad(m, t);
      }
    }

    /** Rewriting a file adds no entry; creating one may move an end mark. */
    lemma RewriteLoad(m: Mutation, t: Target)
      requires WellFormed(m) && Healthy() && Tree() == After(m) && g == m.g && disk == Stage(m, BATCHES)
      requires Crash.Target(m) == t.slot && t.slot in After(m) && After(m)[t.slot].FileNode?
      requires t.found ==> t.slot in Before(m)
      ensures Load() <= Entries.Entries(m.g, m.d, Before(m)) + if t.found then 0 else 1
    {
      hide WellFormed, Stage, Batch, Nodes, DiskTable, After, Entries.Entries, Classify, EntryAt, Listing;
      LoadAfter(m);
      if t.found { UsedTarget(m); }
    }

    lemma UsedTarget(m: Mutation)
      requires WellFormed(m) && Crash.Target(m) in Before(m)
      ensures Classify(EntryAt(m.d, Crash.Target(m))) == Used
    {
      hide WellFormed, Nodes, Classify, EntryAt, Exclusive;
      Basics(m);
      NodesKeys(m.g, m.d, m.fat, m.depth);
    }

    /** A mutation ends applied and flushed, or without having written anything. */
    lemma MutationSynced(m: Mutation, before: seq<Event>, error: FsError)
      requires WellFormed(m) && Issued(before, trace, Plan(m), error)
      requires error == Ok ==> disk == Stage(m, BATCHES)
      requires error != Ok && !faulted ==> disk == m.d && Quiet(before, trace)
      ensures Synced(m.d, before)
    {
      hide WellFormed, Located, Stage, Batch, Apply, Plan, Quiet, Issued, Batches;
      Basics(m);
      if error == Ok {
        PlanIsSynced(m, before);
      } else if !faulted {
        QuietIsSynced(m.d, before);
      }
    }

    lemma NothingDone(after: map<Slot, Node>)
      requires Healthy()
      ensures AtomicRun(g, disk, [], depth, Tree(), after)
    {
      hide Nodes, DiskTable, Exclusive;
      NothingIssued(g, disk, fat, depth, depth, [], after);
    }

    /** A completed mutation leaves the volume healthy with the new tree. */
    /** The entries an audit of this volume has to examine. */
    ghost function Load(): nat
      requires Healthy()
      reads this
    {
      Entries.Entries(g, disk, Tree())
    }

    /** What a completed mutation did to that number. */
    lemma LoadAfter(m: Mutation)
      requires WellFormed(m) && Healthy() && Tree() == After(m) && g == m.g && disk == Stage(m, BATCHES)
      ensures Load() + Budget.Burden(m.g, m.d, Before(m), Crash.Target(m)) ==
        Entries.Entries(m.g, m.d, Before(m)) + Budget.Moved(m) + Budget.Burden(m.g, disk, After(m), Crash.Target(m))
    {
      hide WellFormed, Stage, Batch, Located, Nodes, DiskTable, After, Before, Entries.Entries, Budget.Burden,
           Budget.Moved;
      Budget.EntriesAfter(m);
    }

    lemma Performed(m: Mutation)
      requires WellFormed(m) && Mounted() && !faulted && g == m.g && depth == DepthAfter(m)
      requires disk == Stage(m, BATCHES) && fat == m.fat2
      ensures Healthy() && Tree() == After(m)
    {
      hide WellFormed, Stage, Batch, Batches, Located, Nodes, DiskTable, After, Before, Joined, Apply;
      Basics(m);
      BatchesAre(m, BATCHES);
      CompletedAudited(m);
    }

    lemma OldTarget(t: Target)
      requires Healthy()
      requires t.found ==>
        t.slot in Tree() && t.first == First(Tree()[t.slot].entry) && t.length == |Tree()[t.slot].clusters|
      requires !t.found ==> t.length == 0
      ensures t.length == |OldChain(t)|
      ensures OldChain(t) != [] ==> Chain(g, fat, t.first) == Some(OldChain(t))
    {
      hide Nodes, DiskTable, Audited, Chain;
      OldChainValid(t);
    }

    lemma RewriteEnd(t: Target, dir: Dir, place: Place)
      requires CanRewrite(t, dir, place)
      ensures t.end <==> Classify(EntryAt(disk, t.slot)) == EndMark
    {
      hide Nodes, DiskTable, Classify, EntryAt, DirSlots, RootSlots, Exclusive, NodeAt, DotsRight;
      FreeSlotKind(disk, t.slot, t.end);
      PlaceChecked(g, disk, fat, depth, place);
    }

    /** The first phases: data, flush, both tables. */
    method StageData(t: Target, size: nat, offset: nat, patch: seq<byte>, keep: bool, ghost place: Place,
                     fat1: seq<byte>, first: nat, ghost ch: seq<nat>, ghost m: Mutation)
      returns (error: FsError)
      requires Healthy() && !started && size < 0x1_0000_0000
      requires
        (keep ==> t.found && t.slot in Tree() && Tree()[t.slot].FileNode? && t.size == Size(Tree()[t.slot].entry))
      requires t.length == |OldChain(t)| && (OldChain(t) != [] ==> Chain(g, fat, t.first) == Some(OldChain(t)))
      requires Allocated(g, fat, ch, fat1) && |ch| == Needed(g, size) && first == if ch == [] then 0 else ch[0]
      requires (forall c :: c in OldChain(t) ==> ValidCluster(g, c) && !IsFree(g, fat, c))
      requires (forall c :: c in ch ==> ValidCluster(g, c))
      requires m == RewriteOf(t, place, size, offset, patch, keep, fat1, ch) && Located(m)
      modifies this`cache, this`disk, this`trace, this`started, this`fat
      ensures Steady(old(started), old(disk), old(trace))
      ensures Mounted() && error in {Ok, IoError}
      ensures Issued(old(trace), trace, Batch(m, 0) + (Batch(m, 1) + Batch(m, 2)), error)
      ensures error == Ok ==> disk == Stage(m, 3) && fat == fat1
      ensures error != Ok ==> fat == old(fat)
      ensures error == Ok && !started ==> fat1 == old(fat)
    {
      hide Nodes, DiskTable, Audited, Classify, EntryAt, DirSlots, RootSlots, Exclusive, ChainSectors, DataWrites,
           NewContent, Rewritten, Release, Needed, Reached, Located, Stage, Batch, Apply, TableBatch, Content, Chain,
           Issued, Quiet, Allocated, IsFree;
      HealthyBasics();
      BatchKinds(m);
      FirstStage(m);
      StageStep(m, 0);
      StageStep(m, 1);
      StageStep(m, 2);
      AllocatedMembers(g, fat, ch, fat1);
      AllocatedTable(g, fat, ch, fat1);
      if ch != [] { AllocatedIsChain(g, fat, ch, fat1); }
      ghost var st := Staging(disk, trace, OldChain(t), t.size, ch, size, offset, patch, keep);
      StagingValid(t, st);
      assert Batch(m, 0) == st.All(g) + [Flush];
      error := StageBytes(st, t.first, fat1, first, t.length, t.size, size, offset, patch, keep);
      ghost var tables := Batch(m, 1) + Batch(m, 2);
      if error != Ok {
        IssuedPart(old(trace), trace, Batch(m, 0), tables, error);
        return;
      }
      ghost var t2 := trace;
      error := PersistTable(fat1);
      IssuedThen(old(trace), t2, trace, Batch(m, 0), tables, error);
      if !started { QuietThen(old(trace), t2, trace); }
      if error == Ok && !started {
        QuietMeansEmpty(g, st, t2, trace, tables, old(fat), fat1);
      }
    }

    /** The data phase: stage the file, then flush it. */
    method StageBytes(ghost st: Staging, oldFirst: nat, fat': seq<byte>, first: nat, oldLength: nat, oldSize: nat,
                      size: nat, offset: nat, patch: seq<byte>, keep: bool)
      returns (error: FsError)
      requires Mounted() && st.Valid(g) && IsTable(g, fat')
      requires oldSize == st.oldSize && size == st.size && offset == st.offset && patch == st.patch && keep == st.keep
      requires trace == st.start && disk == st.d0 && oldLength == |st.oldChain|
      requires st.chain != [] ==> Chain(g, fat', first) == Some(st.chain)
      requires st.oldChain != [] ==> Chain(g, fat, oldFirst) == Some(st.oldChain)
      modifies this`cache, this`disk, this`trace, this`started
      ensures Steady(old(started), old(disk), old(trace))
      ensures Mounted() && error in {Ok, IoError}
      ensures Issued(st.start, trace, st.All(g) + [Flush], error)
      ensures error == Ok ==> disk == Apply(st.d0, st.All(g) + [Flush])
    {
      hide Apply, Chain;
      ghost var writes := st.All(g);
      error := CopyContents(st, oldFirst, fat', first, oldLength, oldSize, size, offset, patch, keep);
      if error != Ok {
        IssuedPart(st.start, trace, writes, [Flush], error);
        return;
      }
      ghost var t1 := trace;
      error := FlushDevice();
      IssuedThen(st.start, t1, trace, writes, [Flush], error);
      ApplyFlushed(st.d0, writes);
    }

    lemma StagingValid(t: Target, st: Staging)
      requires Healthy() && st.d0 == disk && st.oldChain == OldChain(t) && st.oldSize == t.size
      requires st.keep ==>
        t.found && t.slot in Tree() && Tree()[t.slot].FileNode? && t.size == Size(Tree()[t.slot].entry)
      requires |st.chain| == Needed(g, st.size)
      requires forall c :: c in OldChain(t) ==> ValidCluster(g, c) && !IsFree(g, fat, c)
      requires forall c :: c in st.chain ==> IsFree(g, fat, c)
      ensures st.Valid(g)
      ensures st.keep ==> st.OldContent(g) == OldBytes(t)
    {
      hide Live, NodeAt, Exclusive, DiskTable, EntryAt, Classify, Chain, Needed, Content, ChainSectors;
      if st.keep {
        NodesKeys(g, disk, fat, depth);
        FileNodeIs(g, disk, fat, t.slot);
      }
    }

    method Perform(t: Target, dir: Dir, size: nat, offset: nat, patch: seq<byte>, keep: bool, ghost place: Place,
                   fat1: seq<byte>, first: nat, ghost ch: seq<nat>, ghost m: Mutation)
      returns (error: FsError, committed: bool)
      requires CanRewrite(t, dir, place) && (keep ==> t.found) && !started && size < 0x1_0000_0000
      requires Allocated(g, fat, ch, fat1) && |ch| == Needed(g, size) && first == if ch == [] then 0 else ch[0]
      requires (forall c :: c in OldChain(t) ==> ValidCluster(g, c)) && (forall c :: c in ch ==> ValidCluster(g, c))
      requires m == RewriteOf(t, place, size, offset, patch, keep, fat1, ch) && WellFormed(m)
      requires Crash.Target(m) == t.slot && Before(m) == Tree() && DepthAfter(m) == depth
      modifies this`cache, this`disk, this`trace, this`started, this`fat, this`faulted
      ensures Mounted() && depth == old(depth) && error in {Ok, IoError}
      ensures Issued(old(trace), trace, Plan(m), error)
      ensures error == Ok ==> committed && !faulted && disk == Stage(m, BATCHES) && fat == m.fat2
      ensures error != Ok && !faulted ==> disk == old(disk) && fat == old(fat) && Quiet(old(trace), trace)
      ensures committed ==> old(trace) + Joined(Batches(m, 5)) <= trace
      ensures error != Ok && committed ==> faulted
    {
      hide Nodes, DiskTable, Audited, Classify, EntryAt, DirSlots, RootSlots, Exclusive, ChainSectors, DataWrites,
           NewContent, Release, Allocated, Needed, Reached, Located, Stage, Batch, Apply, WellFormed, Batches, Joined,
           Plan, Issued, Quiet, At, Rewritten, Before, DepthAfter, Chain, PlaceOk, Listing, FreeSlot, IsDir, PlaceAt,
           IsFree, DataWrites, SlotCount;
      Basics(m);
      committed := false;
      ghost var och := OldChain(t);
      OldChainValid(t);
      OldTarget(t);
      RewriteEnd(t, dir, place);
      error := StageData(t, size, offset, patch, keep, place, fat1, first, ch, m);
      if error != Ok {
        ghost var begun := Batch(m, 0) + (Batch(m, 1) + Batch(m, 2));
        PlanPhases(m);
        RegroupLast(begun, Batch(m, 3) + Batch(m, 4), Batch(m, 5) + Batch(m, 6));
        IssuedPart(old(trace), trace, begun, (Batch(m, 3) + Batch(m, 4)) + (Batch(m, 5) + Batch(m, 6)), error);
        Finish(error);
        return;
      }
      OldChainIn(g, m.fat, fat1, ch, t.first, och);
      error, committed := CommitStaged(t, dir, Rewritten(t.entry, first, size), fat1, och, m, old(trace));
    }

    /** Everything is staged, or nothing had to be: publish, release and settle the outcome. */
    method CommitStaged(t: Target, dir: Dir, e: Entry, fat1: seq<byte>, ghost och: seq<nat>, ghost m: Mutation,
                        ghost t0: seq<Event>)
      returns (error: FsError, committed: bool)
      requires WellFormed(m) && Mounted() && !faulted && g == m.g && depth == m.depth
      requires disk == Stage(m, 3) && fat == m.fat1 && fat1 == m.fat1
      requires t.slot == Crash.Target(m) && e == m.entry && t.length == |och|
      requires t.end <==> Classify(EntryAt(m.d, t.slot)) == EndMark
      requires t.end ==> IsDir(Before(m), dir) && Skip(dir) <= t.cursor && m.place == PlaceAt(dir, t.cursor)
      requires och != [] ==> Chain(g, fat1, t.first) == Some(och)
      requires (forall c :: c in och ==> ValidCluster(g, c)) && m.fat2 == Release(g, fat1, och)
      requires Issued(t0, trace, Batch(m, 0) + (Batch(m, 1) + Batch(m, 2)), Ok)
      requires !started ==> disk == m.d && fat == m.fat && Quiet(t0, trace)
      modifies this`cache, this`disk, this`trace, this`started, this`fat, this`faulted
      ensures Mounted() && error in {Ok, IoError} && Issued(t0, trace, Plan(m), error)
      ensures error == Ok ==> committed && !faulted && disk == Stage(m, BATCHES) && fat == m.fat2
      ensures error != Ok && !faulted ==> disk == m.d && fat == m.fat && Quiet(t0, trace)
      ensures committed ==> t0 + Joined(Batches(m, 5)) <= trace
      ensures error != Ok && committed ==> faulted
    {
      hide Nodes, DiskTable, Audited, Classify, EntryAt, Release, Located, Stage, Batch, Apply, WellFormed, Batches,
           Joined, Plan, Issued, Quiet, At, Before, Chain, IsDir, PlaceAt;
      Basics(m);
      PlanPhases(m);
      PublishedPhases(m);
      ghost var begun := Batch(m, 0) + (Batch(m, 1) + Batch(m, 2));
      ghost var published, released := Batch(m, 3) + Batch(m, 4), Batch(m, 5) + Batch(m, 6);
      error, committed := PublishAndRelease(t, dir, e, fat1, och, m);
      IssuedThen(t0, old(trace), trace, begun, published + released, error);
      RegroupLast(begun, published, released);
      if committed { PublishedPrefix(t0, old(trace), trace, begun, published); }
      if !started { QuietThen(t0, old(trace), trace); }
      Finish(error);
    }

    /** The last phases: publish the entry, then release the old chain. */
    method PublishAndRelease(t: Target, dir: Dir, e: Entry, fat1: seq<byte>, ghost och: seq<nat>, ghost m: Mutation)
      returns (error: FsError, committed: bool)
      requires WellFormed(m) && Mounted() && !faulted && g == m.g && depth == m.depth
      requires disk == Stage(m, 3) && fat == m.fat1 && fat1 == m.fat1
      requires t.slot == Crash.Target(m) && e == m.entry && t.length == |och|
      requires t.end <==> Classify(EntryAt(m.d, t.slot)) == EndMark
      requires t.end ==> IsDir(Before(m), dir) && Skip(dir) <= t.cursor && m.place == PlaceAt(dir, t.cursor)
      requires och != [] ==> Chain(g, fat1, t.first) == Some(och)
      requires (forall c :: c in och ==> ValidCluster(g, c)) && m.fat2 == Release(g, fat1, och)
      modifies this`cache, this`disk, this`trace, this`started, this`fat
      ensures Steady(old(started), old(disk), old(trace))
      ensures Mounted() && error in {Ok, IoError}
      ensures Issued(old(trace), trace, (Batch(m, 3) + Batch(m, 4)) + (Batch(m, 5) + Batch(m, 6)), error)
      ensures error == Ok ==> committed && disk == Stage(m, BATCHES) && fat == m.fat2
      ensures committed ==> started && old(trace) + (Batch(m, 3) + Batch(m, 4)) <= trace
      ensures error != Ok ==> fat == old(fat)
    {
      hide WellFormed, Stage, Batch, Nodes, DiskTable, Classify, EntryAt, DirSlots, RootSlots, Apply, Located,
           TableBatch, Chain, Release;
      Basics(m);
      committed := false;
      ghost var last := Batch(m, 5) + Batch(m, 6);
      error := Publish(t, dir, e, m);
      if error != Ok {
        IssuedPart(old(trace), trace, Batch(m, 3) + Batch(m, 4), last, error);
        return;
      }
      committed := true;
      ghost var t2 := trace;
      var fat2 := FreeChain(g, fat, fat1, t.first, t.length, och);
      BatchKinds(m);
      StageStep(m, 5);
      StageStep(m, 6);
      error := PersistTable(fat2);
      IssuedThen(old(trace), t2, trace, Batch(m, 3) + Batch(m, 4), last, error);
    }
  }

  /** The slot after the target in its own listing. */
  lemma NextInList(m: Mutation, dir: Dir, cursor: nat)
    requires Located(m) && IsDir(Before(m), dir) && Skip(dir) < cursor < |AllSlots(m.g, Before(m), dir)|
    requires m.place == PlaceAt(dir, cursor - 1)
    ensures m.place.index + 1 < |List(m)| && List(m)[m.place.index + 1] == AllSlots(m.g, Before(m), dir)[cursor]
  {
    hide Nodes, DirSlots, RootSlots, Reached;
  }

  lemma NextCursor(m: Mutation, dir: Dir, cursor: nat)
    requires Located(m) && IsDir(Before(m), dir) && Skip(dir) <= cursor && m.place == PlaceAt(dir, cursor)
    ensures cursor + 1 < SlotCount(m.g, dir) <==> m.place.index + 1 < |List(m)|
  {
    hide Nodes, DirSlots, RootSlots, Reached;
    SlotCountIs(m.g, Before(m), dir);
  }

  /** Without an end mark or a next slot there is nothing to clear. */
  lemma NotClearing(m: Mutation, dir: Dir, t: Target)
    requires Located(m) && t.slot == Crash.Target(m)
    requires t.end <==> Classify(EntryAt(m.d, t.slot)) == EndMark
    requires t.end ==> IsDir(Before(m), dir) && Skip(dir) <= t.cursor && m.place == PlaceAt(dir, t.cursor)
    ensures !t.end || t.cursor + 1 >= SlotCount(m.g, dir) ==> Batch(m, 3) == [] && Stage(m, 4) == Stage(m, 3)
  {
    hide Nodes, DirSlots, RootSlots, Reached, Classify, EntryAt, Stage;
    ClearBatch(m);
    StageStep(m, 3);
    ApplyNothing(Stage(m, 3));
    if t.end { NextCursor(m, dir, t.cursor); }
  }

  lemma FreeSlotKind(d: Disk, s: Slot, end: bool)
    ensures FreeSlot(d, s, end) ==> Classify(EntryAt(d, s)) == if end then EndMark else Skipped
  {
  }

  lemma AllocatedTable(g: Geometry, fat: seq<byte>, ch: seq<nat>, fat': seq<byte>)
    requires IsTable(g, fat) && Allocated(g, fat, ch, fat')
    ensures IsTable(g, fat')
  {
  }

  /** The old chain is intact in the table that already holds the new one. */
  lemma OldChainIn(g: Geometry, fat: seq<byte>, fat1: seq<byte>, ch: seq<nat>, first: nat, och: seq<nat>)
    requires IsTable(g, fat) && Allocated(g, fat, ch, fat1)
    requires och != [] ==> Chain(g, fat, first) == Some(och)
    requires forall c :: c in och ==> ValidCluster(g, c) && !IsFree(g, fat, c)
    ensures IsTable(g, fat1) && (och != [] ==> Chain(g, fat1, first) == Some(och))
  {
    AllocatedMembers(g, fat, ch, fat1);
    if och != [] { ChainFrame(g, fat, fat1, first, och); }
  }

  /** If no write was issued there was none to issue, so nothing was allocated. */
  lemma QuietMeansEmpty(g: Geometry, st: Staging, t1: seq<Event>, t2: seq<Event>, more: seq<Event>, fat: seq<byte>,
                        fat': seq<byte>)
    requires g.perCluster > 0 && IsTable(g, fat) && Allocated(g, fat, st.chain, fat')
    requires Issued(st.start, t1, st.All(g) + [Flush], Ok) && Issued(t1, t2, more, Ok) && Quiet(st.start, t2)
    ensures fat' == fat
  {
    hide Allocated, NewContent;
    var writes := st.All(g);
    if |writes| > 0 { WriteIsNotQuiet(st.start, t2, writes); }
    ChainSectorsLength(g, st.chain);
    assert |st.chain| * g.perCluster == 0;
    EmptyProduct(|st.chain|, g.perCluster);
    NothingAllocated(g, fat, fat');
  }

  lemma WriteIsNotQuiet(t0: seq<Event>, t2: seq<Event>, writes: seq<Event>)
    requires |writes| > 0 && writes[0].Write? && t0 + writes <= t2
    ensures !Quiet(t0, t2)
  {
    assert t2[|t0|] == writes[0];
  }

  /** The whole plan is flushed and leads to the last stage. */
  lemma PlanApplied(m: Mutation)
    requires WellFormed(m)
    ensures Located(m) && Settled(Plan(m)) && Apply(m.d, Plan(m)) == Stage(m, BATCHES)
  {
    hide WellFormed, Located, Stage, Batch, Apply, Joined, IsBatch, Batches, Settled;
    Basics(m);
    BatchesAre(m, BATCHES);
    JoinedSettled(Batches(m, BATCHES));
  }

  /** Whatever part of the plan was issued, a power loss finds the old tree or the new
      one, and only the new one behind the publication's flush. */
  lemma RunOf(m: Mutation, before: seq<Event>, after: seq<Event>, error: FsError, committed: bool)
    requires WellFormed(m) && Issued(before, after, Plan(m), error)
    requires committed ==> before + Joined(Batches(m, 5)) <= after
    ensures Located(m) && m.g.Valid() && |before| <= |after|
    ensures AtomicRun(m.g, m.d, after[|before|..], DepthAfter(m), Before(m), After(m))
    ensures committed ==> forall d :: CrashState(m.d, after[|before|..], d) ==> Shows(m.g, d, DepthAfter(m), After(m))
  {
    hide WellFormed, Located, Stage, Batch, Batches, Plan, Joined, AtomicRun, CrashState, Shows, After, Before,
         DepthAfter;
    Basics(m);
    var run := after[|before|..];
    assert before + run == after;
    PrefixAtomic(m, run);
    if committed {
      forall d | CrashState(m.d, run, d)
        ensures Shows(m.g, d, DepthAfter(m), After(m))
      {
        CommittedDurable(m, run, d);
      }
    }
  }

  lemma PublishedPrefix(t0: seq<Event>, t1: seq<Event>, t2: seq<Event>, begun: seq<Event>, published: seq<Event>)
    requires Issued(t0, t1, begun, Ok) && t1 + published <= t2
    ensures t0 + (begun + published) <= t2
  {
    assert t0 + (begun + published) == t0 + begun + published;
  }

  lemma SettledJoin(a: seq<Event>, b: seq<Event>)
    requires Settled(a) && Settled(b)
    ensures Settled(a + b)
  {
    if b == [] { assert a + b == a; }
  }

  lemma QuietThen(t0: seq<Event>, t1: seq<Event>, t2: seq<Event>)
    requires Quiet(t0, t1) && Quiet(t1, t2)
    ensures Quiet(t0, t2)
  {
  }

  lemma EmptyProduct(a: nat, b: nat)
    requires a * b == 0 && b > 0
    ensures a == 0
  {
  }

  lemma NothingAllocated(g: Geometry, fat: seq<byte>, fat': seq<byte>)
    requires IsTable(g, fat) && Allocated(g, fat, [], fat')
    ensures fat' == fat
  {
  }

  lemma LongIsPassed(e: Entry)
    ensures Attributes(e) == LONG_NAME ==> Passed(e)
  {
    assert Bit(LONG_NAME, 8);
  }

  lemma AllLength(g: Geometry, st: Staging)
    requires st.Valid(g)
    ensures |st.All(g)| == |st.chain| * g.perCluster
  {
    ChainSectorsLength(g, st.chain);
  }

  lemma NextRow(index: nat, width: nat)
    ensures (index + 1) * width == index * width + width
  {
  }

  lemma SectorInPlan(g: Geometry, st: Staging, index: nat, i: nat)
    requires st.Valid(g) && index < |st.chain| && i < g.perCluster
    ensures index * g.perCluster + i < |st.All(g)|
  {
    ChainSectorsAt(g, st.chain, index, i);
  }

  lemma BaseInChain(g: Geometry, st: Staging, index: nat, size: nat)
    requires st.Valid(g) && size == st.size && SECTOR * (index * g.perCluster) < size
    ensures index < |st.chain|
  {
    BytesOfClusters(g, index);
    NeededExactly(g, size, index);
  }

  lemma BaseDone(g: Geometry, st: Staging, index: nat, size: nat)
    requires st.Valid(g) && size == st.size && SECTOR * (index * g.perCluster) >= size && index <= |st.chain|
    ensures index * g.perCluster == |st.All(g)|
  {
    BytesOfClusters(g, index);
    NeededExactly(g, size, index);
    AllLength(g, st);
  }

  lemma OldClusterExists(g: Geometry, st: Staging, index: nat, i: nat)
    requires st.Valid(g) && st.keep && SECTOR * (index * g.perCluster + i) < st.oldSize
    ensures index < |st.oldChain|
  {
    BytesOfClusters(g, index);
    NeededExactly(g, st.oldSize, index);
  }

  lemma WriteAt(g: Geometry, st: Staging, index: nat, i: nat)
    requires st.Valid(g) && index < |st.chain| && i < g.perCluster
    ensures var t := index * g.perCluster + i;
      t < |st.All(g)| && st.All(g)[t] == Write(Data(st.chain[index], i), Padded(st.Staged(g), t))
  {
    ChainSectorsAt(g, st.chain, index, i);
  }

  /** What sector `t` of the new file keeps of the old one. */
  ghost predicate KeptOf(g: Geometry, st: Staging, t: nat, kept: seq<byte>) {
    && |kept| == Kept(st.keep, SECTOR * t, st.size, |st.OldContent(g)|)
    && forall b :: 0 <= b < |kept| ==> kept[b] == st.OldContent(g)[SECTOR * t + b]
  }

  lemma StagedSector(g: Geometry, st: Staging, kept: seq<byte>, index: nat, i: nat, t: nat)
    requires st.Valid(g) && index < |st.chain| && i < g.perCluster && t == index * g.perCluster + i
    requires KeptOf(g, st, t, kept)
    ensures t < |st.All(g)|
    ensures st.All(g)[t] == Write(Data(st.chain[index], i), Fill(kept, SECTOR * t, st.size, st.offset, st.patch))
  {
    hide NewContent, Content, ChainSectors, DataWrites, Needed, Fill, Padded, Kept;
    FillIsPadded(kept, t, st.size, st.offset, st.patch, st.keep, st.OldContent(g));
    WriteAt(g, st, index, i);
  }

  lemma StagedSoFar(d0: Disk, start: seq<Event>, all: seq<Event>, t: nat)
    requires t <= |all|
    ensures Issued(start, start + all[..t], all, IoError)
  {
  }

  lemma AllIssued(start: seq<Event>, all: seq<Event>)
    ensures Issued(start, start + all, all, Ok)
  {
  }

  /** One more write of the plan. */
  lemma StagedNext(d0: Disk, start: seq<Event>, all: seq<Event>, t: nat)
    requires t < |all| && all[t].Write?
    ensures start + all[..t] + [all[t]] == start + all[..t + 1]
    ensures Apply(d0, all[..t + 1]) == Apply(d0, all[..t])[all[t].addr := all[t].data]
    ensures Issued(start, start + all[..t + 1], all, IoError)
  {
    hide Apply;
    var longer := all[..t + 1];
    assert longer[..|longer| - 1] == all[..t];
    ApplyWrite(d0, longer);
  }

  /** Staging never overwrites the old chain it copies from. */
  lemma OldSectorIntact(g: Geometry, st: Staging, index: nat, i: nat)
    requires st.Valid(g) && index < |st.oldChain| && i < g.perCluster
    ensures var t := index * g.perCluster + i;
      && (forall n: nat :: n <= |st.All(g)| ==>
            At(Apply(st.d0, st.All(g)[..n]), Data(st.oldChain[index], i)) == At(st.d0, Data(st.oldChain[index], i)))
      && (forall b :: 0 <= b < SECTOR && SECTOR * t + b < st.oldSize ==>
            st.OldContent(g)[SECTOR * t + b] == At(st.d0, Data(st.oldChain[index], i))[b])
  {
    hide ChainSectors, Content, Apply, NewContent, Padded;
    var t := index * g.perCluster + i;
    var a := Data(st.oldChain[index], i);
    forall n: nat | n <= |st.All(g)|
      ensures At(Apply(st.d0, st.All(g)[..n]), a) == At(st.d0, a)
    {
      forall k | 0 <= k < n
        ensures st.All(g)[..n][k].addr != a
      {
        ChainSectorsOwned(g, st.chain, ChainSectors(g, st.chain)[k]);
      }
      ApplyElsewhere(st.d0, st.All(g)[..n], a);
    }
    ChainSectorsAt(g, st.oldChain, index, i);
    forall b | 0 <= b < SECTOR && SECTOR * t + b < st.oldSize
      ensures st.OldContent(g)[SECTOR * t + b] == At(st.d0, a)[b]
    {
      ByteAt(st.d0, ChainSectors(g, st.oldChain), st.oldSize, t, b);
    }
  }

  lemma ChangedNext(g: Geometry, fat: seq<byte>, fat': seq<byte>, copy: nat, i: nat)
    requires IsTable(g, fat) && IsTable(g, fat') && i < g.fatSectors
    ensures var before, sector := ChangedSectors(g, fat, fat', copy, i), TableSector(g, fat', i);
      ChangedSectors(g, fat, fat', copy, i + 1) ==
      if sector == TableSector(g, fat, i) then before else before + [Write(Table(copy, i), sector)]
  {
  }

  /** One more changed sector is written. */
  lemma ChangedWrite(g: Geometry, fat: seq<byte>, fat': seq<byte>, copy: nat, i: nat, d: Disk, before: seq<Event>)
    requires IsTable(g, fat) && IsTable(g, fat') && i < g.fatSectors
    requires TableSector(g, fat', i) != TableSector(g, fat, i)
    ensures var done, more := ChangedSectors(g, fat, fat', copy, i), ChangedSectors(g, fat, fat', copy, i + 1);
      && before + done + [Write(Table(copy, i), TableSector(g, fat', i))] == before + more && more != []
      && Apply(d, more) == Apply(d, done)[Table(copy, i) := TableSector(g, fat', i)]
      && Issued(before, before + more, TableBatch(g, fat, fat', copy), IoError)
  {
    hide ChangedSectors, Apply, TableBatch, TableSector, Issued;
    ChangedNext(g, fat, fat', copy, i);
    ChangedPrefix(g, fat, fat', copy, i + 1, before);
    var more := ChangedSectors(g, fat, fat', copy, i + 1);
    assert more[..|more| - 1] == ChangedSectors(g, fat, fat', copy, i);
    ApplyWrite(d, more);
  }

  lemma {:induction false} ChangedGrow(g: Geometry, fat: seq<byte>, fat': seq<byte>, copy: nat, i: nat, n: nat)
    requires IsTable(g, fat) && IsTable(g, fat') && i <= n <= g.fatSectors
    ensures ChangedSectors(g, fat, fat', copy, i) <= ChangedSectors(g, fat, fat', copy, n)
    decreases n
  {
    if i < n { ChangedGrow(g, fat, fat', copy, i, n - 1); }
  }

  lemma ChangedPrefix(g: Geometry, fat: seq<byte>, fat': seq<byte>, copy: nat, i: nat, before: seq<Event>)
    requires IsTable(g, fat) && IsTable(g, fat') && i <= g.fatSectors
    ensures Issued(before, before + ChangedSectors(g, fat, fat', copy, i), TableBatch(g, fat, fat', copy), IoError)
  {
    ChangedGrow(g, fat, fat', copy, i, g.fatSectors);
    assert ChangedSectors(g, fat, fat', copy, i) <= TableBatch(g, fat, fat', copy);
  }

  lemma FlushedLast(before: seq<Event>, after: seq<Event>, done: seq<Event>, batch: seq<Event>, error: FsError)
    requires batch == if done == [] then [] else done + [Flush]
    requires if error == Ok then after == before + batch else after == before + done
    ensures Issued(before, after, batch, error)
  {
    assert before + (done + [Flush]) == before + done + [Flush];
  }

  lemma BatchShape(g: Geometry, fat: seq<byte>, fat': seq<byte>, copy: nat)
    requires IsTable(g, fat) && IsTable(g, fat')
    ensures var changed := ChangedSectors(g, fat, fat', copy, g.fatSectors);
      TableBatch(g, fat, fat', copy) == if changed == [] then [] else changed + [Flush]
  {
  }

  lemma ApplyWrite(d: Disk, run: seq<Event>)
    requires run != [] && run[|run| - 1].Write?
    ensures Apply(d, run) == Apply(d, run[..|run| - 1])[run[|run| - 1].addr := run[|run| - 1].data]
  {
  }

}
