/** Crash atomicity of every mutation that does not grow a directory, and the
    invariant it leaves when it completes. */
module Crash {
  import opened Common
  import opened Disk
  import opened Fat
  import opened Layout
  import opened Tree
  import opened View
  import opened Commit

  /** One mutation: stage `data` in free clusters, install `fat1`, replace the
      entry at `place`, install `fat2`. */
  datatype Mutation = Mutation(
    g: Geometry, d: Disk, fat: seq<byte>, depth: nat,
    place: Place, data: seq<Event>, fat1: seq<byte>, entry: Entry, fat2: seq<byte>)

  const BATCHES := 7

  /** The view before the mutation. */
  ghost function Before(m: Mutation): map<Slot, Node>
    requires Audited(m.g, m.d, m.fat, m.depth)
  {
    Nodes(m.g, m.d, m.fat, m.depth).value
  }

  ghost predicate Located(m: Mutation) {
    && Audited(m.g, m.d, m.fat, m.depth)
    && IsTable(m.g, m.fat1) && IsTable(m.g, m.fat2)
    && PlaceOk(m.g, m.d, Before(m), m.place)
  }

  ghost function List(m: Mutation): seq<Slot>
    requires Located(m)
  {
    Listing(m.g, Before(m), m.place)
  }

  ghost function Target(m: Mutation): Slot
    requires Located(m)
  {
    List(m)[m.place.index]
  }

  /** Consuming the end mark must not expose stale bytes in the next slot. */
  ghost predicate ClearsNext(m: Mutation)
    requires Located(m)
  {
    && Classify(EntryAt(m.d, Target(m))) == EndMark
    && m.place.index + 1 < |List(m)|
    && Classify(EntryAt(m.d, List(m)[m.place.index + 1])) != EndMark
  }

  function EntryBatch(d: Disk, s: Slot, e: Entry): seq<Event> {
    [Write(s.sector, SetEntry(At(d, s.sector), s.index, e)), Flush]
  }

  /** The i-th flushed batch the mutation issues. */
  ghost function Batch(m: Mutation, i: nat): seq<Event>
    requires Located(m)
    decreases i, 1
  {
    match i
    case 0 => m.data
    case 1 => TableBatch(m.g, m.fat, m.fat1, 0)
    case 2 => TableBatch(m.g, m.fat, m.fat1, 1)
    case 3 => if ClearsNext(m) then EntryBatch(Stage(m, 3), List(m)[m.place.index + 1], Zeros(32)) else []
    case 4 => EntryBatch(Stage(m, 4), Target(m), m.entry)
    case 5 => TableBatch(m.g, m.fat1, m.fat2, 0)
    case 6 => TableBatch(m.g, m.fat1, m.fat2, 1)
    case _ => []
  }

  /** The device once the first `i` batches are complete. */
  ghost function Stage(m: Mutation, i: nat): Disk
    requires Located(m)
    decreases i, 0
  {
    if i == 0 then m.d else Apply(Stage(m, i - 1), Batch(m, i - 1))
  }

  ghost function Batches(m: Mutation, n: nat): seq<seq<Event>>
    requires Located(m)
  {
    if n == 0 then [] else Batches(m, n - 1) + [Batch(m, n - 1)]
  }

  /** Every write and flush of the mutation, in order. */
  ghost function Plan(m: Mutation): seq<Event>
    requires Located(m)
  {
    Joined(Batches(m, BATCHES))
  }

  /** The node the new entry describes, once its data and table are in place. */
  ghost function NewNode(m: Mutation): Option<Node>
    requires Located(m)
  {
    NodeAt(m.g, Stage(m, 5), m.fat1, Target(m))
  }

  /** The view after the mutation. */
  ghost function After(m: Mutation): map<Slot, Node>
    requires Located(m)
  {
    if Classify(m.entry) == Used && NewNode(m).Some? then Before(m)[Target(m) := NewNode(m).value]
    else Before(m) - {Target(m)}
  }

  /** A new directory may lie one level deeper than anything before. */
  function DepthAfter(m: Mutation): nat {
    if Classify(m.entry) == Used && DirectoryBit(m.entry) then m.depth + 1 else m.depth
  }

  /** What the writer guarantees before it starts. */
  ghost predicate WellFormed(m: Mutation) {
    && Located(m)
    && DiskTable(m.g, m.d, 0) == m.fat && DiskTable(m.g, m.d, 1) == m.fat
    // Data goes to free clusters only, and the new table changes free entries only.
    && IsBatch(m.data)
    && (forall e :: e in Writes(m.data) ==> e.Write? && e.addr.Data? && IsFree(m.g, m.fat, e.addr.cluster))
    && (forall c :: ValidCluster(m.g, c) && !IsFree(m.g, m.fat, c) ==> Next(m.g, m.fat1, c) == Next(m.g, m.fat, c))
    // The target slot is free, or holds a file or an empty directory.
    && (|| Classify(EntryAt(m.d, Target(m))) in {Skipped, EndMark}
        || (Classify(EntryAt(m.d, Target(m))) == Used && Leaf(m.g, m.d, m.fat, Target(m), SelfOf(Before(m), m.place))))
    // The new entry is a deletion, or a file or empty directory on clusters nobody else has.
    && (|| Classify(m.entry) == Skipped
        || (&& Classify(m.entry) == Used
            && Leaf(m.g, Stage(m, 5), m.fat1, Target(m), SelfOf(Before(m), m.place))
            && forall n, c :: n in Before(m) && n != Target(m) && c in NewNode(m).value.clusters ==>
                 c !in Before(m)[n].clusters))
    // Only clusters nobody uses any more are released.
    && (forall n, c :: n in After(m) && c in After(m)[n].clusters && ValidCluster(m.g, c) ==>
          Next(m.g, m.fat2, c) == Next(m.g, m.fat1, c))
  }

  /** Both copies of the table show exactly these files and directories. */
  ghost predicate Shows(g: Geometry, d: Disk, depth: nat, nodes: map<Slot, Node>)
    requires g.Valid()
  {
    && Nodes(g, d, DiskTable(g, d, 0), depth) == Some(nodes)
    && Nodes(g, d, DiskTable(g, d, 1), depth) == Some(nodes)
  }

  // ----- Before publication -----------------------------------------------------------

  /** Nothing in use has changed yet. */
  ghost predicate Early(m: Mutation, x: Disk)
    requires WellFormed(m)
  {
    && (forall i :: At(x, Root(i)) == At(m.d, Root(i)))
    && (forall c: nat, i :: !IsFree(m.g, m.fat, c) ==> At(x, Data(c, i)) == At(m.d, Data(c, i)))
  }

  ghost predicate KeepsUsed(m: Mutation, fat: seq<byte>)
    requires WellFormed(m) && IsTable(m.g, fat)
  {
    forall c :: ValidCluster(m.g, c) && !IsFree(m.g, m.fat, c) ==> Next(m.g, fat, c) == Next(m.g, m.fat, c)
  }

  lemma EarlyShows(m: Mutation, x: Disk, fat: seq<byte>, depth: nat)
    requires WellFormed(m) && Early(m, x) && IsTable(m.g, fat) && KeepsUsed(m, fat) && m.depth <= depth
    ensures Nodes(m.g, x, fat, depth) == Some(Before(m))
  {
    hide NodeAt, Live, Leaf, Stage, Batch, Classify, EntryAt, Exclusive, Next;
    NodesKeys(m.g, m.d, m.fat, m.depth);
    forall n, c | n in Before(m) && c in Before(m)[n].clusters
      ensures ValidCluster(m.g, c) && !IsFree(m.g, m.fat, c)
    {
      NodeChain(m.g, m.d, m.fat, n);
    }
    Frame(m.g, m.d, m.fat, x, fat, m.depth, depth);
  }

  lemma MixedKeepsUsed(m: Mutation, mixed: seq<byte>)
    requires WellFormed(m) && IsTable(m.g, mixed) && Mixed(m.g, m.fat, m.fat1, mixed)
    ensures KeepsUsed(m, mixed)
  {
    hide Mixed, Nodes, Leaf, Stage, Batch, After, Before;
    forall c | ValidCluster(m.g, c) && !IsFree(m.g, m.fat, c)
      ensures Next(m.g, mixed, c) == Next(m.g, m.fat, c)
    {
      MixedNext(m.g, m.fat, m.fat1, mixed, c);
    }
  }

  lemma DataBatchEarly(m: Mutation, x: Disk)
    requires WellFormed(m) && Between(m.d, Writes(m.data), x)
    ensures Early(m, x) && DiskTable(m.g, x, 0) == m.fat && DiskTable(m.g, x, 1) == m.fat
  {
    hide Nodes, Leaf, Stage, Batch, After, Before, Located, IsBatch;
    assert forall i :: At(x, Root(i)) == At(m.d, Root(i));
    assert forall copy, i :: At(x, Table(copy, i)) == At(m.d, Table(copy, i));
    SameTable(m.g, m.d, x, 0);
    SameTable(m.g, m.d, x, 1);
  }

  /** A stage is one of its own batch's crash states. */
  lemma StageBetween(m: Mutation, i: nat)
    requires WellFormed(m) && IsBatch(Batch(m, i))
    ensures Between(Stage(m, i), Writes(Batch(m, i)), Stage(m, i + 1))
  {
    hide WellFormed, Batch;
    Basics(m);
    BatchIsBetween(Stage(m, i), Batch(m, i));
  }

  lemma Stage1(m: Mutation)
    requires WellFormed(m)
    ensures Early(m, Stage(m, 1)) && DiskTable(m.g, Stage(m, 1), 0) == m.fat && DiskTable(m.g, Stage(m, 1), 1) == m.fat
  {
    BatchIsBetween(m.d, m.data);
    DataBatchEarly(m, Apply(m.d, m.data));
    assert Stage(m, 0) == m.d && Batch(m, 0) == m.data;
    assert Stage(m, 1) == Apply(m.d, m.data);
  }

  lemma Stage2(m: Mutation)
    requires WellFormed(m)
    ensures Early(m, Stage(m, 2)) && DiskTable(m.g, Stage(m, 2), 0) == m.fat1 && DiskTable(m.g, Stage(m, 2), 1) == m.fat
  {
    hide WellFormed, TableBatch, DiskTable, Stage, Located, Audited, Early;
    Basics(m);
    Stage1(m);
    StageStep(m, 1);
    BatchKinds(m);
    InstallTable(m, Stage(m, 1), m.fat, m.fat1, 0);
  }

  lemma Stage3(m: Mutation)
    requires WellFormed(m)
    ensures Early(m, Stage(m, 3)) && DiskTable(m.g, Stage(m, 3), 0) == m.fat1
    ensures DiskTable(m.g, Stage(m, 3), 1) == m.fat1
  {
    hide WellFormed, TableBatch, DiskTable, Stage, Located, Audited, Early;
    Basics(m);
    Stage2(m);
    StageStep(m, 2);
    BatchKinds(m);
    InstallTable(m, Stage(m, 2), m.fat, m.fat1, 1);
  }

  lemma StageStep(m: Mutation, i: nat)
    requires Located(m)
    ensures Stage(m, i + 1) == Apply(Stage(m, i), Batch(m, i))
  {
  }

  lemma InstallTable(m: Mutation, x: Disk, fat: seq<byte>, fat': seq<byte>, copy: nat)
    requires WellFormed(m) && IsTable(m.g, fat) && IsTable(m.g, fat') && copy < 2 && DiskTable(m.g, x, copy) == fat
    ensures var y := Apply(x, TableBatch(m.g, fat, fat', copy));
      && DiskTable(m.g, y, copy) == fat' && DiskTable(m.g, y, 1 - copy) == DiskTable(m.g, x, 1 - copy)
      && (forall a: Addr :: !a.Table? ==> At(y, a) == At(x, a))
      && (Early(m, x) ==> Early(m, y))
  {
    hide TableBatch, DiskTable, WellFormed, Early, Apply, Located, Audited;
    Basics(m);
    var y := Apply(x, TableBatch(m.g, fat, fat', copy));
    TableBatchApplied(m.g, x, fat, fat', copy);
    SameTable(m.g, x, y, 1 - copy);
    if Early(m, x) { EarlyKept(m, x, y); }
  }

  lemma EarlyCrash(m: Mutation, i: nat, x: Disk)
    requires WellFormed(m) && i < 3 && Between(Stage(m, i), Writes(Batch(m, i)), x)
    ensures Shows(m.g, x, DepthAfter(m), Before(m))
  {
    hide WellFormed, TableBatch, DiskTable, KeepsUsed, Early, Between, Stage, Batch, Before, Located, Audited;
    Basics(m);
    BatchKinds(m);
    if i == 0 {
      FirstStage(m);
      DataBatchEarly(m, x);
      OwnTableKeepsUsed(m);
    } else if i == 1 {
      Stage1(m);
      CrashWhileInstalling(m, Stage(m, 1), m.fat, 0, x);
      OwnTableKeepsUsed(m);
    } else {
      Stage2(m);
      CrashWhileInstalling(m, Stage(m, 2), m.fat, 1, x);
      OwnTableKeepsUsed(m);
    }
    EarlyShows(m, x, DiskTable(m.g, x, 0), DepthAfter(m));
    EarlyShows(m, x, DiskTable(m.g, x, 1), DepthAfter(m));
  }

  lemma FirstStage(m: Mutation)
    requires Located(m)
    ensures Stage(m, 0) == m.d
  {
  }

  lemma BatchKinds(m: Mutation)
    requires Located(m)
    ensures Batch(m, 0) == m.data
    ensures Batch(m, 1) == TableBatch(m.g, m.fat, m.fat1, 0) && Batch(m, 2) == TableBatch(m.g, m.fat, m.fat1, 1)
    ensures Batch(m, 5) == TableBatch(m.g, m.fat1, m.fat2, 0) && Batch(m, 6) == TableBatch(m.g, m.fat1, m.fat2, 1)
  {
  }

  lemma Basics(m: Mutation)
    requires WellFormed(m)
    ensures Located(m) && m.g.Valid() && IsTable(m.g, m.fat) && IsTable(m.g, m.fat1) && IsTable(m.g, m.fat2)
    ensures Audited(m.g, m.d, m.fat, m.depth)
  {
  }

  lemma TargetListed(m: Mutation)
    requires Located(m)
    ensures m.place.index < |List(m)|
  {
  }

  lemma OwnTableKeepsUsed(m: Mutation)
    requires WellFormed(m)
    ensures KeepsUsed(m, m.fat) && KeepsUsed(m, m.fat1)
  {
  }

  lemma CrashWhileInstalling(m: Mutation, base: Disk, fat: seq<byte>, copy: nat, x: Disk)
    requires WellFormed(m) && copy < 2 && fat == m.fat && Early(m, base) && DiskTable(m.g, base, copy) == fat
    requires Between(base, Writes(TableBatch(m.g, m.fat, m.fat1, copy)), x)
    ensures Early(m, x) && KeepsUsed(m, DiskTable(m.g, x, copy))
    ensures DiskTable(m.g, x, 1 - copy) == DiskTable(m.g, base, 1 - copy)
  {
    hide TableBatch, DiskTable, WellFormed, Early, KeepsUsed, Between, Mixed, Located, Audited;
    Basics(m);
    CrashInTableBatch(m.g, base, m.fat, m.fat1, copy, x);
    MixedKeepsUsed(m, DiskTable(m.g, x, copy));
    SameTable(m.g, base, x, 1 - copy);
    EarlyKept(m, base, x);
  }

  /** Only table sectors changed. */
  lemma EarlyKept(m: Mutation, base: Disk, x: Disk)
    requires WellFormed(m) && Early(m, base) && forall a: Addr :: !a.Table? ==> At(x, a) == At(base, a)
    ensures Early(m, x)
  {
    hide WellFormed, At, IsFree;
    Basics(m);
    forall c: nat, i | !IsFree(m.g, m.fat, c)
      ensures At(x, Data(c, i)) == At(m.d, Data(c, i))
    {
      assert At(x, Data(c, i)) == At(base, Data(c, i));
    }
    forall i
      ensures At(x, Root(i)) == At(m.d, Root(i))
    {
      assert At(x, Root(i)) == At(base, Root(i));
    }
  }

  // ----- Publication -------------------------------------------------------------------

  lemma ListSector(m: Mutation, i: nat)
    requires WellFormed(m) && i < |List(m)|
    ensures var a := List(m)[i].sector; a.Root? || (a.Data? && !IsFree(m.g, m.fat, a.cluster))
  {
    hide Leaf, Stage, Batch, Live, NodeAt, DirSlots, RootSlots, Exclusive;
    NodesKeys(m.g, m.d, m.fat, m.depth);
    if m.place.InRoot? {
      RootSlotsInRoot(m.g, i);
    } else {
      var dir := Before(m)[m.place.dir];
      DirSlotsInChain(m.g, dir.clusters, i + 2);
      NodeChain(m.g, m.d, m.fat, m.place.dir);
    }
  }

  lemma EarlyEntry(m: Mutation, x: Disk, i: nat)
    requires WellFormed(m) && Early(m, x) && i < |List(m)|
    ensures EntryAt(x, List(m)[i]) == EntryAt(m.d, List(m)[i])
  {
    hide Leaf, Stage, Batch, Nodes;
    ListSector(m, i);
  }

  lemma {:induction false} NoneUsedFrame(d: Disk, d': Disk, slots: seq<Slot>)
    requires forall i :: 0 <= i < |slots| ==> EntryAt(d', slots[i]) == EntryAt(d, slots[i])
    ensures NoneUsed(d', slots) == NoneUsed(d, slots)
    decreases |slots|
  {
    hide Classify, EntryAt;
    if slots != [] {
      assert forall i :: 0 <= i < |slots[1..]| ==> slots[1..][i] == slots[i + 1];
      NoneUsedFrame(d, d', slots[1..]);
    }
  }

  /** A leaf stays one while only free clusters change. */
  lemma LeafFrame(g: Geometry, d: Disk, fat: seq<byte>, x: Disk, fat': seq<byte>, s: Slot, self: nat)
    requires g.perCluster > 0 && IsTable(g, fat) && IsTable(g, fat') && Leaf(g, d, fat, s, self)
    requires EntryAt(x, s) == EntryAt(d, s)
    requires forall c :: c in NodeAt(g, d, fat, s).value.clusters && ValidCluster(g, c) ==>
      Next(g, fat', c) == Next(g, fat, c)
    requires forall c, i :: c in NodeAt(g, d, fat, s).value.clusters ==> At(x, Data(c, i)) == At(d, Data(c, i))
    ensures Leaf(g, x, fat', s, self) && NodeAt(g, x, fat', s) == NodeAt(g, d, fat, s)
  {
    hide NodeAt, DirSlots, Classify, Next;
    SameNode(g, d, fat, x, fat', s);
    var node := NodeAt(g, d, fat, s).value;
    if node.DirNode? {
      var slots := DirSlots(g, node.clusters);
      forall i | 0 <= i < |slots|
        ensures EntryAt(x, slots[i]) == EntryAt(d, slots[i])
      {
        DirSlotsInChain(g, node.clusters, i);
      }
      assert forall i :: 0 <= i < |AfterDots(slots)| ==> AfterDots(slots)[i] == slots[i + 2];
      NoneUsedFrame(d, x, AfterDots(slots));
    }
  }

  lemma EarlyLeaf(m: Mutation, x: Disk)
    requires WellFormed(m) && Early(m, x) && Classify(EntryAt(m.d, Target(m))) == Used
    ensures Leaf(m.g, x, m.fat1, Target(m), SelfOf(Before(m), m.place))
  {
    hide NodeAt, Stage, Batch, Nodes, After, Classify, NoneUsed, DotsRight, Live;
    EarlyEntry(m, x, m.place.index);
    NodeChain(m.g, m.d, m.fat, Target(m));
    LeafFrame(m.g, m.d, m.fat, x, m.fat1, Target(m), SelfOf(Before(m), m.place));
  }

  lemma Stage3Audited(m: Mutation)
    requires WellFormed(m)
    ensures Audited(m.g, Stage(m, 3), m.fat1, m.depth) && Nodes(m.g, Stage(m, 3), m.fat1, m.depth) == Some(Before(m))
  {
    hide WellFormed, Stage, Nodes, Located, Early, KeepsUsed;
    Basics(m);
    Stage3(m);
    OwnTableKeepsUsed(m);
    EarlyShows(m, Stage(m, 3), m.fat1, m.depth);
  }

  /** Equal sectors, equal view. */
  lemma SameSectors(g: Geometry, d: Disk, fat: seq<byte>, d': Disk, depth: nat, depth': nat)
    requires g.perCluster > 0 && IsTable(g, fat) && depth <= depth' && Nodes(g, d, fat, depth).Some?
    requires Alike(d, d')
    ensures Nodes(g, d', fat, depth') == Nodes(g, d, fat, depth)
  {
    hide Nodes;
    Frame(g, d, fat, d', fat, depth, depth');
  }

  /** A crash while one sector is written finds it old or new. */
  lemma OneWrite(base: Disk, s: Slot, e: Entry, x: Disk)
    requires Between(base, Writes(EntryBatch(base, s, e)), x)
    ensures Alike(base, x) || EntryChanged(base, x, s, e)
  {
    var w := Write(s.sector, SetEntry(At(base, s.sector), s.index, e));
    assert Writes(EntryBatch(base, s, e)) == [w];
    if At(x, s.sector) != At(base, s.sector) {
      assert Write(s.sector, At(x, s.sector)) == w;
    }
  }

  ghost function NextPlace(m: Mutation): Place
    requires Located(m)
  {
    m.place.(index := m.place.index + 1)
  }

  lemma ZeroEntry()
    ensures Classify(Zeros(32)) == EndMark
  {
  }

  lemma ClearNextUnseen(m: Mutation, x: Disk, depth: nat)
    requires WellFormed(m) && ClearsNext(m) && m.depth <= depth
    requires EntryChanged(Stage(m, 3), x, List(m)[m.place.index + 1], Zeros(32))
    ensures Nodes(m.g, x, m.fat1, depth) == Some(Before(m))
  {
    hide NodeAt, Stage, Batch, Nodes, After, Classify, NoneUsed, DotsRight, Live, Leaf, DirSlots, EntryAt, Early,
         RootSlots, EntryChanged;
    Stage3(m);
    Stage3Audited(m);
    EarlyEntry(m, Stage(m, 3), m.place.index);
    ZeroEntry();
    var next := List(m)[m.place.index + 1];
    var edit := Edit(Stage(m, 3), m.fat1, x, m.fat1, Some(next));
    OtherEntries(Stage(m, 3), x, next, Zeros(32), next);
    assert Classify(EntryAt(Stage(m, 3), List(m)[m.place.index])) == EndMark;
    assert Unreached(Stage(m, 3), List(m), m.place.index + 1);
    EraseUnseen(m.g, edit, m.depth, depth, NextPlace(m), Zeros(32));
  }

  /** During the clearing batch the next slot is as it was, or erased. */
  lemma ClearStates(m: Mutation, x: Disk)
    requires WellFormed(m) && Between(Stage(m, 3), Writes(Batch(m, 3)), x)
    ensures DiskTable(m.g, x, 0) == m.fat1 && DiskTable(m.g, x, 1) == m.fat1
    ensures || Alike(Stage(m, 3), x)
            || (ClearsNext(m) && EntryChanged(Stage(m, 3), x, List(m)[m.place.index + 1], Zeros(32)))
  {
    hide WellFormed, Stage, Nodes, Early, Classify, EntryAt, DiskTable, Located, Audited, Batch, List, EntryChanged;
    Basics(m);
    Stage3(m);
    ClearBatch(m);
    if ClearsNext(m) {
      var next := List(m)[m.place.index + 1];
      ListSector(m, m.place.index + 1);
      OneWrite(Stage(m, 3), next, Zeros(32), x);
      EntryKeepsTables(m.g, Stage(m, 3), next, Zeros(32), x);
    } else {
      SameTable(m.g, Stage(m, 3), x, 0);
      SameTable(m.g, Stage(m, 3), x, 1);
    }
  }

  lemma ClearShows(m: Mutation, x: Disk, depth: nat)
    requires WellFormed(m) && Between(Stage(m, 3), Writes(Batch(m, 3)), x) && m.depth <= depth
    ensures Nodes(m.g, x, m.fat1, depth) == Some(Before(m))
  {
    hide WellFormed, Stage, Nodes, Classify, EntryAt, DiskTable, Located, Audited, Batch, List, Between, EntryChanged,
         Before, Alike;
    Basics(m);
    ClearStates(m, x);
    Stage3Audited(m);
    if Alike(Stage(m, 3), x) {
      SameSectors(m.g, Stage(m, 3), m.fat1, x, m.depth, depth);
    } else {
      ClearNextUnseen(m, x, depth);
    }
  }

  lemma ClearCrash(m: Mutation, x: Disk)
    requires WellFormed(m) && Between(Stage(m, 3), Writes(Batch(m, 3)), x)
    ensures Shows(m.g, x, DepthAfter(m), Before(m))
  {
    hide WellFormed, Stage, Nodes, DiskTable, Located, Audited, Batch, Between, Before;
    Basics(m);
    ClearStates(m, x);
    ClearShows(m, x, DepthAfter(m));
  }

  lemma ClearBatch(m: Mutation)
    requires Located(m)
    ensures Batch(m, 3) == if ClearsNext(m) then EntryBatch(Stage(m, 3), List(m)[m.place.index + 1], Zeros(32)) else []
    ensures Batch(m, 4) == EntryBatch(Stage(m, 4), Target(m), m.entry)
    ensures IsBatch(Batch(m, 3)) && IsBatch(Batch(m, 4))
  {
    hide Located, Stage, SetEntry, At, Classify, EntryAt, Listing, Apply, TableBatch;
    if ClearsNext(m) { EntryIsBatch(Stage(m, 3), List(m)[m.place.index + 1], Zeros(32)); }
    EntryIsBatch(Stage(m, 4), Target(m), m.entry);
  }

  lemma EntryIsBatch(d: Disk, s: Slot, e: Entry)
    ensures IsBatch(EntryBatch(d, s, e))
  {
    hide SetEntry, At;
  }

  /** Entry writes never touch a table. */
  lemma EntryKeepsTables(g: Geometry, base: Disk, s: Slot, e: Entry, x: Disk)
    requires !s.sector.Table?
    requires Alike(base, x) || EntryChanged(base, x, s, e)
    ensures DiskTable(g, x, 0) == DiskTable(g, base, 0) && DiskTable(g, x, 1) == DiskTable(g, base, 1)
  {
    hide DiskTable;
    SameTable(g, base, x, 0);
    SameTable(g, base, x, 1);
  }

  /** Everything publication relies on, once the next slot is safe. */
  lemma Stage4(m: Mutation)
    requires WellFormed(m)
    ensures DiskTable(m.g, Stage(m, 4), 0) == m.fat1 && DiskTable(m.g, Stage(m, 4), 1) == m.fat1
    ensures Audited(m.g, Stage(m, 4), m.fat1, m.depth) && Nodes(m.g, Stage(m, 4), m.fat1, m.depth) == Some(Before(m))
    ensures !ClearsNext(m) ==> Stage(m, 4) == Stage(m, 3)
    ensures ClearsNext(m) ==> EntryChanged(Stage(m, 3), Stage(m, 4), List(m)[m.place.index + 1], Zeros(32))
  {
    hide WellFormed, Stage, Batch, Nodes, Classify, EntryAt, DiskTable, Located;
    Basics(m);
    ClearBatch(m);
    StageBetween(m, 3);
    ClearStates(m, Stage(m, 4));
    ClearShows(m, Stage(m, 4), m.depth);
    StageStep(m, 3);
    ApplyNothing(Stage(m, 3));
    if ClearsNext(m) {
      EntryBatchApplied(Stage(m, 3), List(m)[m.place.index + 1], Zeros(32));
    }
  }

  lemma EntryBatchApplied(d: Disk, s: Slot, e: Entry)
    ensures EntryChanged(d, Apply(d, EntryBatch(d, s, e)), s, e)
  {
    var w := Write(s.sector, SetEntry(At(d, s.sector), s.index, e));
    assert EntryBatch(d, s, e)[..1] == [w] && [w][..0] == [];
    assert Apply(d, [w]) == d[s.sector := w.data];
  }

  lemma Stage4Entry(m: Mutation, i: nat)
    requires WellFormed(m) && i < |List(m)|
    ensures !(ClearsNext(m) && i == m.place.index + 1) ==> EntryAt(Stage(m, 4), List(m)[i]) == EntryAt(m.d, List(m)[i])
    ensures ClearsNext(m) && i == m.place.index + 1 ==> Classify(EntryAt(Stage(m, 4), List(m)[i])) == EndMark
  {
    hide WellFormed, Stage, Nodes, Classify, EntryAt, DiskTable, Early, EntryChanged;
    Basics(m);
    Stage3(m);
    Stage4(m);
    EarlyEntry(m, Stage(m, 3), i);
    if ClearsNext(m) {
      ZeroEntry();
      OtherEntries(Stage(m, 3), Stage(m, 4), List(m)[m.place.index + 1], Zeros(32), List(m)[i]);
      if List(m)[i] == List(m)[m.place.index + 1] {
        PlaceUnique(m.g, m.d, m.fat, m.depth, m.place.(index := i), NextPlace(m));
      }
    }
  }

  lemma PublishEdit(m: Mutation) returns (edit: Edit)
    requires WellFormed(m)
    ensures edit == Edit(Stage(m, 4), m.fat1, Stage(m, 5), m.fat1, Some(Target(m)))
    ensures EditAt(m.g, edit, m.depth, DepthAfter(m), m.place, m.entry)
  {
    hide Stage, Nodes, Classify, EntryAt, DiskTable, Early, EntryChanged, NoneUsed, DotsRight, NodeAt, After, Exclusive,
         Batch, DirectoryBit, WasClear;
    var g, x, i := m.g, Stage(m, 4), m.place.index;
    edit := Edit(x, m.fat1, Stage(m, 5), m.fat1, Some(Target(m)));
    Stage4(m);
    Stage4Entry(m, i);
    ClearBatch(m);
    StageStep(m, 4);
    EntryBatchApplied(x, Target(m), m.entry);
    OtherEntries(x, Stage(m, 5), Target(m), m.entry, Target(m));
    forall j | 0 <= j < i
      ensures Classify(EntryAt(x, List(m)[j])) != EndMark
    {
      Stage4Entry(m, j);
    }
    PublishWasClear(m, edit);
    NodeIsDirectory(g, Stage(m, 5), m.fat1, Target(m));
    assert DeepEnough(g, edit, m.depth, DepthAfter(m));
  }

  lemma NodeIsDirectory(g: Geometry, d: Disk, fat: seq<byte>, s: Slot)
    requires g.perCluster > 0 && IsTable(g, fat)
    ensures NodeAt(g, d, fat, s).Some? ==> (NodeAt(g, d, fat, s).value.DirNode? <==> DirectoryBit(EntryAt(d, s)))
  {
  }

  /** The slot after the target is a different one. */
  lemma NextIsOther(m: Mutation)
    requires Located(m) && m.place.index + 1 < |List(m)| && Classify(EntryAt(m.d, Target(m))) == EndMark
    ensures List(m)[m.place.index + 1] != Target(m)
  {
    if List(m)[m.place.index + 1] == Target(m) {
      PlaceUnique(m.g, m.d, m.fat, m.depth, m.place, NextPlace(m));
    }
  }

  lemma PublishWasClear(m: Mutation, edit: Edit)
    requires WellFormed(m) && edit == Edit(Stage(m, 4), m.fat1, Stage(m, 5), m.fat1, Some(Target(m)))
    requires EntryChanged(Stage(m, 4), Stage(m, 5), Target(m), m.entry)
    ensures WasClear(m.g, edit, List(m), m.place.index, SelfOf(Before(m), m.place))
  {
    hide Stage, Nodes, Classify, EntryAt, DiskTable, Early, EntryChanged, NoneUsed, DotsRight, NodeAt, After, Exclusive,
         Batch, Leaf, Next, IsBatch, At, DirSlots, RootSlots, AfterDots, Reached;
    var i := m.place.index;
    Stage4(m);
    Stage4Entry(m, i);
    var kind := Classify(EntryAt(m.d, Target(m)));
    if kind == Used {
      Stage3(m);
      EarlyLeaf(m, Stage(m, 3));
    } else if kind == EndMark && i + 1 < |List(m)| {
      Stage4Entry(m, i + 1);
      NextIsOther(m);
      OtherEntries(Stage(m, 4), Stage(m, 5), Target(m), m.entry, List(m)[i + 1]);
    }
  }

  lemma Stage5(m: Mutation)
    requires WellFormed(m)
    ensures DiskTable(m.g, Stage(m, 5), 0) == m.fat1 && DiskTable(m.g, Stage(m, 5), 1) == m.fat1
    ensures Nodes(m.g, Stage(m, 5), m.fat1, DepthAfter(m)) == Some(After(m))
  {
    hide Stage, Nodes, Classify, EntryAt, DiskTable, NoneUsed, DotsRight, NodeAt, Exclusive, Batch, EditAt;
    var edit := PublishEdit(m);
    Stage4(m);
    ClearBatch(m);
    StageStep(m, 4);
    EntryBatchApplied(Stage(m, 4), Target(m), m.entry);
    ListSector(m, m.place.index);
    EntryKeepsTables(m.g, Stage(m, 4), Target(m), m.entry, Stage(m, 5));
    EditSlot(m.g, edit, m.depth, DepthAfter(m), m.place, m.entry);
  }

  /** During publication the entry is old or new; the tables do not move. */
  lemma PublishStates(m: Mutation, x: Disk)
    requires WellFormed(m) && Between(Stage(m, 4), Writes(Batch(m, 4)), x)
    ensures DiskTable(m.g, x, 0) == m.fat1 && DiskTable(m.g, x, 1) == m.fat1
    ensures Alike(Stage(m, 4), x) || Alike(Stage(m, 5), x)
  {
    hide WellFormed, Stage, Nodes, Classify, EntryAt, DiskTable, Located, Audited, Batch, List, Before, Between;
    Basics(m);
    Stage4(m);
    ClearBatch(m);
    StageStep(m, 4);
    EntryBatchApplied(Stage(m, 4), Target(m), m.entry);
    OneWrite(Stage(m, 4), Target(m), m.entry, x);
    TargetListed(m);
    ListSector(m, m.place.index);
    EntryKeepsTables(m.g, Stage(m, 4), Target(m), m.entry, x);
  }

  lemma PublishCrash(m: Mutation, x: Disk)
    requires WellFormed(m) && Between(Stage(m, 4), Writes(Batch(m, 4)), x)
    ensures Shows(m.g, x, DepthAfter(m), Before(m)) || Shows(m.g, x, DepthAfter(m), After(m))
  {
    hide WellFormed, Stage, Nodes, DiskTable, Located, Audited, Batch, After, Before, Between, Alike;
    Basics(m);
    PublishStates(m, x);
    Stage4(m);
    Stage5(m);
    if Alike(Stage(m, 5), x) {
      SameSectors(m.g, Stage(m, 5), m.fat1, x, DepthAfter(m), DepthAfter(m));
    } else {
      SameSectors(m.g, Stage(m, 4), m.fat1, x, m.depth, DepthAfter(m));
    }
  }

  // ----- Releasing the old chain ----------------------------------------------------------

  ghost predicate KeepsNew(m: Mutation, fat: seq<byte>)
    requires WellFormed(m) && IsTable(m.g, fat)
  {
    forall n, c :: n in After(m) && c in After(m)[n].clusters && ValidCluster(m.g, c) ==>
      Next(m.g, fat, c) == Next(m.g, m.fat1, c)
  }

  lemma LateShows(m: Mutation, x: Disk, fat: seq<byte>)
    requires WellFormed(m) && IsTable(m.g, fat) && KeepsNew(m, fat)
    requires forall a: Addr :: !a.Table? ==> At(x, a) == At(Stage(m, 5), a)
    ensures Nodes(m.g, x, fat, DepthAfter(m)) == Some(After(m))
  {
    hide WellFormed, Stage, Nodes, Located, Audited, Batch, After, Before;
    Basics(m);
    Stage5(m);
    Frame(m.g, Stage(m, 5), m.fat1, x, fat, DepthAfter(m), DepthAfter(m));
  }

  lemma OwnTablesKeepNew(m: Mutation)
    requires WellFormed(m)
    ensures KeepsNew(m, m.fat1) && KeepsNew(m, m.fat2)
  {
  }

  lemma MixedKeepsNew(m: Mutation, mixed: seq<byte>)
    requires WellFormed(m) && IsTable(m.g, mixed) && Mixed(m.g, m.fat1, m.fat2, mixed)
    ensures KeepsNew(m, mixed)
  {
    hide Mixed, Nodes, Leaf, Stage, Batch, After, Before;
    forall n, c | n in After(m) && c in After(m)[n].clusters && ValidCluster(m.g, c)
      ensures Next(m.g, mixed, c) == Next(m.g, m.fat1, c)
    {
      MixedNext(m.g, m.fat1, m.fat2, mixed, c);
    }
  }

  /** The state after `i` release batches: publication stands, tables advance. */
  lemma {:induction false} LateStage(m: Mutation, i: nat)
    requires WellFormed(m) && 5 <= i <= 7
    ensures forall a: Addr :: !a.Table? ==> At(Stage(m, i), a) == At(Stage(m, 5), a)
    ensures DiskTable(m.g, Stage(m, i), 0) == if i == 5 then m.fat1 else m.fat2
    ensures DiskTable(m.g, Stage(m, i), 1) == if i == 7 then m.fat2 else m.fat1
  {
    hide WellFormed, Stage, TableBatch, DiskTable, Located, Audited, Batch, Early, Nodes;
    Basics(m);
    BatchKinds(m);
    if i == 5 {
      Stage5(m);
    } else {
      LateStage(m, i - 1);
      StageStep(m, i - 1);
      InstallTable(m, Stage(m, i - 1), m.fat1, m.fat2, i - 6);
    }
  }

  lemma LateCrash(m: Mutation, i: nat, x: Disk)
    requires WellFormed(m) && 5 <= i <= 6 && Between(Stage(m, i), Writes(Batch(m, i)), x)
    ensures Shows(m.g, x, DepthAfter(m), After(m))
  {
    hide WellFormed, Stage, TableBatch, DiskTable, Located, Audited, Batch, KeepsNew, After, Mixed, Between;
    Basics(m);
    LateStage(m, i);
    BatchKinds(m);
    var copy := i - 5;
    CrashInTableBatch(m.g, Stage(m, i), m.fat1, m.fat2, copy, x);
    MixedKeepsNew(m, DiskTable(m.g, x, copy));
    OwnTablesKeepNew(m);
    SameTable(m.g, Stage(m, i), x, 1 - copy);
    LateShows(m, x, DiskTable(m.g, x, 0));
    LateShows(m, x, DiskTable(m.g, x, 1));
  }

  // ----- The theorems -----------------------------------------------------------------------

  lemma {:induction false} BatchesAre(m: Mutation, n: nat)
    requires WellFormed(m) && n <= BATCHES
    ensures |Batches(m, n)| == n
    ensures forall i :: 0 <= i < n ==> Batches(m, n)[i] == Batch(m, i) && IsBatch(Batch(m, i))
    ensures forall i :: 0 <= i <= n ==> Batches(m, n)[..i] == Batches(m, i)
    ensures Apply(m.d, Joined(Batches(m, n))) == Stage(m, n)
    decreases n
  {
    hide WellFormed, Stage, Batch, Located, Apply, IsBatch, Batches, Joined;
    Basics(m);
    FirstStage(m);
    BatchesShape(m, n);
    if n > 0 {
      BatchesAre(m, n - 1);
      BatchIsBatch(m, n - 1);
      JoinedStep(m, n);
      ApplyConcat(m.d, Joined(Batches(m, n - 1)), Batch(m, n - 1));
      StageStep(m, n - 1);
    } else {
      NoBatches(m);
      ApplyNothing(m.d);
    }
  }

  lemma NoBatches(m: Mutation)
    requires Located(m)
    ensures Joined(Batches(m, 0)) == []
  {
  }

  lemma {:induction false} BatchesShape(m: Mutation, n: nat)
    requires Located(m)
    ensures |Batches(m, n)| == n && forall i :: 0 <= i < n ==> Batches(m, n)[i] == Batch(m, i)
    ensures forall i :: 0 <= i <= n ==> Batches(m, n)[..i] == Batches(m, i)
    decreases n
  {
    hide Batch, Located;
    if n > 0 {
      BatchesShape(m, n - 1);
      var front := Batches(m, n - 1);
      assert Batches(m, n)[..n - 1] == front;
      assert forall i :: 0 <= i < n ==> Batches(m, n)[..i] == front[..i];
      assert Batches(m, n)[..n] == Batches(m, n);
    }
  }

  lemma BatchIsBatch(m: Mutation, i: nat)
    requires WellFormed(m) && i < BATCHES
    ensures IsBatch(Batch(m, i))
  {
    hide Stage, TableBatch, DiskTable, Leaf, Nodes, After;
    ClearBatch(m);
    BatchKinds(m);
    TableBatchShape(m.g, m.fat, m.fat1, 0);
    TableBatchShape(m.g, m.fat, m.fat1, 1);
    TableBatchShape(m.g, m.fat1, m.fat2, 0);
    TableBatchShape(m.g, m.fat1, m.fat2, 1);
  }

  lemma TableBatchShape(g: Geometry, fat: seq<byte>, fat': seq<byte>, copy: nat)
    requires IsTable(g, fat) && IsTable(g, fat')
    ensures IsBatch(TableBatch(g, fat, fat', copy))
  {
    hide TableSector, ChangedSectors;
    ChangedSectorsAre(g, fat, fat', copy, g.fatSectors);
    var changed := ChangedSectors(g, fat, fat', copy, g.fatSectors);
    assert (changed + [Flush])[..|changed|] == changed;
  }

  /** Crash atomicity. Cut the power after any number of the mutation's events,
      with any subset of the unflushed sectors on the medium: through either copy
      of the table the volume shows exactly the old files or exactly the new. */
  lemma CrashAtomic(m: Mutation, n: nat, d: Disk)
    requires WellFormed(m) && n <= |Plan(m)| && CrashState(m.d, Plan(m)[..n], d)
    ensures Shows(m.g, d, DepthAfter(m), Before(m)) || Shows(m.g, d, DepthAfter(m), After(m))
  {
    hide WellFormed, Stage, Batch, Batches, Located, Audited, CrashState, Between, Shows, Joined, After, Before;
    Basics(m);
    BatchesAre(m, BATCHES);
    var batches := Batches(m, BATCHES);
    var i := CrashInSomeBatch(m.d, batches, n, d);
    BatchesAre(m, i);
    if i < 3 {
      EarlyCrash(m, i, d);
    } else if i == 3 {
      ClearCrash(m, d);
    } else if i == 4 {
      PublishCrash(m, d);
    } else if i < 7 {
      LateCrash(m, i, d);
    } else {
      Completed(m, d);
    }
  }

  /** With every batch durable only the new files remain. */
  lemma Completed(m: Mutation, d: Disk)
    requires WellFormed(m) && Between(Stage(m, BATCHES), [], d)
    ensures Shows(m.g, d, DepthAfter(m), After(m))
  {
    hide WellFormed, Stage, DiskTable, Located, Audited, KeepsNew, After;
    Basics(m);
    LateStage(m, 7);
    OwnTablesKeepNew(m);
    assert Alike(Stage(m, 7), d);
    SameTable(m.g, Stage(m, 7), d, 0);
    SameTable(m.g, Stage(m, 7), d, 1);
    LateShows(m, d, m.fat2);
  }

  lemma AfterExclusive(m: Mutation)
    requires WellFormed(m)
    ensures Exclusive(After(m))
  {
    hide Stage, Batch, Nodes, Classify, EntryAt, NodeAt, NoneUsed, DotsRight;
  }

  /** The audit stays true. A completed mutation leaves a well-formed tree with
      disjoint chains, both tables equal to the cached one, and exactly the edited
      node changed. */
  lemma CompletedAudited(m: Mutation)
    requires WellFormed(m)
    ensures var d := Apply(m.d, Plan(m));
      && Audited(m.g, d, m.fat2, DepthAfter(m))
      && Nodes(m.g, d, m.fat2, DepthAfter(m)) == Some(After(m))
      && DiskTable(m.g, d, 0) == m.fat2 && DiskTable(m.g, d, 1) == m.fat2
  {
    hide WellFormed, Stage, Batch, Batches, Located, Nodes, DiskTable, KeepsNew, After, Before;
    Basics(m);
    BatchesAre(m, BATCHES);
    LateStage(m, 7);
    OwnTablesKeepNew(m);
    LateShows(m, Stage(m, 7), m.fat2);
    AfterExclusive(m);
  }

  /** Every crash during the run shows one of two views. */
  ghost predicate AtomicRun(g: Geometry, d0: Disk, run: seq<Event>, depth: nat, before: map<Slot, Node>,
                            after: map<Slot, Node>)
    requires g.Valid()
  {
    forall n: nat, d: Disk {:trigger CrashState(d0, run[..n], d)} :: n <= |run| && CrashState(d0, run[..n], d) ==>
      Shows(g, d, depth, before) || Shows(g, d, depth, after)
  }

  /** A mutation that stops early, for whatever reason, is atomic too. */
  lemma PrefixAtomic(m: Mutation, run: seq<Event>)
    requires WellFormed(m) && run <= Plan(m)
    ensures AtomicRun(m.g, m.d, run, DepthAfter(m), Before(m), After(m))
  {
    hide WellFormed, Stage, Batch, Batches, Located, Audited, CrashState, Shows, Joined, After, Before, Plan;
    Basics(m);
    forall n: nat, d: Disk | n <= |run| && CrashState(m.d, run[..n], d)
      ensures Shows(m.g, d, DepthAfter(m), Before(m)) || Shows(m.g, d, DepthAfter(m), After(m))
    {
      assert run[..n] == Plan(m)[..n];
      CrashAtomic(m, n, d);
    }
  }

  /** The plan by its four flushed phases. */
  lemma PlanPhases(m: Mutation)
    requires Located(m)
    ensures Plan(m) ==
      Batch(m, 0) + (Batch(m, 1) + Batch(m, 2)) + (Batch(m, 3) + Batch(m, 4)) + (Batch(m, 5) + Batch(m, 6))
  {
    hide Batch, Located, Stage, Joined, Batches;
    PublishedPhases(m);
    JoinedStep(m, 6);
    JoinedStep(m, 7);
    RegroupLast(Joined(Batches(m, 5)), Batch(m, 5), Batch(m, 6));
  }

  lemma RegroupLast(a: seq<Event>, b: seq<Event>, c: seq<Event>)
    ensures a + b + c == a + (b + c)
  {
  }

  lemma JoinedStep(m: Mutation, n: nat)
    requires Located(m) && n > 0
    ensures Joined(Batches(m, n)) == Joined(Batches(m, n - 1)) + Batch(m, n - 1)
    ensures n == 1 ==> Joined(Batches(m, n)) == Batch(m, 0)
  {
    hide Batch, Located, Stage;
    var front := Batches(m, n - 1);
    assert Batches(m, n)[..|front|] == front;
  }

  /** Once the entry is flushed the new view is durable, even if a later step fails. */
  lemma CommittedDurable(m: Mutation, run: seq<Event>, d: Disk)
    requires WellFormed(m) && Joined(Batches(m, 5)) <= run <= Plan(m) && CrashState(m.d, run, d)
    ensures Shows(m.g, d, DepthAfter(m), After(m))
  {
    hide WellFormed, Stage, Batch, Batches, Located, Audited, CrashState, Between, Shows, Joined, After, Before;
    Basics(m);
    BatchesAre(m, BATCHES);
    var batches := Batches(m, BATCHES);
    assert Plan(m)[..|run|] == run;
    var i := CrashInSomeBatch(m.d, batches, |run|, d);
    if i < 5 {
      JoinedMonotone(batches, i + 1, 5);
      assert false;
    }
    BatchesAre(m, i);
    if i < 7 {
      LateCrash(m, i, d);
    } else {
      Completed(m, d);
    }
  }

  lemma {:induction false} JoinedMonotone(batches: seq<seq<Event>>, i: nat, j: nat)
    requires i <= j <= |batches|
    ensures |Joined(batches[..i])| <= |Joined(batches[..j])|
    decreases j
  {
    if i < j {
      JoinedMonotone(batches, i, j - 1);
      assert batches[..j][..j - 1] == batches[..j - 1];
    }
  }

  lemma PublishedPhases(m: Mutation)
    requires Located(m)
    ensures Joined(Batches(m, 5)) == Batch(m, 0) + (Batch(m, 1) + Batch(m, 2)) + (Batch(m, 3) + Batch(m, 4))
  {
    assert Joined(Batches(m, 0)) == [];
    hide Batch, Located, Stage, Joined, Batches;
    JoinedStep(m, 1);
    JoinedStep(m, 2);
    JoinedStep(m, 3);
    JoinedStep(m, 4);
    JoinedStep(m, 5);
    Regroup(Batch(m, 0), Batch(m, 1), Batch(m, 2), Batch(m, 3), Batch(m, 4));
  }

  lemma Regroup(a: seq<Event>, b: seq<Event>, c: seq<Event>, d: seq<Event>, e: seq<Event>)
    ensures [] + a + b + c + d + e == a + (b + c) + (d + e)
  {
  }

  /** Before anything is issued only the old view can be found. */
  lemma NothingIssued(g: Geometry, d: Disk, fat: seq<byte>, depth: nat, depth': nat, run: seq<Event>,
                      after: map<Slot, Node>)
    requires Audited(g, d, fat, depth) && DiskTable(g, d, 0) == fat && DiskTable(g, d, 1) == fat && depth <= depth'
    requires forall i :: 0 <= i < |run| ==> run[i].Flush?
    ensures AtomicRun(g, d, run, depth', Nodes(g, d, fat, depth).value, after)
  {
    hide Nodes, DiskTable, Exclusive;
    forall n: nat, x: Disk | n <= |run| && CrashState(d, run[..n], x)
      ensures Shows(g, x, depth', Nodes(g, d, fat, depth).value)
    {
      FlushesOnly(d, run[..n]);
      assert Alike(d, x);
      SameTable(g, d, x, 0);
      SameTable(g, d, x, 1);
      SameSectors(g, d, fat, x, depth, depth');
    }
  }

  lemma {:induction false} FlushesOnly(d: Disk, run: seq<Event>)
    requires forall i :: 0 <= i < |run| ==> run[i].Flush?
    ensures Apply(d, run) == d && Durable(d, run) == d && Pending(run) == []
    decreases |run|
  {
    if run != [] { FlushesOnly(d, run[..|run| - 1]); }
  }
}
