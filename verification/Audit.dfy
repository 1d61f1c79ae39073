/** The mount audit: one walk over every live entry that claims each cluster for
    exactly one chain. */
module Audit {
  import opened Common
  import opened Disk
  import opened Errors
  import opened Fat
  import opened Layout
  import opened Tree
  import opened View
  import opened Entries
  import opened Search
  import opened Volume
  import opened Names
  import opened Levels

  ghost predicate Owned(g: Geometry, d: Disk, fat: seq<byte>, live: set<Slot>, c: nat)
    requires g.perCluster > 0 && IsTable(g, fat)
  {
    exists s :: s in live && c in Owns(g, d, fat, s)
  }

  /** `live` took its clusters, and no others, from what `before` left and shares none of them. */
  ghost predicate Claimed(g: Geometry, d: Disk, fat: seq<byte>, live: set<Slot>, before: seq<bool>, after: seq<bool>)
    requires g.perCluster > 0 && IsTable(g, fat)
  {
    && |before| == |after| == g.clusters + 2
    && (forall c :: 0 <= c < |before| && before[c] ==> after[c])
    && (forall c :: 0 <= c < |after| && after[c] ==> before[c] || Owned(g, d, fat, live, c))
    && (forall s, c: nat {:trigger c in Owns(g, d, fat, s)} :: s in live && c in Owns(g, d, fat, s) ==>
          c < |after| && after[c] && !before[c])
    && (forall s, t, c: nat :: s in live && t in live && s != t && c in Owns(g, d, fat, s) ==> c !in Owns(g, d, fat, t))
  }

  ghost function Owns(g: Geometry, d: Disk, fat: seq<byte>, s: Slot): seq<nat>
    requires g.perCluster > 0 && IsTable(g, fat)
  {
    if NodeAt(g, d, fat, s).Some? then NodeAt(g, d, fat, s).value.clusters else []
  }

  lemma ClaimedTogether(g: Geometry, d: Disk, fat: seq<byte>, live: set<Slot>, more: set<Slot>,
                        before: seq<bool>, middle: seq<bool>, after: seq<bool>)
    requires g.perCluster > 0 && IsTable(g, fat)
    requires Claimed(g, d, fat, live, before, middle) && Claimed(g, d, fat, more, middle, after)
    ensures Claimed(g, d, fat, live + more, before, after)
  {
    hide NodeAt;
    forall s, c: nat | s in live + more && c in Owns(g, d, fat, s)
      ensures c < |after| && after[c] && !before[c]
    {
    }
    forall s, t, c: nat | s in live + more && t in live + more && s != t && c in Owns(g, d, fat, s)
      ensures c !in Owns(g, d, fat, t)
    {
      if s in live && t in more { assert middle[c]; }
      if s in more && t in live { assert !middle[c]; }
    }
    forall c | 0 <= c < |after| && after[c] && !before[c]
      ensures Owned(g, d, fat, live + more, c)
    {
      var s :| (s in live || s in more) && c in Owns(g, d, fat, s);
      assert s in live + more;
    }
  }

  lemma ClaimedNothing(g: Geometry, d: Disk, fat: seq<byte>, owners: seq<bool>)
    requires g.perCluster > 0 && IsTable(g, fat) && |owners| == g.clusters + 2
    ensures Claimed(g, d, fat, {}, owners, owners)
  {
  }

  /** Mark one chain; refused exactly if some cluster of it is already taken. */
  method OwnChain(v: FatVolume, owners: array<bool>, first: nat, length: nat, ghost ch: seq<nat>)
    returns (error: FsError)
    requires v.Mounted() && owners.Length == v.g.clusters + 2
    requires length == |ch| && (ch != [] ==> Chain(v.g, v.fat, first) == Some(ch))
    modifies owners
    ensures error == Ok <==> forall c :: c in ch ==> ValidCluster(v.g, c) && !old(owners[..])[c]
    ensures error in {Ok, IoError}
    ensures forall c :: 0 <= c < owners.Length && c !in ch ==> owners[c] == old(owners[c])
    ensures error == Ok ==> forall c :: c in ch ==> owners[..][c]
  {
    hide Chain;
    if ch != [] { ChainExactly(v.g, v.fat, first, ch); }
    var cluster := first;
    for i := 0 to length
      invariant i < |ch| ==> cluster == ch[i]
      invariant forall j :: 0 <= j < i ==> owners[ch[j]] && !old(owners[ch[j]])
      invariant forall c :: 0 <= c < owners.Length && c !in ch[..i] ==> owners[c] == old(owners[c])
    {
      assert ch[i] !in ch[..i];
      if owners[cluster] {
        assert ch[i] in ch;
        return IoError;
      }
      owners[cluster] := true;
      assert ch[..i + 1] == ch[..i] + [ch[i]];
      if i + 1 < |ch| { assert Next(v.g, v.fat, ch[i]) == ch[i + 1]; }
      cluster := Next(v.g, v.fat, cluster);
    }
    assert ch[..length] == ch;
    error := Ok;
  }

  // ----- What the audit may count on -------------------------------------------------------------

  predicate Unmarked(owners: seq<bool>, c: nat) { c < |owners| && !owners[c] }

  /** Nothing from `low` levels below `top` on down has been marked. */
  ghost predicate AllUnmarked(g: Geometry, nodes: map<Slot, Node>, top: Option<Slot>, low: nat, owners: seq<bool>) {
    forall x, n: nat, c: nat {:trigger Below(g, nodes, top, Some(x), n), c in nodes[x].clusters} ::
      n >= low && x in nodes && Below(g, nodes, top, Some(x), n) && c in nodes[x].clusters ==> Unmarked(owners, c)
  }

  /** An entry of a good volume that the audit has not come to yet. */
  ghost predicate EntryDue(v: State, nodes: map<Slot, Node>, s: Slot, self: nat, level: nat, owners: seq<bool>) {
    && Sound(v, nodes) && v.depth == PATH_DEPTH && level < PATH_DEPTH + 1 && s in nodes
    && Below(v.g, nodes, None, Some(s), level + 1) && AllUnmarked(v.g, nodes, Some(s), 0, owners)
    && v.g.perCluster > 0 && IsTable(v.g, v.fat) && Held(v.g, v.d, v.fat, s, self, PATH_DEPTH - level).Some?
  }

  /** A directory of a good volume whose entries the audit has not come to yet. */
  ghost predicate DirDue(v: State, nodes: map<Slot, Node>, id: Option<Slot>, level: nat, owners: seq<bool>) {
    && Sound(v, nodes) && v.depth == PATH_DEPTH && IsDirId(nodes, id) && Below(v.g, nodes, None, id, level)
    && AllUnmarked(v.g, nodes, id, 1, owners)
  }

  /** What was found so far lies below the first `i` slots. */
  ghost predicate Found(g: Geometry, nodes: map<Slot, Node>, list: seq<Slot>, i: nat, live: set<Slot>) {
    live <= nodes.Keys && forall s :: s in live ==> InPart(g, nodes, list, i, s)
  }

  ghost predicate InPart(g: Geometry, nodes: map<Slot, Node>, list: seq<Slot>, i: nat, s: Slot) {
    exists j, n: nat {:trigger Below(g, nodes, Some(list[j]), Some(s), n)} ::
      0 <= j < i && j < |list| && list[j] in nodes && Below(g, nodes, Some(list[j]), Some(s), n)
  }

  lemma FoundNothing(g: Geometry, nodes: map<Slot, Node>, list: seq<Slot>)
    ensures Found(g, nodes, list, 0, {})
  {
  }

  lemma FoundMore(v: State, nodes: map<Slot, Node>, list: seq<Slot>, i: nat, live: set<Slot>, self: nat, depth: nat)
    requires Sound(v, nodes) && v.g.perCluster > 0 && IsTable(v.g, v.fat)
    requires i < |list| && Found(v.g, nodes, list, i, live)
    requires var more := Held(v.g, v.d, v.fat, list[i], self, depth); more.Some? && more.value <= nodes.Keys
    ensures Found(v.g, nodes, list, i + 1, live + Held(v.g, v.d, v.fat, list[i], self, depth).value)
  {
    hide Sound, Held, Below;
    var more := Held(v.g, v.d, v.fat, list[i], self, depth).value;
    forall s | s in live + more
      ensures InPart(v.g, nodes, list, i + 1, s)
    {
      if s in live {
        var j, n: nat :| 0 <= j < i && j < |list| && list[j] in nodes && Below(v.g, nodes, Some(list[j]), Some(s), n);
      } else {
        var n := HeldBelow(v, nodes, list[i], self, depth, s);
      }
    }
  }

  lemma FoundSkip(g: Geometry, nodes: map<Slot, Node>, list: seq<Slot>, i: nat, live: set<Slot>)
    requires Found(g, nodes, list, i, live)
    ensures Found(g, nodes, list, i + 1, live)
  {
    hide Below;
    forall s | s in live
      ensures InPart(g, nodes, list, i + 1, s)
    {
      var j, n: nat :| 0 <= j < i && j < |list| && list[j] in nodes && Below(g, nodes, Some(list[j]), Some(s), n);
    }
  }

  /** What lies below the next slot is not among what was found. */
  lemma NextIsApart(v: State, nodes: map<Slot, Node>, id: Option<Slot>, level: nat, i: nat, live: set<Slot>, x: Slot,
                    n: nat)
    requires Sound(v, nodes) && IsDirId(nodes, id) && Below(v.g, nodes, None, id, level)
    requires i < |SlotsOf(v.g, nodes, id)| && SlotsOf(v.g, nodes, id)[i] in nodes
    requires Found(v.g, nodes, SlotsOf(v.g, nodes, id), i, live)
    requires Below(v.g, nodes, Some(SlotsOf(v.g, nodes, id)[i]), Some(x), n)
    ensures x !in live
  {
    hide Sound, SlotsOf, Below;
    var list := SlotsOf(v.g, nodes, id);
    if x in live {
      assert InPart(v.g, nodes, list, i, x);
      var j, m: nat :| 0 <= j < i && j < |list| && list[j] in nodes && Below(v.g, nodes, Some(list[j]), Some(x), m);
      Apart(v, nodes, id, level, i, j, x, n, m);
    }
  }

  /** Marking what was found leaves everything below the next slot unmarked. */
  lemma NextUnmarked(v: State, nodes: map<Slot, Node>, id: Option<Slot>, level: nat, i: nat, live: set<Slot>,
                     before: seq<bool>, after: seq<bool>)
    requires DirDue(v, nodes, id, level, before) && v.g.perCluster > 0 && IsTable(v.g, v.fat)
    requires i < |SlotsOf(v.g, nodes, id)| && SlotsOf(v.g, nodes, id)[i] in nodes
    requires Found(v.g, nodes, SlotsOf(v.g, nodes, id), i, live) && Claimed(v.g, v.d, v.fat, live, before, after)
    ensures AllUnmarked(v.g, nodes, Some(SlotsOf(v.g, nodes, id)[i]), 0, after)
  {
    hide Sound, SlotsOf, Below, Owns;
    var s := SlotsOf(v.g, nodes, id)[i];
    forall x, n: nat, c: nat | x in nodes && Below(v.g, nodes, Some(s), Some(x), n) && c in nodes[x].clusters
      ensures Unmarked(after, c)
    {
      ChildBelow(v.g, nodes, id, s);
      BelowJoin(v.g, nodes, id, Some(s), Some(x), 1, n);
      assert Unmarked(before, c);
      if after[c] {
        var t :| t in live && c in Owns(v.g, v.d, v.fat, t);
        NextIsApart(v, nodes, id, level, i, live, x, n);
        SharesNothing(v, nodes, x, t, c);
      }
    }
  }

  lemma SharesNothing(v: State, nodes: map<Slot, Node>, x: Slot, t: Slot, c: nat)
    requires Sound(v, nodes) && x in nodes && t in nodes && c in nodes[x].clusters
    requires v.g.perCluster > 0 && IsTable(v.g, v.fat) && c in Owns(v.g, v.d, v.fat, t)
    ensures x == t
  {
    hide Nodes, NodeAt;
    SoundNode(v, nodes, t);
  }

  /** Marking a directory's own chain leaves everything below it unmarked. */
  lemma BelowUnmarked(v: State, nodes: map<Slot, Node>, s: Slot, self: nat, level: nat, before: seq<bool>,
                      after: seq<bool>)
    requires EntryDue(v, nodes, s, self, level, before) && |after| == |before|
    requires forall c :: 0 <= c < |before| && c !in nodes[s].clusters ==> after[c] == before[c]
    ensures AllUnmarked(v.g, nodes, Some(s), 1, after)
  {
    hide Nodes, Below, Held, NodeAt;
    forall x, n: nat, c: nat | n >= 1 && x in nodes && Below(v.g, nodes, Some(s), Some(x), n) && c in nodes[x].clusters
      ensures Unmarked(after, c)
    {
      assert Unmarked(before, c);
      if x == s {
        BelowJoin(v.g, nodes, None, Some(s), Some(s), level + 1, n);
        OneLevel(v, nodes, Some(s), level + 1, level + 1 + n);
      }
    }
  }

  // ----- What the audit costs ----------------------------------------------------------------------

  ghost function WeightOf(g: Geometry, d: Disk, fat: seq<byte>, live: set<Slot>): nat
    requires g.perCluster > 0 && IsTable(g, fat)
  {
    Weight(g, d, NodesOf(g, d, fat, live))
  }

  lemma NodesTogether(g: Geometry, d: Disk, fat: seq<byte>, a: set<Slot>, b: set<Slot>)
    requires g.perCluster > 0 && IsTable(g, fat)
    ensures NodesOf(g, d, fat, a + b) == NodesOf(g, d, fat, a) + NodesOf(g, d, fat, b)
  {
    hide NodeAt;
  }

  lemma WeightApart(g: Geometry, d: Disk, fat: seq<byte>, a: set<Slot>, b: set<Slot>)
    requires g.perCluster > 0 && IsTable(g, fat) && a !! b
    ensures WeightOf(g, d, fat, a + b) == WeightOf(g, d, fat, a) + WeightOf(g, d, fat, b)
  {
    hide NodeAt, Weight;
    NodesTogether(g, d, fat, a, b);
    WeightJoins(g, d, NodesOf(g, d, fat, a), NodesOf(g, d, fat, b));
  }

  /** A directory has a cluster, so what was claimed in turn has no directory in common. */
  lemma WeightClaimed(g: Geometry, d: Disk, fat: seq<byte>, a: set<Slot>, b: set<Slot>, before: seq<bool>,
                      middle: seq<bool>, after: seq<bool>)
    requires g.perCluster > 0 && IsTable(g, fat)
    requires Claimed(g, d, fat, a, before, middle) && Claimed(g, d, fat, b, middle, after)
    ensures WeightOf(g, d, fat, a + b) == WeightOf(g, d, fat, a) + WeightOf(g, d, fat, b)
  {
    hide NodeAt, Weight;
    forall s | s in NodesOf(g, d, fat, a) && s in NodesOf(g, d, fat, b)
      ensures NodeAt(g, d, fat, s).value.FileNode?
    {
      var node := NodeAt(g, d, fat, s).value;
      if node.DirNode? { var c := DirHasCluster(g, d, fat, s); }
    }
    NodesTogether(g, d, fat, a, b);
    WeightJoins(g, d, NodesOf(g, d, fat, a), NodesOf(g, d, fat, b));
  }

  lemma DirHasCluster(g: Geometry, d: Disk, fat: seq<byte>, s: Slot) returns (c: nat)
    requires g.perCluster > 0 && IsTable(g, fat) && NodeAt(g, d, fat, s).Some? && NodeAt(g, d, fat, s).value.DirNode?
    ensures c in Owns(g, d, fat, s)
  {
    hide Chain, EntryAt, DirSlots;
    ChainIsChain(g, fat, First(EntryAt(d, s)));
    c := NodeAt(g, d, fat, s).value.clusters[0];
  }

  lemma WeightLess(g: Geometry, d: Disk, fat: seq<byte>, a: set<Slot>, b: set<Slot>)
    requires g.perCluster > 0 && IsTable(g, fat) && a <= b
    ensures WeightOf(g, d, fat, a) <= WeightOf(g, d, fat, b)
  {
    hide NodeAt, Weight;
    WeightPart(g, d, NodesOf(g, d, fat, a), NodesOf(g, d, fat, b));
  }

  lemma WeightSingle(g: Geometry, d: Disk, fat: seq<byte>, s: Slot)
    requires g.perCluster > 0 && IsTable(g, fat) && NodeAt(g, d, fat, s).Some?
    ensures var node := NodeAt(g, d, fat, s).value;
      WeightOf(g, d, fat, {s}) == if node.DirNode? then Extent(d, DirSlots(g, node.clusters)) else 0
  {
    hide NodeAt, Weight, Extent, DirSlots;
    assert NodesOf(g, d, fat, {s}) == map[s := NodeAt(g, d, fat, s).value];
    WeightOne(g, d, s, NodeAt(g, d, fat, s).value);
  }

  lemma WeightEmpty(g: Geometry, d: Disk, fat: seq<byte>)
    requires g.perCluster > 0 && IsTable(g, fat)
    ensures WeightOf(g, d, fat, {}) == 0
  {
    hide NodeAt, Weight;
    assert NodesOf(g, d, fat, {}) == map[];
    WeightNone(g, d);
  }

  /** The slots of the directory being audited, from its own chain. */
  ghost function Slots(g: Geometry, dir: Dir, ch: seq<nat>): seq<Slot> {
    if dir.RootDir? then RootSlots(g) else DirSlots(g, ch)
  }

  ghost function Items(g: Geometry, dir: Dir, ch: seq<nat>): seq<Slot> {
    if dir.RootDir? then RootSlots(g) else AfterDots(DirSlots(g, ch))
  }

  ghost predicate Opened(v: FatVolume, dir: Dir, ch: seq<nat>)
    reads v
  {
    v.Mounted() && (dir.SubDir? ==> Chain(v.g, v.fat, dir.first) == Some(ch) && dir.length == |ch|)
  }

  /** The volume as an audit sees it, and its tree if it is a good one. */
  ghost function Whole(v: FatVolume): State
    reads v
  {
    State(v.g, v.disk, v.fat, PATH_DEPTH)
  }

  ghost function TreeAt(v: State): map<Slot, Node> {
    if v.g.perCluster > 0 && IsTable(v.g, v.fat) && Nodes(v.g, v.d, v.fat, v.depth).Some?
    then Nodes(v.g, v.d, v.fat, v.depth).value else map[]
  }

  /** A directory of a good volume, with `allowance` enough for what lies below it. */
  ghost predicate DirGood(v: State, dir: Dir, ch: seq<nat>, parent: nat, level: nat, owners: seq<bool>, allowance: nat)
    requires v.g.perCluster > 0 && IsTable(v.g, v.fat)
  {
    && DirDue(v, TreeAt(v), IdOf(dir), level, owners) && level <= PATH_DEPTH
    && (dir.SubDir? ==>
          && TreeAt(v)[dir.slot].clusters == ch && First(TreeAt(v)[dir.slot].entry) == dir.first
          && DotsRight(v.d, DirSlots(v.g, ch), dir.first, parent))
    && var live := Live(v.g, v.d, v.fat, Items(v.g, dir, ch), FirstOf(dir), PATH_DEPTH - level);
       && live.Some? && live.value <= TreeAt(v).Keys
       && Extent(v.d, Slots(v.g, dir, ch)) + WeightOf(v.g, v.d, v.fat, live.value) <= allowance
  }

  ghost predicate EntryGood(v: State, s: Slot, self: nat, level: nat, owners: seq<bool>, allowance: nat)
    requires v.g.perCluster > 0 && IsTable(v.g, v.fat)
  {
    && EntryDue(v, TreeAt(v), s, self, level, owners)
    && Held(v.g, v.d, v.fat, s, self, PATH_DEPTH - level).value <= TreeAt(v).Keys
    && WeightOf(v.g, v.d, v.fat, Held(v.g, v.d, v.fat, s, self, PATH_DEPTH - level).value) <= allowance
  }

  lemma ItemsAre(v: State, dir: Dir, ch: seq<nat>, parent: nat, level: nat, owners: seq<bool>, allowance: nat)
    requires v.g.perCluster > 0 && IsTable(v.g, v.fat) && DirGood(v, dir, ch, parent, level, owners, allowance)
    ensures SlotsOf(v.g, TreeAt(v), IdOf(dir)) == Items(v.g, dir, ch)
  {
    hide Live, Nodes, Sound, AllUnmarked, Below, Extent, Weight, DotsRight, RootSlots, DirSlots;
  }

  /** With allowance for the whole directory it is not used up before the end. */
  lemma EnoughLeft(v: State, dir: Dir, ch: seq<nat>, parent: nat, level: nat, owners: seq<bool>, allowance: nat,
                   cursor: nat, live: set<Slot>)
    requires v.g.perCluster > 0 && IsTable(v.g, v.fat) && DirGood(v, dir, ch, parent, level, owners, allowance)
    requires cursor < |Slots(v.g, dir, ch)| && Open(v.d, Slots(v.g, dir, ch), cursor)
    requires live <= Live(v.g, v.d, v.fat, Items(v.g, dir, ch), FirstOf(dir), PATH_DEPTH - level).value
    ensures cursor + WeightOf(v.g, v.d, v.fat, live) < allowance
  {
    hide Live, Nodes, Sound, AllUnmarked, Below, Extent, Weight, DotsRight, RootSlots, DirSlots, Classify, EntryAt;
    ExtentEnds(v.d, Slots(v.g, dir, ch), cursor);
    WeightLess(v.g, v.d, v.fat, live,
               Live(v.g, v.d, v.fat, Items(v.g, dir, ch), FirstOf(dir), PATH_DEPTH - level).value);
  }

  /** In a good directory the next entry is good, and what is left suffices for it. */
  lemma NextIsGood(v: State, dir: Dir, ch: seq<nat>, parent: nat, level: nat, before: seq<bool>, after: seq<bool>,
                   allowance: nat, i: nat, live: set<Slot>, left: nat)
    requires v.g.perCluster > 0 && IsTable(v.g, v.fat) && DirGood(v, dir, ch, parent, level, before, allowance)
    requires i < |Items(v.g, dir, ch)| && i + Skip(dir) < |Slots(v.g, dir, ch)|
    requires Open(v.d, Slots(v.g, dir, ch), i + Skip(dir)) && Classify(EntryAt(v.d, Items(v.g, dir, ch)[i])) == Used
    requires Scanned(v.g, v.d, v.fat, Items(v.g, dir, ch), FirstOf(dir), PATH_DEPTH - level, i, live)
    requires Found(v.g, TreeAt(v), Items(v.g, dir, ch), i, live) && Claimed(v.g, v.d, v.fat, live, before, after)
    requires allowance == left + i + Skip(dir) + 1 + WeightOf(v.g, v.d, v.fat, live)
    ensures EntryGood(v, Items(v.g, dir, ch)[i], FirstOf(dir), level, after, left)
  {
    hide Nodes, Sound, AllUnmarked, Below, Extent, Weight, DotsRight, RootSlots, DirSlots, Classify, EntryAt, WeightOf,
         SlotsOf, Found, Claimed, Held, TreeAt, Slots;
    var list, nodes, self, depth := Items(v.g, dir, ch), TreeAt(v), FirstOf(dir), PATH_DEPTH - level;
    var s := list[i];
    ItemsAre(v, dir, ch, parent, level, before, allowance);
    assert list[i..][0] == s;
    var more := Held(v.g, v.d, v.fat, s, self, depth).value;
    HeldItself(v.g, v.d, v.fat, s, self, depth);
    assert s in Live(v.g, v.d, v.fat, list, self, depth).value;
    ChildBelow(v.g, nodes, IdOf(dir), s);
    BelowJoin(v.g, nodes, None, IdOf(dir), Some(s), level, 1);
    NextUnmarked(v, nodes, IdOf(dir), level, i, live, before, after);
    forall x | x in more
      ensures x !in live
    {
      var n := HeldBelow(v, nodes, s, self, depth, x);
      NextIsApart(v, nodes, IdOf(dir), level, i, live, x, n);
    }
    WeightApart(v.g, v.d, v.fat, live, more);
    EnoughLeft(v, dir, ch, parent, level, before, allowance, i + Skip(dir), live + more);
  }

  lemma HeldItself(g: Geometry, d: Disk, fat: seq<byte>, s: Slot, self: nat, depth: nat)
    requires g.perCluster > 0 && IsTable(g, fat) && Held(g, d, fat, s, self, depth).Some?
    ensures s in Held(g, d, fat, s, self, depth).value
  {
    hide NodeAt, Live, DotsRight;
  }

  /** Once its own chain is marked, a good entry that is a directory can be gone through. */
  lemma SubIsGood(v: State, s: Slot, self: nat, level: nat, before: seq<bool>, after: seq<bool>, allowance: nat,
                  length: nat)
    requires v.g.perCluster > 0 && IsTable(v.g, v.fat) && EntryGood(v, s, self, level, before, allowance)
    requires NodeAt(v.g, v.d, v.fat, s).Some? && NodeAt(v.g, v.d, v.fat, s).value.DirNode? && |after| == |before|
    requires forall c :: 0 <= c < |before| && c !in NodeAt(v.g, v.d, v.fat, s).value.clusters ==> after[c] == before[c]
    ensures DirGood(v, SubDir(s, First(EntryAt(v.d, s)), length), NodeAt(v.g, v.d, v.fat, s).value.clusters, self,
                    level + 1, after, allowance)
  {
    hide Nodes, Sound, AllUnmarked, Below, Extent, Weight, DotsRight, RootSlots, DirSlots, Classify, EntryAt, WeightOf,
         TreeAt, NodeAt, Live;
    var nodes, ch, first := TreeAt(v), NodeAt(v.g, v.d, v.fat, s).value.clusters, First(EntryAt(v.d, s));
    SoundNode(v, nodes, s);
    NodeEntry(v.g, v.d, v.fat, s);
    BelowUnmarked(v, nodes, s, self, level, before, after);
    var slots, depth := AfterDots(DirSlots(v.g, ch)), PATH_DEPTH - level - 1;
    var below := Live(v.g, v.d, v.fat, slots, first, depth).value;
    if s in below {
      NotBelowItself(v, nodes, s, level + 1, first, depth);
    }
    WeightApart(v.g, v.d, v.fat, {s}, below);
    WeightSingle(v.g, v.d, v.fat, s);
  }

  lemma NotBelowItself(v: State, nodes: map<Slot, Node>, s: Slot, level: nat, self: nat, depth: nat)
    requires Sound(v, nodes) && s in nodes && Below(v.g, nodes, None, Some(s), level) && nodes[s].DirNode?
    requires v.g.perCluster > 0 && IsTable(v.g, v.fat)
    requires var live := Live(v.g, v.d, v.fat, SlotsOf(v.g, nodes, Some(s)), self, depth);
      live.Some? && live.value <= nodes.Keys
    ensures s !in Live(v.g, v.d, v.fat, SlotsOf(v.g, nodes, Some(s)), self, depth).value
  {
    hide Sound, SlotsOf, Below, Live;
    var slots := SlotsOf(v.g, nodes, Some(s));
    if s in Live(v.g, v.d, v.fat, slots, self, depth).value {
      var i, m := LiveBelow(v, nodes, slots, self, depth, s);
      ChildBelow(v.g, nodes, Some(s), slots[i]);
      BelowJoin(v.g, nodes, Some(s), Some(slots[i]), Some(s), 1, m);
      BelowJoin(v.g, nodes, None, Some(s), Some(s), level, 1 + m);
      OneLevel(v, nodes, Some(s), level, level + 1 + m);
    }
  }

  /** A good volume is a good root with nothing marked yet. */
  lemma RootIsGood(v: State, owners: seq<bool>, limit: nat)
    requires Audited(v.g, v.d, v.fat, v.depth) && v.depth == PATH_DEPTH && |owners| == v.g.clusters + 2
    requires (forall c :: 0 <= c < |owners| ==> !owners[c]) && Entries.Entries(v.g, v.d, TreeAt(v)) <= limit
    ensures v.g.perCluster > 0 && DirGood(v, RootDir, [], 0, 0, owners, limit)
  {
    hide Live, Extent, Weight, DotsRight, RootSlots, DirSlots, NodeAt, Below, Exclusive;
    var nodes := TreeAt(v);
    BelowItself(v.g, nodes, None);
    NodesKeys(v.g, v.d, v.fat, v.depth);
    forall x, n: nat, c: nat | x in nodes && Below(v.g, nodes, None, Some(x), n) && c in nodes[x].clusters
      ensures Unmarked(owners, c)
    {
      SoundNode(v, nodes, x);
      NodeChain(v.g, v.d, v.fat, x);
    }
  }

  method AuditSlot(v: FatVolume, dir: Dir, cursor: nat, ghost ch: seq<nat>) returns (s: Slot)
    requires Opened(v, dir, ch) && cursor < SlotCount(v.g, dir)
    ensures cursor < |Slots(v.g, dir, ch)| && s == Slots(v.g, dir, ch)[cursor]
  {
    hide DirSlots, Chain, RootSlots, SlotCount;
    if dir.RootDir? {
      SlotCountIs(v.g, map[], dir);
      RootSlotAt(v.g, cursor);
      s := Slot(Root(cursor / ENTRIES_PER_SECTOR), cursor % ENTRIES_PER_SECTOR);
    } else {
      s := v.SubSlotAt(dir, cursor, ch);
    }
  }

  lemma SlotsCount(v: FatVolume, dir: Dir, ch: seq<nat>)
    requires Opened(v, dir, ch)
    ensures |Slots(v.g, dir, ch)| == SlotCount(v.g, dir)
  {
    hide Chain;
    if dir.SubDir? { ChainSectorsLength(v.g, ch); }
  }

  /** What was found so far and what is still to scan make up the whole. */
  ghost predicate Scanned(g: Geometry, d: Disk, fat: seq<byte>, list: seq<Slot>, self: nat, depth: nat, i: nat,
                          live: set<Slot>)
    requires g.perCluster > 0 && IsTable(g, fat) && i <= |list|
  {
    Live(g, d, fat, list, self, depth) == Both(Some(live), Live(g, d, fat, list[i..], self, depth))
  }

  lemma ScanStart(g: Geometry, d: Disk, fat: seq<byte>, list: seq<Slot>, self: nat, depth: nat)
    requires g.perCluster > 0 && IsTable(g, fat)
    ensures Scanned(g, d, fat, list, self, depth, 0, {})
  {
    hide Live;
    assert list[0..] == list;
    var live := Live(g, d, fat, list, self, depth);
    if live.Some? { assert {} + live.value == live.value; }
  }

  lemma ScanSkip(g: Geometry, d: Disk, fat: seq<byte>, list: seq<Slot>, self: nat, depth: nat, i: nat, live: set<Slot>)
    requires g.perCluster > 0 && IsTable(g, fat) && i < |list| && Scanned(g, d, fat, list, self, depth, i, live)
    requires Classify(EntryAt(d, list[i])) == Skipped
    ensures Scanned(g, d, fat, list, self, depth, i + 1, live)
  {
    hide Classify, EntryAt, Held;
    assert list[i..][1..] == list[i + 1..];
  }

  lemma ScanBad(g: Geometry, d: Disk, fat: seq<byte>, list: seq<Slot>, self: nat, depth: nat, i: nat, live: set<Slot>)
    requires g.perCluster > 0 && IsTable(g, fat) && i < |list| && Scanned(g, d, fat, list, self, depth, i, live)
    requires Classify(EntryAt(d, list[i])) == Bad
    ensures Live(g, d, fat, list, self, depth) == None
  {
    hide Classify, EntryAt, Held;
    assert list[i..][0] == list[i];
  }

  lemma ScannedPart(g: Geometry, d: Disk, fat: seq<byte>, list: seq<Slot>, self: nat, depth: nat, i: nat,
                    live: set<Slot>)
    requires g.perCluster > 0 && IsTable(g, fat) && i <= |list| && Scanned(g, d, fat, list, self, depth, i, live)
    ensures var all := Live(g, d, fat, list, self, depth); all.Some? ==> live <= all.value
  {
    hide Live;
  }

  lemma ScanUsed(g: Geometry, d: Disk, fat: seq<byte>, list: seq<Slot>, self: nat, depth: nat, i: nat, live: set<Slot>,
                 more: set<Slot>)
    requires g.perCluster > 0 && IsTable(g, fat) && i < |list| && Scanned(g, d, fat, list, self, depth, i, live)
    requires Classify(EntryAt(d, list[i])) == Used && Held(g, d, fat, list[i], self, depth) == Some(more)
    ensures Scanned(g, d, fat, list, self, depth, i + 1, live + more)
  {
    hide Classify, EntryAt, Held;
    assert list[i..][1..] == list[i + 1..];
    var rest := Live(g, d, fat, list[i + 1..], self, depth);
    if rest.Some? { assert live + (more + rest.value) == (live + more) + rest.value; }
  }

  lemma ScanEnd(g: Geometry, d: Disk, fat: seq<byte>, list: seq<Slot>, self: nat, depth: nat, i: nat, live: set<Slot>)
    requires g.perCluster > 0 && IsTable(g, fat) && i <= |list| && Scanned(g, d, fat, list, self, depth, i, live)
    requires i == |list| || Classify(EntryAt(d, list[i])) == EndMark
    ensures Live(g, d, fat, list, self, depth) == Some(live)
  {
    hide Classify, EntryAt, Held;
    assert live + {} == live;
  }

  /** The part of the dot entries already checked. */
  ghost predicate DotsSoFar(d: Disk, dir: Dir, all: seq<Slot>, parent: nat, cursor: nat) {
    dir.SubDir? && cursor <= |all| ==>
      && (cursor >= 1 ==> DotEntry(EntryAt(d, all[0]), false, dir.first))
      && (cursor >= 2 ==> DotEntry(EntryAt(d, all[1]), true, parent))
  }

  // ----- One directory, entry by entry ---------------------------------------------------------------

  ghost function Index(dir: Dir, cursor: nat): nat { if cursor < Skip(dir) then 0 else cursor - Skip(dir) }

  /** `cursor` entries of the directory are examined: `live` was found, its clusters are
      marked, and the allowance was spent on exactly these entries. */
  ghost predicate Progress(v: State, dir: Dir, ch: seq<nat>, parent: nat, level: nat, before: seq<bool>,
                           after: seq<bool>, allowance: nat, budget: nat, cursor: nat, live: set<Slot>)
    requires v.g.perCluster > 0 && IsTable(v.g, v.fat)
  {
    && level <= PATH_DEPTH && cursor <= |Slots(v.g, dir, ch)| && Index(dir, cursor) <= |Items(v.g, dir, ch)|
    && DotsSoFar(v.d, dir, Slots(v.g, dir, ch), parent, cursor) && Open(v.d, Slots(v.g, dir, ch), cursor)
    && (cursor < Skip(dir) ==> live == {})
    && Scanned(v.g, v.d, v.fat, Items(v.g, dir, ch), FirstOf(dir), PATH_DEPTH - level, Index(dir, cursor), live)
    && Claimed(v.g, v.d, v.fat, live, before, after)
    && allowance == budget + cursor + WeightOf(v.g, v.d, v.fat, live)
    && (DirGood(v, dir, ch, parent, level, before, allowance) ==>
          Found(v.g, TreeAt(v), Items(v.g, dir, ch), Index(dir, cursor), live))
  }

  lemma ProgressStart(v: State, dir: Dir, ch: seq<nat>, parent: nat, level: nat, owners: seq<bool>, allowance: nat)
    requires v.g.perCluster > 0 && IsTable(v.g, v.fat) && level <= PATH_DEPTH && |owners| == v.g.clusters + 2
    ensures Progress(v, dir, ch, parent, level, owners, owners, allowance, allowance, 0, {})
  {
    hide DirGood, Scanned, Claimed, WeightOf, Found, TreeAt, Slots, Items, Classify, EntryAt, DotEntry;
    ScanStart(v.g, v.d, v.fat, Items(v.g, dir, ch), FirstOf(dir), PATH_DEPTH - level);
    ClaimedNothing(v.g, v.d, v.fat, owners);
    WeightEmpty(v.g, v.d, v.fat);
    FoundNothing(v.g, TreeAt(v), Items(v.g, dir, ch));
  }

  /** A good directory never runs out of its allowance. */
  lemma ProgressSpent(v: State, dir: Dir, ch: seq<nat>, parent: nat, level: nat, before: seq<bool>, after: seq<bool>,
                      allowance: nat, cursor: nat, live: set<Slot>)
    requires v.g.perCluster > 0 && IsTable(v.g, v.fat) && cursor < |Slots(v.g, dir, ch)|
    requires Progress(v, dir, ch, parent, level, before, after, allowance, 0, cursor, live)
    ensures !DirGood(v, dir, ch, parent, level, before, allowance)
  {
    hide DirGood, Scanned, Claimed, WeightOf, Found, TreeAt, Slots, Items, Classify, EntryAt, DotEntry, Live;
    if DirGood(v, dir, ch, parent, level, before, allowance) {
      GoodDirectory(v, dir, ch, parent, level, before, allowance);
      ScannedPart(v.g, v.d, v.fat, Items(v.g, dir, ch), FirstOf(dir), PATH_DEPTH - level, Index(dir, cursor), live);
      EnoughLeft(v, dir, ch, parent, level, before, allowance, cursor, live);
    }
  }

  lemma ProgressDot(v: State, dir: Dir, ch: seq<nat>, parent: nat, level: nat, before: seq<bool>, after: seq<bool>,
                    allowance: nat, budget: nat, cursor: nat, live: set<Slot>)
    requires v.g.perCluster > 0 && IsTable(v.g, v.fat) && cursor < |Slots(v.g, dir, ch)| && dir.SubDir? && cursor < 2
    requires Progress(v, dir, ch, parent, level, before, after, allowance, budget + 1, cursor, live)
    ensures var right := if cursor != 0 then parent else dir.first;
      if DotEntry(EntryAt(v.d, Slots(v.g, dir, ch)[cursor]), cursor != 0, right)
      then Progress(v, dir, ch, parent, level, before, after, allowance, budget, cursor + 1, live)
      else !DirGood(v, dir, ch, parent, level, before, allowance)
  {
    hide DirGood, Scanned, Claimed, WeightOf, Found, TreeAt, Slots, Items, Classify, EntryAt, DotEntry;
    var right := if cursor != 0 then parent else dir.first;
    if DotEntry(EntryAt(v.d, Slots(v.g, dir, ch)[cursor]), cursor != 0, right) {
      DotIsOpen(EntryAt(v.d, Slots(v.g, dir, ch)[cursor]), cursor != 0, right);
    } else if DirGood(v, dir, ch, parent, level, before, allowance) {
      GoodDots(v, dir, ch, parent, level, before, allowance, cursor);
    }
  }

  /** The position of an entry among those behind the dots. */
  lemma ItemAt(g: Geometry, dir: Dir, ch: seq<nat>, cursor: nat)
    requires Skip(dir) <= cursor < |Slots(g, dir, ch)|
    ensures Index(dir, cursor) < |Items(g, dir, ch)|
    ensures Items(g, dir, ch)[Index(dir, cursor)] == Slots(g, dir, ch)[cursor]
  {
    hide RootSlots, DirSlots;
  }

  lemma ProgressSkip(v: State, dir: Dir, ch: seq<nat>, parent: nat, level: nat, before: seq<bool>, after: seq<bool>,
                     allowance: nat, budget: nat, cursor: nat, live: set<Slot>)
    requires v.g.perCluster > 0 && IsTable(v.g, v.fat) && Skip(dir) <= cursor < |Slots(v.g, dir, ch)|
    requires Progress(v, dir, ch, parent, level, before, after, allowance, budget + 1, cursor, live)
    requires Classify(EntryAt(v.d, Slots(v.g, dir, ch)[cursor])) == Skipped
    ensures Progress(v, dir, ch, parent, level, before, after, allowance, budget, cursor + 1, live)
  {
    hide DirGood, Scanned, Claimed, WeightOf, Found, TreeAt, Slots, Items, Classify, EntryAt, DotEntry;
    ItemAt(v.g, dir, ch, cursor);
    ScanSkip(v.g, v.d, v.fat, Items(v.g, dir, ch), FirstOf(dir), PATH_DEPTH - level, Index(dir, cursor), live);
    if DirGood(v, dir, ch, parent, level, before, allowance) {
      FoundSkip(v.g, TreeAt(v), Items(v.g, dir, ch), Index(dir, cursor), live);
    }
  }

  lemma ProgressBad(v: State, dir: Dir, ch: seq<nat>, parent: nat, level: nat, before: seq<bool>, after: seq<bool>,
                    allowance: nat, budget: nat, cursor: nat, live: set<Slot>)
    requires v.g.perCluster > 0 && IsTable(v.g, v.fat) && Skip(dir) <= cursor < |Slots(v.g, dir, ch)|
    requires Progress(v, dir, ch, parent, level, before, after, allowance, budget, cursor, live)
    requires Classify(EntryAt(v.d, Slots(v.g, dir, ch)[cursor])) == Bad
    ensures !DirGood(v, dir, ch, parent, level, before, allowance)
  {
    hide DirGood, Scanned, Claimed, WeightOf, Found, TreeAt, Slots, Items, Classify, EntryAt, DotEntry, Live;
    ItemAt(v.g, dir, ch, cursor);
    ScanBad(v.g, v.d, v.fat, Items(v.g, dir, ch), FirstOf(dir), PATH_DEPTH - level, Index(dir, cursor), live);
    if DirGood(v, dir, ch, parent, level, before, allowance) {
      GoodDirectory(v, dir, ch, parent, level, before, allowance);
    }
  }

  lemma ProgressEntry(v: State, dir: Dir, ch: seq<nat>, parent: nat, level: nat, before: seq<bool>, after: seq<bool>,
                      allowance: nat, budget: nat, cursor: nat, live: set<Slot>)
    requires v.g.perCluster > 0 && IsTable(v.g, v.fat) && Skip(dir) <= cursor < |Slots(v.g, dir, ch)|
    requires Progress(v, dir, ch, parent, level, before, after, allowance, budget + 1, cursor, live)
    requires Classify(EntryAt(v.d, Slots(v.g, dir, ch)[cursor])) == Used
    ensures DirGood(v, dir, ch, parent, level, before, allowance) ==>
      EntryGood(v, Slots(v.g, dir, ch)[cursor], FirstOf(dir), level, after, budget)
  {
    hide DirGood, EntryGood, Scanned, Claimed, WeightOf, Found, TreeAt, Slots, Items, Classify, EntryAt, DotEntry;
    ItemAt(v.g, dir, ch, cursor);
    if DirGood(v, dir, ch, parent, level, before, allowance) {
      NextIsGood(v, dir, ch, parent, level, before, after, allowance, Index(dir, cursor), live, budget);
    }
  }

  lemma ProgressUsed(v: State, dir: Dir, ch: seq<nat>, parent: nat, level: nat, before: seq<bool>, middle: seq<bool>,
                     after: seq<bool>, allowance: nat, spare: nat, budget: nat, cursor: nat, live: set<Slot>,
                     more: set<Slot>)
    requires v.g.perCluster > 0 && IsTable(v.g, v.fat) && Skip(dir) <= cursor < |Slots(v.g, dir, ch)|
    requires Progress(v, dir, ch, parent, level, before, middle, allowance, spare + 1, cursor, live)
    requires var s := Slots(v.g, dir, ch)[cursor];
      Classify(EntryAt(v.d, s)) == Used && Held(v.g, v.d, v.fat, s, FirstOf(dir), PATH_DEPTH - level) == Some(more)
    requires Claimed(v.g, v.d, v.fat, more, middle, after) && spare == budget + WeightOf(v.g, v.d, v.fat, more)
    ensures Progress(v, dir, ch, parent, level, before, after, allowance, budget, cursor + 1, live + more)
  {
    hide DirGood, EntryGood, Scanned, Claimed, WeightOf, Found, TreeAt, Slots, Items, Classify, EntryAt, DotEntry, Held;
    var list, s, i := Items(v.g, dir, ch), Slots(v.g, dir, ch)[cursor], Index(dir, cursor);
    ItemAt(v.g, dir, ch, cursor);
    ProgressEntry(v, dir, ch, parent, level, before, middle, allowance, spare, cursor, live);
    ScanUsed(v.g, v.d, v.fat, list, FirstOf(dir), PATH_DEPTH - level, i, live, more);
    ClaimedTogether(v.g, v.d, v.fat, live, more, before, middle, after);
    WeightClaimed(v.g, v.d, v.fat, live, more, before, middle, after);
    if DirGood(v, dir, ch, parent, level, before, allowance) {
      GoodDirectory(v, dir, ch, parent, level, before, allowance);
      HeldInTree(v, s, FirstOf(dir), level, middle, spare);
      FoundMore(v, TreeAt(v), list, i, live, FirstOf(dir), PATH_DEPTH - level);
    }
  }

  /** At the end mark, or behind the last slot, the whole directory is known. */
  lemma ProgressEnd(v: State, dir: Dir, ch: seq<nat>, parent: nat, level: nat, before: seq<bool>, after: seq<bool>,
                    allowance: nat, budget: nat, cursor: nat, live: set<Slot>)
    requires v.g.perCluster > 0 && IsTable(v.g, v.fat)
    requires Progress(v, dir, ch, parent, level, before, after, allowance, budget, cursor, live)
    requires cursor == |Slots(v.g, dir, ch)|
          || (Skip(dir) <= cursor && Classify(EntryAt(v.d, Slots(v.g, dir, ch)[cursor])) == EndMark)
    ensures Live(v.g, v.d, v.fat, Items(v.g, dir, ch), FirstOf(dir), PATH_DEPTH - level) == Some(live)
    ensures Claimed(v.g, v.d, v.fat, live, before, after)
    ensures dir.SubDir? && |DirSlots(v.g, ch)| >= 2 ==> DotsRight(v.d, DirSlots(v.g, ch), dir.first, parent)
    ensures allowance ==
      budget + cursor + WeightOf(v.g, v.d, v.fat, live)
    ensures Extent(v.d, Slots(v.g, dir, ch)) == if cursor == |Slots(v.g, dir, ch)| then cursor else cursor + 1
  {
    hide DirGood, Scanned, Claimed, WeightOf, Found, TreeAt, Items, Classify, EntryAt, DotEntry, Live, RootSlots,
         DirSlots, Extent;
    ExtentEnds(v.d, Slots(v.g, dir, ch), cursor);
    ItemsOfSlots(v.g, dir, ch);
    if cursor < |Slots(v.g, dir, ch)| { ItemAt(v.g, dir, ch, cursor); }
    ScanEnd(v.g, v.d, v.fat, Items(v.g, dir, ch), FirstOf(dir), PATH_DEPTH - level, Index(dir, cursor), live);
  }

  /** Every live entry below the directory is well formed and owns its clusters alone.
      Nothing but a failed read keeps a good directory from being accepted. */
  method AuditDirectory(v: FatVolume, owners: array<bool>, dir: Dir, parent: nat, depth: nat, allowance: nat,
                        ghost ch: seq<nat>)
    returns (error: FsError, budget: nat, failed: bool, ghost live: set<Slot>)
    requires Opened(v, dir, ch) && owners.Length == v.g.clusters + 2 && depth <= PATH_DEPTH + 1
    modifies v`cache, owners
    ensures v.Mounted()
    ensures error == Ok ==> depth <= PATH_DEPTH
    ensures error == Ok ==>
      Live(v.g, v.disk, v.fat, Items(v.g, dir, ch), FirstOf(dir), PATH_DEPTH - depth) == Some(live)
    ensures error == Ok ==> Claimed(v.g, v.disk, v.fat, live, old(owners[..]), owners[..])
    ensures error == Ok && dir.SubDir? && |DirSlots(v.g, ch)| >= 2 ==>
      DotsRight(v.disk, DirSlots(v.g, ch), dir.first, parent)
    ensures error == Ok ==>
      allowance == budget + Extent(v.disk, Slots(v.g, dir, ch)) + WeightOf(v.g, v.disk, v.fat, live)
    ensures error == Ok ==> !failed
    ensures !failed && DirGood(Whole(v), dir, ch, parent, depth, old(owners[..]), allowance) ==> error == Ok
    decreases PATH_DEPTH + 1 - depth, 1
  {
    hide Live, Held, NodeAt, DirSlots, RootSlots, Classify, EntryAt, Chain, Claimed, SlotCount, DotEntry, DirGood,
         EntryGood, Extent, WeightOf, Slots, Items, Progress, DotsRight;
    budget, live, failed := allowance, {}, false;
    ghost var whole, before := Whole(v), owners[..];
    if depth > PATH_DEPTH {
      if DirGood(whole, dir, ch, parent, depth, before, allowance) {
        GoodDirectory(whole, dir, ch, parent, depth, before, allowance);
      }
      return TooDeep, budget, failed, live;
    }
    SlotsCount(v, dir, ch);
    ProgressStart(whole, dir, ch, parent, depth, before, allowance);
    var count := SlotCount(v.g, dir);
    var cursor := 0;
    while cursor < count
      invariant cursor <= count && v.Mounted() && Whole(v) == whole && !failed
      invariant Progress(whole, dir, ch, parent, depth, before, owners[..], allowance, budget, cursor, live)
    {
      if budget == 0 {
        ProgressSpent(whole, dir, ch, parent, depth, before, owners[..], allowance, cursor, live);
        return Unsupported, budget, failed, live;
      }
      budget := budget - 1;
      var s := AuditSlot(v, dir, cursor, ch);
      var e;
      error, e := v.EntryRead(s);
      if error != Ok { return error, budget, true, live; }
      if dir.SubDir? && cursor < 2 {
        ProgressDot(whole, dir, ch, parent, depth, before, owners[..], allowance, budget, cursor, live);
        if !DotEntry(e, cursor != 0, if cursor != 0 then parent else dir.first) {
          return IoError, budget, failed, live;
        }
      } else {
        var kind := Classify(e);
        match kind {
          case EndMark =>
            ProgressEnd(whole, dir, ch, parent, depth, before, owners[..], allowance, budget + 1, cursor, live);
            return Ok, budget, failed, live;
          case Bad =>
            ProgressBad(whole, dir, ch, parent, depth, before, owners[..], allowance, budget + 1, cursor, live);
            return IoError, budget, failed, live;
          case Skipped =>
            ProgressSkip(whole, dir, ch, parent, depth, before, owners[..], allowance, budget, cursor, live);
          case Used =>
            ghost var more;
            ghost var middle, spare := owners[..], budget;
            ProgressEntry(whole, dir, ch, parent, depth, before, middle, allowance, spare, cursor, live);
            error, budget, failed, more := AuditEntry(v, owners, s, e, FirstOf(dir), depth, budget);
            if error != Ok { return; }
            ProgressUsed(whole, dir, ch, parent, depth, before, middle, owners[..], allowance, spare, budget, cursor,
                         live, more);
            live := live + more;
        }
      }
      cursor := cursor + 1;
    }
    ProgressEnd(whole, dir, ch, parent, depth, before, owners[..], allowance, budget, cursor, live);
    error := Ok;
  }

  lemma GoodDirectory(v: State, dir: Dir, ch: seq<nat>, parent: nat, level: nat, owners: seq<bool>, allowance: nat)
    requires v.g.perCluster > 0 && IsTable(v.g, v.fat) && DirGood(v, dir, ch, parent, level, owners, allowance)
    ensures level <= PATH_DEPTH && Sound(v, TreeAt(v))
    ensures Live(v.g, v.d, v.fat, Items(v.g, dir, ch), FirstOf(dir), PATH_DEPTH - level).Some?
  {
    hide Sound, Live, Extent, WeightOf, TreeAt, Below, AllUnmarked, DotsRight;
  }

  lemma GoodDots(v: State, dir: Dir, ch: seq<nat>, parent: nat, level: nat, owners: seq<bool>, allowance: nat,
                 cursor: nat)
    requires v.g.perCluster > 0 && IsTable(v.g, v.fat) && DirGood(v, dir, ch, parent, level, owners, allowance)
    requires dir.SubDir? && cursor < 2
    ensures cursor < |Slots(v.g, dir, ch)|
    ensures DotEntry(EntryAt(v.d, Slots(v.g, dir, ch)[cursor]), cursor != 0, if cursor != 0 then parent else dir.first)
  {
    hide Sound, Live, Extent, WeightOf, TreeAt, Below, AllUnmarked, DotEntry, DirSlots, EntryAt;
  }

  lemma HeldInTree(v: State, s: Slot, self: nat, level: nat, owners: seq<bool>, allowance: nat)
    requires v.g.perCluster > 0 && IsTable(v.g, v.fat) && EntryGood(v, s, self, level, owners, allowance)
    ensures level <= PATH_DEPTH && Held(v.g, v.d, v.fat, s, self, PATH_DEPTH - level).Some?
    ensures Held(v.g, v.d, v.fat, s, self, PATH_DEPTH - level).value <= TreeAt(v).Keys
  {
    hide Sound, Held, WeightOf, TreeAt, Below, AllUnmarked;
  }

  lemma ItemsOfSlots(g: Geometry, dir: Dir, ch: seq<nat>)
    ensures Items(g, dir, ch) == if dir.RootDir? then Slots(g, dir, ch) else AfterDots(Slots(g, dir, ch))
  {
    hide RootSlots, DirSlots;
  }

  /** One used entry: its chain, its size, its clusters and, for a directory, its contents. */
  method AuditEntry(v: FatVolume, owners: array<bool>, s: Slot, e: Entry, self: nat, depth: nat, allowance: nat)
    returns (error: FsError, budget: nat, failed: bool, ghost live: set<Slot>)
    requires v.Mounted() && owners.Length == v.g.clusters + 2 && depth <= PATH_DEPTH
    requires e == EntryAt(v.disk, s)
    modifies v`cache, owners
    ensures v.Mounted()
    ensures error == Ok ==> Held(v.g, v.disk, v.fat, s, self, PATH_DEPTH - depth) == Some(live)
    ensures error == Ok ==> Claimed(v.g, v.disk, v.fat, live, old(owners[..]), owners[..])
    ensures error == Ok ==> allowance == budget + WeightOf(v.g, v.disk, v.fat, live)
    ensures error == Ok ==> !failed
    ensures !failed && EntryGood(Whole(v), s, self, depth, old(owners[..]), allowance) ==> error == Ok
    decreases PATH_DEPTH + 1 - depth, 0
  {
    hide Live, Held, NodeAt, DirSlots, EntryAt, Chain, Claimed, EntryGood, DirGood, WeightOf, Extent, DotsRight, Slots,
         Items;
    budget, live, failed := allowance, {s}, false;
    ghost var whole, before := Whole(v), owners[..];
    ghost var good := EntryGood(whole, s, self, depth, before, allowance);
    if good { GoodEntry(whole, s, self, depth, before, allowance); }
    var length;
    error, length := JudgeEntry(v, s, e);
    if error != Ok { return; }
    ghost var ch := NodeAt(v.g, v.disk, v.fat, s).value.clusters;
    error := ClaimEntry(v, owners, s, e, length);
    if error != Ok { return; }
    HeldFile(v.g, v.disk, v.fat, s, self, PATH_DEPTH - depth);
    WeightSingle(v.g, v.disk, v.fat, s);
    if DirectoryBit(e) {
      ghost var middle, more := owners[..], {};
      if good { SubIsGood(whole, s, self, depth, before, middle, allowance, length); }
      error, budget, failed, more := AuditDirectory(v, owners, SubDir(s, First(e), length), self, depth + 1, budget,
                                                    ch);
      if error != Ok { return; }
      ClaimedTogether(v.g, v.disk, v.fat, {s}, more, before, middle, owners[..]);
      WeightClaimed(v.g, v.disk, v.fat, {s}, more, before, middle, owners[..]);
      HeldDirectory(v.g, v.disk, v.fat, s, self, PATH_DEPTH - depth, SubDir(s, First(e), length), ch, more);
      live := {s} + more;
    }
  }

  /** The entry is a node: its fields, its chain and its size fit together. */
  method JudgeEntry(v: FatVolume, s: Slot, e: Entry) returns (error: FsError, length: nat)
    requires v.Mounted() && e == EntryAt(v.disk, s)
    ensures error == Ok <==> NodeAt(v.g, v.disk, v.fat, s).Some?
    ensures error == Ok ==> var node := NodeAt(v.g, v.disk, v.fat, s).value;
      && length == |node.clusters| && node.DirNode? == DirectoryBit(e) && (length == 0 ==> !DirectoryBit(e))
      && (length > 0 ==> Chain(v.g, v.fat, First(e)) == Some(node.clusters))
      && (DirectoryBit(e) ==> |DirSlots(v.g, node.clusters)| >= 2)
  {
    hide NodeAt, DirSlots, EntryAt, Chain;
    NodeJudged(v.g, v.disk, v.fat, s);
    length := 0;
    if !DirectoryBit(e) && Size(e) == 0 { return if First(e) != 0 then IoError else Ok, length; }
    var found := FollowChain(v.g, v.fat, First(e));
    if found.Failure? { return found.error, length; }
    length := found.value;
    DirChainSlots(v.g, v.fat, First(e));
    ChainIsChain(v.g, v.fat, First(e));
    if DirectoryBit(e) {
      if Size(e) != 0 { return IoError, length; }
      if length * v.g.perCluster * ENTRIES_PER_SECTOR > DIRECTORY_ENTRY_LIMIT { return Unsupported, length; }
    } else if Needed(v.g, Size(e)) != length {
      return IoError, length;
    }
    error := Ok;
  }

  /** Mark the clusters of a node; refused exactly if one of them is already marked. */
  method ClaimEntry(v: FatVolume, owners: array<bool>, s: Slot, e: Entry, length: nat) returns (error: FsError)
    requires v.Mounted() && owners.Length == v.g.clusters + 2 && NodeAt(v.g, v.disk, v.fat, s).Some?
    requires var ch := NodeAt(v.g, v.disk, v.fat, s).value.clusters;
      length == |ch| && (length > 0 ==> Chain(v.g, v.fat, First(e)) == Some(ch))
    modifies owners
    ensures var ch := NodeAt(v.g, v.disk, v.fat, s).value.clusters;
      && (error == Ok <==> forall c :: c in ch ==> ValidCluster(v.g, c) && !old(owners[..])[c])
      && (forall c :: 0 <= c < owners.Length && c !in ch ==> owners[c] == old(owners[c]))
    ensures error == Ok ==> Claimed(v.g, v.disk, v.fat, {s}, old(owners[..]), owners[..])
  {
    hide NodeAt, Chain, Claimed;
    ghost var ch := NodeAt(v.g, v.disk, v.fat, s).value.clusters;
    if length == 0 {
      FileClaims(v.g, v.disk, v.fat, s, owners[..]);
      return Ok;
    }
    error := OwnChain(v, owners, First(e), length, ch);
    if error != Ok { return; }
    assert forall c :: c in ch ==> owners[..][c];
    ChainClaims(v.g, v.disk, v.fat, s, ch, old(owners[..]), owners[..]);
  }

  /** The tests on an entry are those that make it a node. */
  lemma NodeJudged(g: Geometry, d: Disk, fat: seq<byte>, s: Slot)
    requires g.perCluster > 0 && IsTable(g, fat)
    ensures var e, node := EntryAt(d, s), NodeAt(g, d, fat, s);
      if !DirectoryBit(e) && Size(e) == 0 then
        if First(e) != 0 then node.None? else node.Some? && node.value.FileNode? && node.value.clusters == []
      else match Chain(g, fat, First(e))
        case None => node.None?
        case Some(ch) =>
          if DirectoryBit(e) then
            if Size(e) != 0 || |DirSlots(g, ch)| > DIRECTORY_ENTRY_LIMIT then node.None?
            else node.Some? && node.value.DirNode? && node.value.clusters == ch
          else if Needed(g, Size(e)) != |ch| then node.None?
          else node.Some? && node.value.FileNode? && node.value.clusters == ch
  {
    hide Chain, DirSlots, EntryAt, Content, ChainSectors;
  }

  lemma HeldFile(g: Geometry, d: Disk, fat: seq<byte>, s: Slot, self: nat, depth: nat)
    requires g.perCluster > 0 && IsTable(g, fat)
    ensures var node := NodeAt(g, d, fat, s);
      node.Some? && node.value.FileNode? ==> Held(g, d, fat, s, self, depth) == Some({s})
  {
    hide NodeAt, Live, DotsRight;
  }

  lemma HeldDirectory(g: Geometry, d: Disk, fat: seq<byte>, s: Slot, self: nat, depth: nat, dir: Dir, ch: seq<nat>,
                      more: set<Slot>)
    requires g.perCluster > 0 && IsTable(g, fat) && depth > 0 && dir.SubDir? && dir.first == First(EntryAt(d, s))
    requires var node := NodeAt(g, d, fat, s); node.Some? && node.value.DirNode? && node.value.clusters == ch
    requires DotsRight(d, DirSlots(g, ch), dir.first, self)
    requires Live(g, d, fat, Items(g, dir, ch), dir.first, depth - 1) == Some(more)
    ensures Held(g, d, fat, s, self, depth) == Some({s} + more) && Slots(g, dir, ch) == DirSlots(g, ch)
  {
    hide NodeAt, Live, DotsRight, EntryAt, DirSlots;
  }

  lemma GoodEntry(v: State, s: Slot, self: nat, level: nat, owners: seq<bool>, allowance: nat)
    requires v.g.perCluster > 0 && IsTable(v.g, v.fat) && EntryGood(v, s, self, level, owners, allowance)
    ensures NodeAt(v.g, v.d, v.fat, s).Some?
    ensures forall c :: c in NodeAt(v.g, v.d, v.fat, s).value.clusters ==> ValidCluster(v.g, c) && Unmarked(owners, c)
  {
    hide Sound, Held, WeightOf, TreeAt, Below, NodeAt;
    SoundNode(v, TreeAt(v), s);
    BelowItself(v.g, TreeAt(v), Some(s));
    NodeChain(v.g, v.d, v.fat, s);
  }

  /** A whole cluster always has room for the two dot entries. */
  lemma DirChainSlots(g: Geometry, fat: seq<byte>, first: nat)
    requires g.perCluster > 0 && IsTable(g, fat) && Chain(g, fat, first).Some?
    ensures var ch := Chain(g, fat, first).value;
      |DirSlots(g, ch)| == |ch| * g.perCluster * ENTRIES_PER_SECTOR && |DirSlots(g, ch)| >= 2
  {
    ChainIsChain(g, fat, first);
    var ch := Chain(g, fat, first).value;
    ChainSectorsLength(g, ch);
    MulMonotone(1, |ch|, g.perCluster);
  }

  lemma FileClaims(g: Geometry, d: Disk, fat: seq<byte>, s: Slot, owners: seq<bool>)
    requires g.perCluster > 0 && IsTable(g, fat) && |owners| == g.clusters + 2
    requires NodeAt(g, d, fat, s).Some? && NodeAt(g, d, fat, s).value.clusters == []
    ensures Claimed(g, d, fat, {s}, owners, owners)
  {
    hide NodeAt;
  }

  lemma ChainClaims(g: Geometry, d: Disk, fat: seq<byte>, s: Slot, ch: seq<nat>, before: seq<bool>, after: seq<bool>)
    requires g.perCluster > 0 && IsTable(g, fat) && |before| == |after| == g.clusters + 2
    requires NodeAt(g, d, fat, s).Some? && NodeAt(g, d, fat, s).value.clusters == ch
    requires forall c :: c in ch ==> ValidCluster(g, c) && !before[c] && after[c]
    requires forall c :: 0 <= c < |before| && c !in ch ==> after[c] == before[c]
    ensures Claimed(g, d, fat, {s}, before, after)
  {
    hide NodeAt;
  }

  /** A volume whose audit succeeded has a well-formed tree with exclusive chains. */
  lemma ClaimedIsExclusive(g: Geometry, d: Disk, fat: seq<byte>, live: set<Slot>, before: seq<bool>, after: seq<bool>)
    requires g.Valid() && IsTable(g, fat) && LiveTree(g, d, fat, PATH_DEPTH) == Some(live)
    requires Claimed(g, d, fat, live, before, after)
    ensures Audited(g, d, fat, PATH_DEPTH)
  {
    hide NodeAt, Live, RootSlots, Classify, EntryAt, LiveTree;
    var nodes := Nodes(g, d, fat, PATH_DEPTH).value;
    NodesKeys(g, d, fat, PATH_DEPTH);
    forall a, b, c: nat | a in nodes && b in nodes && a != b && c in nodes[a].clusters
      ensures c !in nodes[b].clusters
    {
      assert c in Owns(g, d, fat, a);
    }
  }

  /** Audit the whole volume from the root with nothing owned yet. Unless a read fails, it is
      accepted exactly if it is a tree of the right depth whose chains are disjoint, with no
      more entries to examine than allowed. */
  method AuditVolume(v: FatVolume, limit: nat) returns (error: FsError, failed: bool)
    requires v.Mounted()
    modifies v`cache
    ensures v.Mounted()
    ensures error == Ok ==> !failed && Passes(v.g, v.disk, v.fat, limit)
    ensures !failed && Passes(v.g, v.disk, v.fat, limit) ==> error == Ok
  {
    hide NodeAt, Live, RootSlots, Claimed, DirGood, Extent, Weight, Nodes, Exclusive;
    var owners := new bool[v.g.clusters + 2](_ => false);
    var budget;
    ghost var live;
    ghost var clear := owners[..];
    if Passes(v.g, v.disk, v.fat, limit) { RootIsGood(Whole(v), clear, limit); }
    error, budget, failed, live := AuditDirectory(v, owners, RootDir, 0, 0, limit, []);
    if error == Ok {
      ClaimedIsExclusive(v.g, v.disk, v.fat, live, clear, owners[..]);
      TreeOfLive(v.g, v.disk, v.fat, live);
    }
  }

  /** What the audit accepts. */
  ghost predicate Passes(g: Geometry, d: Disk, fat: seq<byte>, limit: nat) {
    Audited(g, d, fat, PATH_DEPTH) && Entries.Entries(g, d, Nodes(g, d, fat, PATH_DEPTH).value) <= limit
  }

  lemma TreeOfLive(g: Geometry, d: Disk, fat: seq<byte>, live: set<Slot>)
    requires Audited(g, d, fat, PATH_DEPTH) && LiveTree(g, d, fat, PATH_DEPTH) == Some(live)
    ensures Nodes(g, d, fat, PATH_DEPTH).value == NodesOf(g, d, fat, live)
  {
    hide Live, NodeAt, Exclusive;
  }
}
