/** How many directory entries an audit examines: each listing up to its end mark. */
module Entries {
  import opened Common
  import opened Disk
  import opened Fat
  import opened Layout
  import opened Tree
  import opened View

  /** The entries examined in one listing, the end mark included. */
  ghost function Extent(d: Disk, slots: seq<Slot>): nat {
    if slots == [] then 0
    else if Classify(EntryAt(d, slots[0])) == EndMark then 1
    else 1 + Extent(d, slots[1..])
  }

  /** What each directory contributes. */
  ghost function Extents(g: Geometry, d: Disk, nodes: map<Slot, Node>): map<Slot, nat> {
    map s | s in nodes && nodes[s].DirNode? :: Extent(d, DirSlots(g, nodes[s].clusters))
  }

  ghost function Sum(m: map<Slot, nat>): nat
    decreases |m|
  {
    if m == map[] then 0
    else
      var s :| s in m;
      m[s] + Sum(m - {s})
  }

  /** All entries below the root's own. */
  ghost function Weight(g: Geometry, d: Disk, nodes: map<Slot, Node>): nat {
    Sum(Extents(g, d, nodes))
  }

  /** Every entry an audit of the volume examines. */
  ghost function Entries(g: Geometry, d: Disk, nodes: map<Slot, Node>): nat {
    Extent(d, RootSlots(g)) + Weight(g, d, nodes)
  }

  // ----- Sums -----------------------------------------------------------------------------------

  lemma {:induction false} SumTakes(m: map<Slot, nat>, x: Slot)
    requires x in m
    ensures Sum(m) == m[x] + Sum(m - {x})
    decreases |m|
  {
    var s: Slot :| s in m && Sum(m) == m[s] + Sum(m - {s});
    if s != x {
      SumTakes(m - {s}, x);
      SumTakes(m - {x}, s);
      assert m - {s} - {x} == m - {x} - {s};
    }
  }

  /** Disjoint parts add up. */
  lemma {:induction false} SumJoins(a: map<Slot, nat>, b: map<Slot, nat>)
    requires a.Keys !! b.Keys
    ensures Sum(a + b) == Sum(a) + Sum(b)
    decreases |a|
  {
    hide Sum;
    if a == map[] {
      assert a + b == b;
      SumNone();
    } else {
      var s :| s in a;
      SumTakes(a, s);
      SumTakes(a + b, s);
      LessOne(a, b, s);
      Smaller(a, s);
      SumJoins(a - {s}, b);
    }
  }

  lemma SumNone()
    ensures Sum(map[]) == 0
  {
  }

  lemma LessOne(a: map<Slot, nat>, b: map<Slot, nat>, s: Slot)
    requires s in a && a.Keys !! b.Keys
    ensures (a + b) - {s} == (a - {s}) + b && (a - {s}).Keys !! b.Keys
  {
    var x, y := (a + b) - {s}, (a - {s}) + b;
    assert forall t :: t in x <==> t in y;
    assert forall t :: t in b ==> t != s && x[t] == b[t] && y[t] == b[t];
    assert forall t :: t in a && t != s ==> t !in b && x[t] == a[t] && y[t] == a[t];
  }

  lemma Smaller(a: map<Slot, nat>, s: Slot)
    requires s in a
    ensures |a - {s}| < |a|
  {
  }

  lemma SumPart(a: map<Slot, nat>, b: map<Slot, nat>)
    requires forall s :: s in a ==> s in b && b[s] == a[s]
    ensures Sum(a) <= Sum(b)
  {
    var rest := b - a.Keys;
    SumJoins(a, rest);
    assert a + rest == b;
  }

  // ----- Extents ----------------------------------------------------------------------------------

  /** No end mark among the first `i` slots. */
  ghost predicate Open(d: Disk, slots: seq<Slot>, i: nat) {
    i <= |slots| && forall j :: 0 <= j < i ==> Classify(EntryAt(d, slots[j])) != EndMark
  }

  lemma {:induction false} ExtentFrom(d: Disk, slots: seq<Slot>, i: nat)
    requires Open(d, slots, i)
    ensures Extent(d, slots) == i + Extent(d, slots[i..])
    decreases i
  {
    hide Classify, EntryAt;
    if i == 0 {
      assert slots[0..] == slots;
    } else {
      assert forall j :: 0 <= j < i - 1 ==> slots[1..][j] == slots[j + 1];
      ExtentFrom(d, slots[1..], i - 1);
      assert slots[1..][i - 1..] == slots[i..];
    }
  }

  lemma ExtentEnds(d: Disk, slots: seq<Slot>, i: nat)
    requires Open(d, slots, i)
    ensures i < |slots| ==> Extent(d, slots) > i
    ensures i < |slots| && Classify(EntryAt(d, slots[i])) == EndMark ==> Extent(d, slots) == i + 1
    ensures i == |slots| ==> Extent(d, slots) == i
  {
    hide Classify, EntryAt;
    ExtentFrom(d, slots, i);
  }

  /** A dot entry is no end mark. */
  lemma DotIsOpen(e: Entry, parent: bool, cluster: nat)
    requires DotEntry(e, parent, cluster)
    ensures Classify(e) != EndMark
  {
  }

  /** Equal entries, equal extents. */
  lemma {:induction false} ExtentFrame(d: Disk, d': Disk, slots: seq<Slot>)
    requires forall i :: 0 <= i < |slots| ==> EntryAt(d', slots[i]) == EntryAt(d, slots[i])
    ensures Extent(d', slots) == Extent(d, slots)
    decreases |slots|
  {
    hide Classify, EntryAt;
    if slots != [] {
      assert forall i :: 0 <= i < |slots[1..]| ==> slots[1..][i] == slots[i + 1];
      ExtentFrame(d, d', slots[1..]);
    }
  }

  // ----- Weights ----------------------------------------------------------------------------------

  /** No directory is counted twice. */
  ghost predicate DistinctDirs(a: map<Slot, Node>, b: map<Slot, Node>) {
    forall s :: s in a && s in b ==> a[s].FileNode? && b[s].FileNode?
  }

  lemma WeightJoins(g: Geometry, d: Disk, a: map<Slot, Node>, b: map<Slot, Node>)
    requires DistinctDirs(a, b)
    ensures Weight(g, d, a + b) == Weight(g, d, a) + Weight(g, d, b)
  {
    hide Extent, DirSlots, Sum;
    SumJoins(Extents(g, d, a), Extents(g, d, b));
    ExtentsJoin(g, d, a, b);
  }

  lemma ExtentsJoin(g: Geometry, d: Disk, a: map<Slot, Node>, b: map<Slot, Node>)
    requires DistinctDirs(a, b)
    ensures Extents(g, d, a + b) == Extents(g, d, a) + Extents(g, d, b)
  {
    hide Extent, DirSlots;
    var all, x, y := Extents(g, d, a + b), Extents(g, d, a), Extents(g, d, b);
    assert forall s :: s in all <==> s in x || s in y;
    assert forall s :: s in x ==> s !in b && all[s] == x[s];
    assert forall s :: s in y ==> all[s] == y[s];
  }

  lemma WeightPart(g: Geometry, d: Disk, a: map<Slot, Node>, b: map<Slot, Node>)
    requires forall s :: s in a ==> s in b && b[s] == a[s]
    ensures Weight(g, d, a) <= Weight(g, d, b)
  {
    hide Extent, DirSlots;
    SumPart(Extents(g, d, a), Extents(g, d, b));
  }

  lemma WeightOne(g: Geometry, d: Disk, s: Slot, node: Node)
    ensures Weight(g, d, map[s := node]) == if node.DirNode? then Extent(d, DirSlots(g, node.clusters)) else 0
  {
    hide Extent, DirSlots;
    var m := Extents(g, d, map[s := node]);
    if node.DirNode? {
      assert s in m && m - {s} == map[];
      SumTakes(m, s);
    } else {
      assert m == map[];
    }
  }

  lemma WeightNone(g: Geometry, d: Disk)
    ensures Weight(g, d, map[]) == 0
  {
    assert Extents(g, d, map[]) == map[];
  }
}
