/** How deep a node lies: every live slot hangs below the root at exactly one level. */
module Levels {
  import opened Common
  import opened Disk
  import opened Fat
  import opened Layout
  import opened Tree
  import opened View
  import opened Names

  /** `s` is a slot of the directory `p`. */
  ghost predicate Parent(g: Geometry, nodes: map<Slot, Node>, p: Option<Slot>, s: Slot) {
    IsDirId(nodes, p) && s in SlotsOf(g, nodes, p)
  }

  /** `x` lies `n` levels below `top`; no identity is the root. */
  ghost predicate Below(g: Geometry, nodes: map<Slot, Node>, top: Option<Slot>, x: Option<Slot>, n: nat)
    decreases n
  {
    if n == 0 then x == top
    else x.Some? && x.value in nodes && exists p :: Parent(g, nodes, p, x.value) && Below(g, nodes, top, p, n - 1)
  }

  /** No directory lies more than `depth` levels below the root. */
  ghost predicate Shallow(g: Geometry, nodes: map<Slot, Node>, depth: nat) {
    forall s, n: nat :: s in nodes && nodes[s].DirNode? && Below(g, nodes, None, Some(s), n) ==> n <= depth
  }

  // ----- One level each -----------------------------------------------------------------------

  lemma OneParent(v: State, nodes: map<Slot, Node>, p: Option<Slot>, q: Option<Slot>, s: Slot)
    requires Sound(v, nodes) && Parent(v.g, nodes, p, s) && Parent(v.g, nodes, q, s)
    ensures p == q
  {
    hide Sound, SlotsOf;
    var i :| 0 <= i < |SlotsOf(v.g, nodes, p)| && SlotsOf(v.g, nodes, p)[i] == s;
    var j :| 0 <= j < |SlotsOf(v.g, nodes, q)| && SlotsOf(v.g, nodes, q)[j] == s;
    OneHome(v, nodes, p, i, q, j);
  }

  lemma {:induction false} OneTop(v: State, nodes: map<Slot, Node>, top: Option<Slot>, top': Option<Slot>,
                                  x: Option<Slot>, n: nat)
    requires Sound(v, nodes) && Below(v.g, nodes, top, x, n) && Below(v.g, nodes, top', x, n)
    ensures top == top'
    decreases n
  {
    hide Sound, Parent;
    if n > 0 {
      var p :| Parent(v.g, nodes, p, x.value) && Below(v.g, nodes, top, p, n - 1);
      var q :| Parent(v.g, nodes, q, x.value) && Below(v.g, nodes, top', q, n - 1);
      OneParent(v, nodes, p, q, x.value);
      OneTop(v, nodes, top, top', p, n - 1);
    }
  }

  lemma {:induction false} OneLevel(v: State, nodes: map<Slot, Node>, x: Option<Slot>, a: nat, b: nat)
    requires Sound(v, nodes) && Below(v.g, nodes, None, x, a) && Below(v.g, nodes, None, x, b)
    ensures a == b
    decreases a
  {
    hide Sound, Parent;
    if a > 0 && b > 0 {
      var p :| Parent(v.g, nodes, p, x.value) && Below(v.g, nodes, None, p, a - 1);
      var q :| Parent(v.g, nodes, q, x.value) && Below(v.g, nodes, None, q, b - 1);
      OneParent(v, nodes, p, q, x.value);
      OneLevel(v, nodes, p, a - 1, b - 1);
    }
  }

  lemma {:induction false} BelowJoin(g: Geometry, nodes: map<Slot, Node>, top: Option<Slot>, middle: Option<Slot>,
                                     x: Option<Slot>, a: nat, b: nat)
    requires Below(g, nodes, top, middle, a) && Below(g, nodes, middle, x, b)
    ensures Below(g, nodes, top, x, a + b)
    decreases b
  {
    hide Parent;
    if b > 0 {
      var p :| Parent(g, nodes, p, x.value) && Below(g, nodes, middle, p, b - 1);
      BelowJoin(g, nodes, top, middle, p, a, b - 1);
    }
  }

  lemma BelowItself(g: Geometry, nodes: map<Slot, Node>, x: Option<Slot>)
    ensures Below(g, nodes, x, x, 0)
  {
  }

  lemma ChildBelow(g: Geometry, nodes: map<Slot, Node>, p: Option<Slot>, s: Slot)
    requires Parent(g, nodes, p, s) && s in nodes
    ensures Below(g, nodes, p, Some(s), 1)
  {
    hide Parent;
    BelowItself(g, nodes, p);
  }

  /** What lies below two different slots of one directory is different. */
  lemma Apart(v: State, nodes: map<Slot, Node>, id: Option<Slot>, level: nat, i: nat, j: nat, x: Slot, m: nat, n: nat)
    requires Sound(v, nodes) && IsDirId(nodes, id) && Below(v.g, nodes, None, id, level)
    requires i < |SlotsOf(v.g, nodes, id)| && j < |SlotsOf(v.g, nodes, id)|
    requires SlotsOf(v.g, nodes, id)[i] in nodes && SlotsOf(v.g, nodes, id)[j] in nodes
    requires Below(v.g, nodes, Some(SlotsOf(v.g, nodes, id)[i]), Some(x), m)
    requires Below(v.g, nodes, Some(SlotsOf(v.g, nodes, id)[j]), Some(x), n)
    ensures i == j
  {
    hide Sound, SlotsOf, Below;
    var a, b := SlotsOf(v.g, nodes, id)[i], SlotsOf(v.g, nodes, id)[j];
    ChildBelow(v.g, nodes, id, a);
    ChildBelow(v.g, nodes, id, b);
    BelowJoin(v.g, nodes, None, id, Some(a), level, 1);
    BelowJoin(v.g, nodes, None, id, Some(b), level, 1);
    BelowJoin(v.g, nodes, None, Some(a), Some(x), level + 1, m);
    BelowJoin(v.g, nodes, None, Some(b), Some(x), level + 1, n);
    OneLevel(v, nodes, Some(x), level + 1 + m, level + 1 + n);
    OneTop(v, nodes, Some(a), Some(b), Some(x), m);
    OneHome(v, nodes, id, i, id, j);
  }

  // ----- What a scan finds --------------------------------------------------------------------

  /** Everything a scan finds lies below one of the slots scanned. */
  lemma {:induction false} LiveBelow(v: State, nodes: map<Slot, Node>, slots: seq<Slot>, self: nat, depth: nat, x: Slot)
    returns (i: nat, n: nat)
    requires Sound(v, nodes) && v.g.perCluster > 0 && IsTable(v.g, v.fat)
    requires Live(v.g, v.d, v.fat, slots, self, depth).Some? && x in Live(v.g, v.d, v.fat, slots, self, depth).value
    requires Live(v.g, v.d, v.fat, slots, self, depth).value <= nodes.Keys
    ensures i < |slots| && slots[i] in nodes && Below(v.g, nodes, Some(slots[i]), Some(x), n)
    decreases depth, |slots|, 1
  {
    hide Sound, NodeAt, Classify, EntryAt, DirSlots, AfterDots, DotsRight, Below, Held;
    var kind := Classify(EntryAt(v.d, slots[0]));
    if kind == Used && x in Held(v.g, v.d, v.fat, slots[0], self, depth).value {
      n := HeldBelow(v, nodes, slots[0], self, depth, x);
      i := 0;
    } else {
      i, n := LiveBelow(v, nodes, slots[1..], self, depth, x);
      i := i + 1;
    }
  }

  lemma {:induction false} HeldBelow(v: State, nodes: map<Slot, Node>, s: Slot, self: nat, depth: nat, x: Slot)
    returns (n: nat)
    requires Sound(v, nodes) && v.g.perCluster > 0 && IsTable(v.g, v.fat)
    requires Held(v.g, v.d, v.fat, s, self, depth).Some? && x in Held(v.g, v.d, v.fat, s, self, depth).value
    requires Held(v.g, v.d, v.fat, s, self, depth).value <= nodes.Keys
    ensures s in nodes && Below(v.g, nodes, Some(s), Some(x), n)
    decreases depth, 0, 0
  {
    hide Sound, NodeAt, Classify, EntryAt, DirSlots, DotsRight, Live, Below;
    var node := NodeAt(v.g, v.d, v.fat, s).value;
    assert s in Held(v.g, v.d, v.fat, s, self, depth).value;
    SoundNode(v, nodes, s);
    if x == s {
      n := 0;
      BelowItself(v.g, nodes, Some(s));
    } else {
      var slots := AfterDots(DirSlots(v.g, node.clusters));
      var i, m := LiveBelow(v, nodes, slots, First(EntryAt(v.d, s)), depth - 1, x);
      assert SlotsOf(v.g, nodes, Some(s)) == slots;
      ChildBelow(v.g, nodes, Some(s), slots[i]);
      BelowJoin(v.g, nodes, Some(s), Some(slots[i]), Some(x), 1, m);
      n := 1 + m;
    }
  }

  lemma SoundNode(v: State, nodes: map<Slot, Node>, s: Slot)
    requires Sound(v, nodes) && s in nodes
    ensures v.g.perCluster > 0 && IsTable(v.g, v.fat) && NodeAt(v.g, v.d, v.fat, s) == Some(nodes[s])
  {
    hide Nodes, NodeAt, Exclusive;
    NodeIsAt(v.g, v.d, v.fat, v.depth, s);
  }

  // ----- How deep the audit has to go ---------------------------------------------------------

  function SelfId(nodes: map<Slot, Node>, id: Option<Slot>): nat {
    if id.Some? && id.value in nodes then First(nodes[id.value].entry) else 0
  }

  /** A directory `n` levels down was scanned with `n` levels fewer to go. */
  lemma {:induction false} LevelLive(v: State, nodes: map<Slot, Node>, id: Option<Slot>, n: nat)
    requires Sound(v, nodes) && IsDirId(nodes, id) && Below(v.g, nodes, None, id, n)
    ensures v.g.perCluster > 0 && IsTable(v.g, v.fat) && n <= v.depth
    ensures Live(v.g, v.d, v.fat, SlotsOf(v.g, nodes, id), SelfId(nodes, id), v.depth - n).Some?
    decreases n
  {
    hide Sound, SlotsOf, SelfId, Live;
    if n == 0 {
      RootLive(v, nodes);
    } else {
      var p :| Parent(v.g, nodes, p, id.value) && Below(v.g, nodes, None, p, n - 1);
      LevelLive(v, nodes, p, n - 1);
      ChildLive(v, nodes, p, id.value, v.depth - (n - 1));
    }
  }

  lemma RootLive(v: State, nodes: map<Slot, Node>)
    requires Sound(v, nodes)
    ensures v.g.perCluster > 0 && IsTable(v.g, v.fat)
    ensures Live(v.g, v.d, v.fat, SlotsOf(v.g, nodes, None), SelfId(nodes, None), v.depth).Some?
  {
    hide NodeAt, Exclusive, Live, RootSlots;
  }

  lemma ChildLive(v: State, nodes: map<Slot, Node>, p: Option<Slot>, s: Slot, depth: nat)
    requires Sound(v, nodes) && Parent(v.g, nodes, p, s) && IsDirId(nodes, Some(s))
    requires v.g.perCluster > 0 && IsTable(v.g, v.fat)
    requires Live(v.g, v.d, v.fat, SlotsOf(v.g, nodes, p), SelfId(nodes, p), depth).Some?
    ensures depth > 0
    ensures Live(v.g, v.d, v.fat, SlotsOf(v.g, nodes, Some(s)), SelfId(nodes, Some(s)), depth - 1).Some?
  {
    hide Nodes, NodeAt, Classify, EntryAt, DirSlots, RootSlots, DotsRight, Exclusive, Live;
    var i :| 0 <= i < |SlotsOf(v.g, nodes, p)| && SlotsOf(v.g, nodes, p)[i] == s;
    LiveIsReached(v, nodes, p, i);
    NodeIsAt(v.g, v.d, v.fat, v.depth, s);
    ReachedIsHeld(v.g, v.d, v.fat, SlotsOf(v.g, nodes, p), SelfId(nodes, p), depth, i);
  }

  lemma LiveIsReached(v: State, nodes: map<Slot, Node>, id: Option<Slot>, i: nat)
    requires Sound(v, nodes) && i < |SlotsOf(v.g, nodes, id)| && SlotsOf(v.g, nodes, id)[i] in nodes
    ensures Tree.Reached(v.d, SlotsOf(v.g, nodes, id), i)
  {
    hide Nodes, Exclusive, SlotsOf, Classify, EntryAt;
    PlaceInListing(v.g, nodes, id, i);
    if !Tree.Reached(v.d, SlotsOf(v.g, nodes, id), i) { NotReached(v.g, v.d, v.fat, v.depth, PlaceIn(id, i)); }
  }

  /** An audit that goes `depth` levels deep finds no directory further down. */
  lemma AuditedIsShallow(v: State, nodes: map<Slot, Node>)
    requires Sound(v, nodes)
    ensures Shallow(v.g, nodes, v.depth)
  {
    hide Sound, Below;
    forall s, n: nat | s in nodes && nodes[s].DirNode? && Below(v.g, nodes, None, Some(s), n)
      ensures n <= v.depth
    {
      LevelLive(v, nodes, Some(s), n);
    }
  }

  /** If no directory lies deeper, going deeper finds nothing more. */
  lemma {:induction false} ShallowLive(v: State, nodes: map<Slot, Node>, id: Option<Slot>, level: nat, slots: seq<Slot>,
                                       self: nat, depth: nat, depth': nat)
    requires Sound(v, nodes) && v.g.perCluster > 0 && IsTable(v.g, v.fat) && Shallow(v.g, nodes, level + depth)
    requires IsDirId(nodes, id) && Below(v.g, nodes, None, id, level)
    requires (forall i :: 0 <= i < |slots| ==> slots[i] in SlotsOf(v.g, nodes, id)) && depth <= depth'
    requires var live := Live(v.g, v.d, v.fat, slots, self, depth'); live.Some? && live.value <= nodes.Keys
    ensures Live(v.g, v.d, v.fat, slots, self, depth) == Live(v.g, v.d, v.fat, slots, self, depth')
    decreases depth', |slots|
  {
    hide Sound, NodeAt, Classify, EntryAt, DirSlots, RootSlots, DotsRight, Below, Shallow, SlotsOf;
    if slots != [] && Classify(EntryAt(v.d, slots[0])) != EndMark {
      assert forall i :: 0 <= i < |slots[1..]| ==> slots[1..][i] == slots[i + 1];
      ShallowLive(v, nodes, id, level, slots[1..], self, depth, depth');
      if Classify(EntryAt(v.d, slots[0])) == Used {
        ShallowHeld(v, nodes, id, level, slots[0], self, depth, depth');
      }
    }
  }

  lemma {:induction false} ShallowHeld(v: State, nodes: map<Slot, Node>, id: Option<Slot>, level: nat, s: Slot,
                                       self: nat, depth: nat, depth': nat)
    requires Sound(v, nodes) && v.g.perCluster > 0 && IsTable(v.g, v.fat) && Shallow(v.g, nodes, level + depth)
    requires IsDirId(nodes, id) && Below(v.g, nodes, None, id, level) && s in SlotsOf(v.g, nodes, id) && depth <= depth'
    requires var held := Held(v.g, v.d, v.fat, s, self, depth'); held.Some? && held.value <= nodes.Keys
    ensures Held(v.g, v.d, v.fat, s, self, depth) == Held(v.g, v.d, v.fat, s, self, depth')
    decreases depth', 0
  {
    hide Sound, NodeAt, Classify, EntryAt, DirSlots, RootSlots, DotsRight, Below, Live;
    assert s in Held(v.g, v.d, v.fat, s, self, depth').value;
    SoundNode(v, nodes, s);
    if nodes[s].DirNode? {
      ChildBelow(v.g, nodes, id, s);
      BelowJoin(v.g, nodes, None, id, Some(s), level, 1);
      assert level + 1 <= level + depth;
      var slots := AfterDots(DirSlots(v.g, nodes[s].clusters));
      assert slots == SlotsOf(v.g, nodes, Some(s));
      ShallowLive(v, nodes, Some(s), level + 1, slots, First(EntryAt(v.d, s)), depth - 1, depth' - 1);
    }
  }

  /** A shallow tree passes an audit of that depth. */
  lemma ShallowIsAudited(v: State, nodes: map<Slot, Node>, depth: nat)
    requires Sound(v, nodes) && Shallow(v.g, nodes, depth) && depth <= v.depth
    ensures Audited(v.g, v.d, v.fat, depth) && Nodes(v.g, v.d, v.fat, depth).value == nodes
  {
    hide NodeAt, Live, RootSlots, Shallow, Below, Exclusive;
    NodesKeys(v.g, v.d, v.fat, v.depth);
    BelowItself(v.g, nodes, None);
    ShallowLive(v, nodes, None, 0, RootSlots(v.g), 0, depth, v.depth);
  }

  // ----- Paths and levels -----------------------------------------------------------------------

  /** A path of `n` names ends `n` levels down. */
  lemma {:induction false} FollowBelow(g: Geometry, nodes: map<Slot, Node>, id: Option<Slot>, names: seq<string>)
    requires Follow(g, nodes, id, names).Some?
    ensures Below(g, nodes, id, Follow(g, nodes, id, names).value, |names|)
    decreases |names|
  {
    hide Below, ScanIn, SlotsOf;
    if names == [] {
      BelowItself(g, nodes, id);
    } else {
      var s := Child(g, nodes, id, names[0]).slot;
      var i := ScanHere(nodes, SlotsOf(g, nodes, id), names[0]);
      ChildBelow(g, nodes, id, s);
      FollowBelow(g, nodes, Some(s), names[1..]);
      BelowJoin(g, nodes, id, Some(s), Follow(g, nodes, id, names).value, 1, |names| - 1);
    }
  }

  /** The nodes that were there keep their kind and their slots; only `slot` is new. */
  ghost predicate Extended(g: Geometry, before: map<Slot, Node>, after: map<Slot, Node>, slot: Slot) {
    && after.Keys == before.Keys + {slot} && slot !in before
    && (forall id :: IsDirId(before, id) ==> IsDirId(after, id) && SlotsOf(g, before, id) <= SlotsOf(g, after, id))
  }

  lemma {:induction false} LongerSectors(g: Geometry, a: seq<nat>, b: seq<nat>)
    requires a <= b
    ensures ChainSectors(g, a) <= ChainSectors(g, b)
    decreases |b|
  {
    if |a| < |b| {
      LongerSectors(g, a, b[..|b| - 1]);
    } else {
      assert a == b;
    }
  }

  lemma LongerSlots(g: Geometry, a: seq<nat>, b: seq<nat>)
    requires a <= b
    ensures AfterDots(DirSlots(g, a)) <= AfterDots(DirSlots(g, b))
  {
    LongerSectors(g, a, b);
    PrefixSlots(ChainSectors(g, a), ChainSectors(g, b));
  }

  lemma PrefixSlots(a: seq<Addr>, b: seq<Addr>)
    requires a <= b
    ensures SlotsIn(a) <= SlotsIn(b)
  {
    assert forall i :: 0 <= i < |SlotsIn(a)| ==> SlotsIn(a)[i] == SlotsIn(b)[i];
  }

  lemma SameParent(u: State, before: map<Slot, Node>, w: State, after: map<Slot, Node>, slot: Slot, p: Option<Slot>,
                   x: Slot)
    requires Sound(u, before) && Sound(w, after) && w.g == u.g && Extended(u.g, before, after, slot)
    requires x in before && Parent(u.g, after, p, x)
    ensures Parent(u.g, before, p, x)
  {
    hide Sound, SlotsOf;
    var home, i := HomeOf(u, before, x);
    assert SlotsOf(u.g, after, home)[i] == x;
    OneParent(w, after, p, home, x);
  }

  /** Old nodes stay on their level. */
  lemma {:induction false} OldLevel(u: State, before: map<Slot, Node>, w: State, after: map<Slot, Node>, slot: Slot,
                                    x: Option<Slot>, n: nat)
    requires Sound(u, before) && Sound(w, after) && w.g == u.g && Extended(u.g, before, after, slot)
    requires Below(u.g, after, None, x, n) && (x.Some? ==> x.value in before)
    ensures Below(u.g, before, None, x, n)
    decreases n
  {
    hide Sound, Parent, Extended;
    if n > 0 {
      var p :| Parent(u.g, after, p, x.value) && Below(u.g, after, None, p, n - 1);
      SameParent(u, before, w, after, slot, p, x.value);
      ParentIsLive(u.g, before, p, x.value);
      OldLevel(u, before, w, after, slot, p, n - 1);
    }
  }

  lemma ParentIsLive(g: Geometry, nodes: map<Slot, Node>, p: Option<Slot>, s: Slot)
    requires Parent(g, nodes, p, s)
    ensures IsDirId(nodes, p) && (p.Some? ==> p.value in nodes)
  {
  }

  /** A directory made less than `depth` levels down leaves the tree within `depth` levels. */
  lemma MadeShallow(u: State, before: map<Slot, Node>, w: State, after: map<Slot, Node>, parent: Option<Slot>,
                    slot: Slot, level: nat, depth: nat)
    requires Sound(u, before) && Sound(w, after) && w.g == u.g && Extended(u.g, before, after, slot)
    requires Shallow(u.g, before, depth) && Below(u.g, before, None, parent, level) && level < depth
    requires Parent(u.g, after, parent, slot) && (parent.Some? ==> parent.value in before)
    requires forall s :: s in before ==> after[s].DirNode? == before[s].DirNode?
    ensures Shallow(u.g, after, depth)
  {
    hide Sound, Parent, SlotsOf;
    forall s, n: nat | s in after && after[s].DirNode? && Below(u.g, after, None, Some(s), n)
      ensures n <= depth
    {
      if s in before {
        OldLevel(u, before, w, after, slot, Some(s), n);
      } else if n > 0 {
        var p :| Parent(u.g, after, p, slot) && Below(u.g, after, None, p, n - 1);
        OneParent(w, after, p, parent, slot);
        OldLevel(u, before, w, after, slot, parent, n - 1);
        OneLevel(u, before, parent, n - 1, level);
      }
    }
  }
}
