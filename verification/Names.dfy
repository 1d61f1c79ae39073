/** Name lookup: what scanning a directory finds, as a function of the live tree,
    and how each mutation changes it. */
module Names {
  import opened Common
  import opened Disk
  import opened Fat
  import opened Layout
  import opened Tree
  import opened View
  import opened FatName
  import opened Growth

  /** Not there, there, or cut short by an entry that cannot be decoded. */
  datatype Found = Missing | Here(slot: Slot) | Damaged

  /** What a lookup may match: the entry's fields are consistent. */
  ghost predicate Describable(g: Geometry, d: Disk, fat: seq<byte>, s: Slot)
    requires g.perCluster > 0 && IsTable(g, fat)
  {
    var e := EntryAt(d, s);
    !Bit(Attributes(e), 0x40) && !Bit(Attributes(e), 0x80) && U16(e, 20) == 0 && NodeAt(g, d, fat, s).Some?
  }

  /** A lookup's scan over the slots of a directory on the device. */
  ghost function Scan(g: Geometry, d: Disk, fat: seq<byte>, slots: seq<Slot>, name: string): Found
    requires g.perCluster > 0 && IsTable(g, fat)
  {
    if slots == [] || EntryAt(d, slots[0])[0] == 0 then Missing
    else
      var e := EntryAt(d, slots[0]);
      if Passed(e) || ShortName(e).Hidden? then Scan(g, d, fat, slots[1..], name)
      else if ShortName(e).Broken? || !Describable(g, d, fat, slots[0]) then Damaged
      else if ShortName(e) == Name(name) then Here(slots[0])
      else Scan(g, d, fat, slots[1..], name)
  }

  /** The decoded name of a live slot that a lookup does not pass over. */
  ghost function NameOf(nodes: map<Slot, Node>, s: Slot): Option<Decoded> {
    if s in nodes && !Passed(nodes[s].entry) then Some(ShortName(nodes[s].entry)) else None
  }

  /** The same scan over the live tree alone. */
  ghost function ScanIn(nodes: map<Slot, Node>, slots: seq<Slot>, name: string): Found {
    if slots == [] then Missing
    else match NameOf(nodes, slots[0])
      case Some(Broken) => Damaged
      case Some(Name(n)) => if n == name then Here(slots[0]) else ScanIn(nodes, slots[1..], name)
      case _ => ScanIn(nodes, slots[1..], name)
  }

  // ----- The two scans agree on an audited volume -------------------------------------------

  ghost predicate SlotsMatch(g: Geometry, d: Disk, fat: seq<byte>, nodes: map<Slot, Node>, slots: seq<Slot>)
    requires g.perCluster > 0 && IsTable(g, fat)
  {
    && (forall i :: 0 <= i < |slots| && Reached(d, slots, i) ==>
          && Classify(EntryAt(d, slots[i])) != Bad
          && (Classify(EntryAt(d, slots[i])) == Used <==> slots[i] in nodes)
          && (slots[i] in nodes ==> NodeAt(g, d, fat, slots[i]).Some? && nodes[slots[i]].entry == EntryAt(d, slots[i])))
    && (forall i :: 0 <= i < |slots| && !Reached(d, slots, i) ==> slots[i] !in nodes)
  }

  lemma SkippedIsPassed(e: Entry)
    ensures Classify(e) == Skipped ==> Passed(e)
    ensures Classify(e) == Used ==> !Bit(Attributes(e), 0x40) && !Bit(Attributes(e), 0x80) && U16(e, 20) == 0
    ensures Classify(e) == EndMark <==> e[0] == 0
  {
    assert Bit(LONG_NAME, 8);
  }

  lemma {:induction false} ScansAgree(g: Geometry, d: Disk, fat: seq<byte>, nodes: map<Slot, Node>, slots: seq<Slot>,
                                      name: string)
    requires g.perCluster > 0 && IsTable(g, fat) && SlotsMatch(g, d, fat, nodes, slots)
    ensures Scan(g, d, fat, slots, name) == ScanIn(nodes, slots, name)
    decreases |slots|
  {
    hide NodeAt, Classify, EntryAt, ShortName, Passed;
    if slots != [] {
      var e := EntryAt(d, slots[0]);
      SkippedIsPassed(e);
      assert Reached(d, slots, 0);
      if Classify(e) == EndMark {
        assert forall i :: 0 < i < |slots| ==> !Reached(d, slots, i);
        NoneNamed(nodes, slots, name);
      } else {
        assert forall i :: 0 <= i < |slots[1..]| ==> slots[1..][i] == slots[i + 1];
        forall i | 0 <= i < |slots[1..]|
          ensures Reached(d, slots[1..], i) <==> Reached(d, slots, i + 1)
        {
          ReachedTail(d, slots, i);
        }
        ScansAgree(g, d, fat, nodes, slots[1..], name);
      }
    }
  }

  lemma ReachedTail(d: Disk, slots: seq<Slot>, i: nat)
    requires i + 1 < |slots| && Classify(EntryAt(d, slots[0])) != EndMark
    ensures Reached(d, slots[1..], i) <==> Reached(d, slots, i + 1)
  {
    hide Classify, EntryAt;
    if Reached(d, slots[1..], i) {
      forall j | 0 <= j < i + 1
        ensures Classify(EntryAt(d, slots[j])) != EndMark
      {
        if j > 0 { assert slots[1..][j - 1] == slots[j]; }
      }
    }
    if Reached(d, slots, i + 1) {
      assert forall j :: 0 <= j < i ==> slots[1..][j] == slots[j + 1];
    }
  }

  lemma {:induction false} NoneNamed(nodes: map<Slot, Node>, slots: seq<Slot>, name: string)
    requires forall i :: 0 <= i < |slots| ==> slots[i] !in nodes
    ensures ScanIn(nodes, slots, name) == Missing
    decreases |slots|
  {
    if slots != [] {
      assert forall i :: 0 <= i < |slots[1..]| ==> slots[1..][i] == slots[i + 1];
      NoneNamed(nodes, slots[1..], name);
    }
  }

  // ----- Directories by identity --------------------------------------------------------------

  /** The slots of a directory; no identity is the root. */
  ghost function SlotsOf(g: Geometry, nodes: map<Slot, Node>, id: Option<Slot>): seq<Slot> {
    match id
    case None => RootSlots(g)
    case Some(s) => if s in nodes && nodes[s].DirNode? then AfterDots(DirSlots(g, nodes[s].clusters)) else []
  }

  ghost predicate IsDirId(nodes: map<Slot, Node>, id: Option<Slot>) {
    id.Some? ==> id.value in nodes && nodes[id.value].DirNode?
  }

  ghost function Child(g: Geometry, nodes: map<Slot, Node>, id: Option<Slot>, name: string): Found {
    ScanIn(nodes, SlotsOf(g, nodes, id), name)
  }

  /** The next entry of that name, hidden behind the first. */
  ghost function Second(g: Geometry, nodes: map<Slot, Node>, id: Option<Slot>, name: string): Found {
    ScanSecond(nodes, SlotsOf(g, nodes, id), name)
  }

  function PlaceIn(id: Option<Slot>, i: nat): Place {
    match id
    case None => InRoot(i)
    case Some(s) => InDir(s, i)
  }

  lemma PlaceInListing(g: Geometry, nodes: map<Slot, Node>, id: Option<Slot>, i: nat)
    requires i < |SlotsOf(g, nodes, id)|
    ensures IsPlace(g, nodes, PlaceIn(id, i)) && Listing(g, nodes, PlaceIn(id, i)) == SlotsOf(g, nodes, id)
  {
    hide RootSlots, DirSlots;
  }

  /** On an audited volume every listing matches the live tree. */
  lemma ListingMatches(g: Geometry, d: Disk, fat: seq<byte>, depth: nat, id: Option<Slot>)
    requires Audited(g, d, fat, depth)
    ensures var nodes := Nodes(g, d, fat, depth).value; SlotsMatch(g, d, fat, nodes, SlotsOf(g, nodes, id))
  {
    hide Nodes, NodeAt, Classify, EntryAt, RootSlots, DirSlots, Exclusive, DotsRight;
    var nodes := Nodes(g, d, fat, depth).value;
    var slots := SlotsOf(g, nodes, id);
    forall i | 0 <= i < |slots| && Reached(d, slots, i)
      ensures Classify(EntryAt(d, slots[i])) != Bad && (Classify(EntryAt(d, slots[i])) == Used <==> slots[i] in nodes)
      ensures slots[i] in nodes ==> NodeAt(g, d, fat, slots[i]).Some? && nodes[slots[i]].entry == EntryAt(d, slots[i])
    {
      PlaceInListing(g, nodes, id, i);
      PlaceChecked(g, d, fat, depth, PlaceIn(id, i));
      if slots[i] in nodes { NodeIsAt(g, d, fat, depth, slots[i]); }
    }
    forall i | 0 <= i < |slots| && !Reached(d, slots, i)
      ensures slots[i] !in nodes
    {
      PlaceInListing(g, nodes, id, i);
      NotReached(g, d, fat, depth, PlaceIn(id, i));
    }
  }

  lemma NodeIsAt(g: Geometry, d: Disk, fat: seq<byte>, depth: nat, s: Slot)
    requires Audited(g, d, fat, depth) && s in Nodes(g, d, fat, depth).value
    ensures NodeAt(g, d, fat, s) == Some(Nodes(g, d, fat, depth).value[s])
    ensures Nodes(g, d, fat, depth).value[s].entry == EntryAt(d, s) && Classify(EntryAt(d, s)) == Used
  {
    hide Live, NodeAt, Classify, EntryAt, Exclusive;
    NodesKeys(g, d, fat, depth);
    NodeEntry(g, d, fat, s);
  }

  lemma NotReached(g: Geometry, d: Disk, fat: seq<byte>, depth: nat, place: Place)
    requires Audited(g, d, fat, depth) && IsPlace(g, Nodes(g, d, fat, depth).value, place)
    requires !Reached(d, Listing(g, Nodes(g, d, fat, depth).value, place), place.index)
    ensures var nodes := Nodes(g, d, fat, depth).value; Listing(g, nodes, place)[place.index] !in nodes
  {
    hide Nodes, NodeAt, Classify, EntryAt, RootSlots, DirSlots, Exclusive;
    var nodes := Nodes(g, d, fat, depth).value;
    var s := Listing(g, nodes, place)[place.index];
    if s in nodes {
      var home := PlaceOf(g, d, fat, depth, s);
      PlaceUnique(g, d, fat, depth, place, home);
    }
  }

  /** What a lookup finds on the device is what the live tree says. */
  lemma LookupIsChild(g: Geometry, d: Disk, fat: seq<byte>, depth: nat, id: Option<Slot>, name: string)
    requires Audited(g, d, fat, depth)
    ensures var nodes := Nodes(g, d, fat, depth).value;
      Scan(g, d, fat, SlotsOf(g, nodes, id), name) == Child(g, nodes, id, name)
  {
    hide Nodes, SlotsMatch, Scan, ScanIn, SlotsOf, Exclusive;
    var nodes := Nodes(g, d, fat, depth).value;
    ListingMatches(g, d, fat, depth, id);
    ScansAgree(g, d, fat, nodes, SlotsOf(g, nodes, id), name);
  }

  // ----- How scans change ------------------------------------------------------------------------

  lemma {:induction false} ScanFrame(nodes: map<Slot, Node>, nodes': map<Slot, Node>, slots: seq<Slot>, name: string)
    requires forall i :: 0 <= i < |slots| ==> NameOf(nodes', slots[i]) == NameOf(nodes, slots[i])
    ensures ScanIn(nodes', slots, name) == ScanIn(nodes, slots, name)
    decreases |slots|
  {
    hide NameOf;
    if slots != [] {
      assert forall i :: 0 <= i < |slots[1..]| ==> slots[1..][i] == slots[i + 1];
      ScanFrame(nodes, nodes', slots[1..], name);
    }
  }

  /** One slot gained a name that was not there before. */
  lemma {:induction false} ScanGained(nodes: map<Slot, Node>, nodes': map<Slot, Node>, slots: seq<Slot>, i: nat,
                                      n: string, name: string)
    requires i < |slots| && NameOf(nodes, slots[i]) == None && NameOf(nodes', slots[i]) == Some(Name(n))
    requires forall j :: 0 <= j < |slots| && j != i ==> NameOf(nodes', slots[j]) == NameOf(nodes, slots[j])
    ensures name != n ==> ScanIn(nodes', slots, name) == ScanIn(nodes, slots, name)
    ensures ScanIn(nodes, slots, n) == Missing ==> ScanIn(nodes', slots, n) == Here(slots[i])
    decreases |slots|
  {
    hide NameOf;
    assert forall j :: 0 <= j < |slots[1..]| ==> slots[1..][j] == slots[j + 1];
    if i == 0 {
      ScanFrame(nodes, nodes', slots[1..], name);
    } else {
      assert NameOf(nodes', slots[0]) == NameOf(nodes, slots[0]);
      ScanGained(nodes, nodes', slots[1..], i - 1, n, name);
    }
  }

  /** One slot lost its name. */
  lemma {:induction false} ScanLost(nodes: map<Slot, Node>, nodes': map<Slot, Node>, slots: seq<Slot>, i: nat,
                                    n: string, name: string)
    requires i < |slots| && NameOf(nodes, slots[i]) == Some(Name(n)) && NameOf(nodes', slots[i]) == None && name != n
    requires forall j :: 0 <= j < |slots| && j != i ==> NameOf(nodes', slots[j]) == NameOf(nodes, slots[j])
    ensures ScanIn(nodes', slots, name) == ScanIn(nodes, slots, name)
    decreases |slots|
  {
    hide NameOf;
    assert forall j :: 0 <= j < |slots[1..]| ==> slots[1..][j] == slots[j + 1];
    if i == 0 {
      ScanFrame(nodes, nodes', slots[1..], name);
    } else {
      assert NameOf(nodes', slots[0]) == NameOf(nodes, slots[0]);
      ScanLost(nodes, nodes', slots[1..], i - 1, n, name);
    }
  }

  /** What a scan finds behind the first entry of that name. */
  ghost function ScanSecond(nodes: map<Slot, Node>, slots: seq<Slot>, name: string): Found {
    if slots == [] then Missing
    else match NameOf(nodes, slots[0])
      case Some(Broken) => Damaged
      case Some(Name(n)) => if n == name then ScanIn(nodes, slots[1..], name) else ScanSecond(nodes, slots[1..], name)
      case _ => ScanSecond(nodes, slots[1..], name)
  }

  /** Without the slot it found, a scan finds the next one. */
  lemma {:induction false} ScanNext(nodes: map<Slot, Node>, slots: seq<Slot>, at: nat, name: string)
    requires at < |slots| && ScanIn(nodes, slots, name) == Here(slots[at])
    requires forall j :: 0 <= j < |slots| && j != at ==> slots[j] != slots[at]
    ensures ScanIn(nodes - {slots[at]}, slots, name) == ScanSecond(nodes, slots, name)
    decreases |slots|
  {
    hide NameOf;
    var nodes' := nodes - {slots[at]};
    NameWithout(nodes, slots, at);
    assert forall j :: 0 <= j < |slots[1..]| ==> slots[1..][j] == slots[j + 1];
    if at == 0 {
      if NameOf(nodes, slots[0]) == Some(Name(name)) {
        ScanFrame(nodes, nodes', slots[1..], name);
      } else {
        var i := ScanHere(nodes, slots[1..], name);
        assert false;
      }
    } else {
      ScanNext(nodes, slots[1..], at - 1, name);
    }
  }

  lemma NameWithout(nodes: map<Slot, Node>, slots: seq<Slot>, at: nat)
    requires at < |slots| && forall j :: 0 <= j < |slots| && j != at ==> slots[j] != slots[at]
    ensures NameOf(nodes - {slots[at]}, slots[at]) == None
    ensures forall j :: 0 <= j < |slots| && j != at ==>
      NameOf(nodes - {slots[at]}, slots[j]) == NameOf(nodes, slots[j])
  {
  }

  /** A scan stops at a live slot of that very name. */
  lemma {:induction false} ScanHere(nodes: map<Slot, Node>, slots: seq<Slot>, name: string) returns (i: nat)
    requires ScanIn(nodes, slots, name).Here?
    ensures i < |slots| && ScanIn(nodes, slots, name) == Here(slots[i]) && NameOf(nodes, slots[i]) == Some(Name(name))
    decreases |slots|
  {
    hide NameOf;
    if NameOf(nodes, slots[0]) == Some(Name(name)) {
      i := 0;
    } else {
      i := ScanHere(nodes, slots[1..], name);
      i := i + 1;
    }
  }

  // ----- How each mutation changes lookups -------------------------------------------------------

  /** An audited volume and its live tree. */
  datatype State = State(g: Geometry, d: Disk, fat: seq<byte>, depth: nat)

  ghost predicate Sound(v: State, nodes: map<Slot, Node>) {
    Audited(v.g, v.d, v.fat, v.depth) && Nodes(v.g, v.d, v.fat, v.depth).value == nodes
  }

  lemma OneHome(v: State, nodes: map<Slot, Node>, id: Option<Slot>, i: nat, id': Option<Slot>, j: nat)
    requires Sound(v, nodes) && i < |SlotsOf(v.g, nodes, id)| && j < |SlotsOf(v.g, nodes, id')|
    requires SlotsOf(v.g, nodes, id)[i] == SlotsOf(v.g, nodes, id')[j]
    ensures id == id' && i == j
  {
    hide Nodes, SlotsOf, Audited;
    PlaceInListing(v.g, nodes, id, i);
    PlaceInListing(v.g, nodes, id', j);
    PlaceUnique(v.g, v.d, v.fat, v.depth, PlaceIn(id, i), PlaceIn(id', j));
  }

  /** Every live slot lies in some directory. */
  lemma HomeOf(v: State, nodes: map<Slot, Node>, x: Slot) returns (id: Option<Slot>, i: nat)
    requires Sound(v, nodes) && x in nodes
    ensures IsDirId(nodes, id) && i < |SlotsOf(v.g, nodes, id)| && SlotsOf(v.g, nodes, id)[i] == x
  {
    hide Nodes, Exclusive, RootSlots, DirSlots;
    var place := PlaceOf(v.g, v.d, v.fat, v.depth, x);
    id := if place.InRoot? then None else Some(place.dir);
    i := place.index;
  }

  /** Rewriting a file under its own name changes no lookup. */
  lemma RewriteKeepsNames(g: Geometry, nodes: map<Slot, Node>, s: Slot, node: Node, id: Option<Slot>, name: string)
    requires s in nodes && nodes[s].FileNode? && node.FileNode? && NameOf(nodes[s := node], s) == NameOf(nodes, s)
    ensures Child(g, nodes[s := node], id, name) == Child(g, nodes, id, name)
    ensures IsDirId(nodes[s := node], id) <==> IsDirId(nodes, id)
  {
    hide RootSlots, DirSlots;
    ScanFrame(nodes, nodes[s := node], SlotsOf(g, nodes, id), name);
  }

  /** A new name appears where it was missing and nowhere else. */
  lemma CreationNames(v: State, nodes: map<Slot, Node>, v': State, node: Node, dir: Option<Slot>, at: nat, n: string,
                      id: Option<Slot>, name: string)
    requires Sound(v, nodes) && IsDirId(nodes, dir) && at < |SlotsOf(v.g, nodes, dir)|
    requires var s := SlotsOf(v.g, nodes, dir)[at]; s !in nodes && Sound(v', nodes[s := node]) && v'.g == v.g
    requires NameOf(map[SlotsOf(v.g, nodes, dir)[at] := node], SlotsOf(v.g, nodes, dir)[at]) == Some(Name(n))
    requires IsDirId(nodes, id)
    ensures var s := SlotsOf(v.g, nodes, dir)[at];
      && (id != dir || name != n ==> Child(v.g, nodes[s := node], id, name) == Child(v.g, nodes, id, name))
      && (Child(v.g, nodes, dir, n) == Missing ==> Child(v.g, nodes[s := node], dir, n) == Here(s))
      && Child(v.g, nodes[s := node], Some(s), name) == Missing
      && IsDirId(nodes[s := node], id)
  {
    hide RootSlots, DirSlots, Sound, ScanIn, ShortName, Passed;
    var s := SlotsOf(v.g, nodes, dir)[at];
    var nodes' := nodes[s := node];
    var slots := SlotsOf(v.g, nodes, id);
    assert SlotsOf(v.g, nodes', id) == slots && SlotsOf(v.g, nodes', dir) == SlotsOf(v.g, nodes, dir);
    forall j | 0 <= j < |slots| && (id != dir || j != at)
      ensures slots[j] != s
    {
      if slots[j] == s { OneHome(v, nodes, dir, at, id, j); }
    }
    if id != dir {
      ScanFrame(nodes, nodes', slots, name);
    }
    forall j | 0 <= j < |SlotsOf(v.g, nodes, dir)| && j != at
      ensures SlotsOf(v.g, nodes, dir)[j] != s
    {
      if SlotsOf(v.g, nodes, dir)[j] == s { OneHome(v, nodes, dir, at, dir, j); }
    }
    ScanGained(nodes, nodes', SlotsOf(v.g, nodes, dir), at, n, name);
    NewIsEmpty(v, nodes, v', node, dir, at, name);
  }

  lemma NewIsEmpty(v: State, nodes: map<Slot, Node>, v': State, node: Node, dir: Option<Slot>, at: nat, name: string)
    requires Sound(v, nodes) && IsDirId(nodes, dir) && at < |SlotsOf(v.g, nodes, dir)|
    requires var s := SlotsOf(v.g, nodes, dir)[at]; s !in nodes && Sound(v', nodes[s := node]) && v'.g == v.g
    ensures var s := SlotsOf(v.g, nodes, dir)[at]; Child(v.g, nodes[s := node], Some(s), name) == Missing
  {
    hide RootSlots, DirSlots, Sound, ScanIn;
    var s := SlotsOf(v.g, nodes, dir)[at];
    var nodes' := nodes[s := node];
    var slots := SlotsOf(v.g, nodes', Some(s));
    forall j | 0 <= j < |slots|
      ensures slots[j] !in nodes'
    {
      var x := slots[j];
      if x == s {
        OneHome(v', nodes', Some(s), j, dir, at);
      } else if x in nodes {
        var home, i := HomeOf(v, nodes, x);
        assert SlotsOf(v.g, nodes', home) == SlotsOf(v.g, nodes, home);
        OneHome(v', nodes', Some(s), j, home, i);
      }
    }
    NoneNamed(nodes', slots, name);
  }

  /** Removing an entry takes away its own name in its own directory. */
  lemma RemovalNames(v: State, nodes: map<Slot, Node>, dir: Option<Slot>, at: nat, n: string, id: Option<Slot>,
                     name: string)
    requires Sound(v, nodes) && at < |SlotsOf(v.g, nodes, dir)|
    requires NameOf(nodes, SlotsOf(v.g, nodes, dir)[at]) == Some(Name(n))
    requires id != Some(SlotsOf(v.g, nodes, dir)[at]) && (id != dir || name != n)
    ensures var s := SlotsOf(v.g, nodes, dir)[at];
      && Child(v.g, nodes - {s}, id, name) == Child(v.g, nodes, id, name)
      && (IsDirId(nodes - {s}, id) <==> IsDirId(nodes, id))
  {
    hide RootSlots, DirSlots, Sound, ScanIn, ShortName, Passed;
    var s := SlotsOf(v.g, nodes, dir)[at];
    var nodes' := nodes - {s};
    var slots := SlotsOf(v.g, nodes, id);
    assert SlotsOf(v.g, nodes', id) == slots;
    forall j | 0 <= j < |slots| && (id != dir || j != at)
      ensures slots[j] != s
    {
      if slots[j] == s { OneHome(v, nodes, dir, at, id, j); }
    }
    if id != dir {
      ScanFrame(nodes, nodes', slots, name);
    } else {
      ScanLost(nodes, nodes', slots, at, n, name);
    }
  }

  /** What was hidden behind the removed entry is found in its place. */
  lemma RemovedUncovers(v: State, nodes: map<Slot, Node>, dir: Option<Slot>, at: nat, n: string)
    requires Sound(v, nodes) && at < |SlotsOf(v.g, nodes, dir)|
    requires Child(v.g, nodes, dir, n) == Here(SlotsOf(v.g, nodes, dir)[at])
    requires dir != Some(SlotsOf(v.g, nodes, dir)[at])
    ensures Child(v.g, nodes - {SlotsOf(v.g, nodes, dir)[at]}, dir, n) == Second(v.g, nodes, dir, n)
  {
    hide RootSlots, DirSlots, Sound, ScanIn, ScanSecond;
    var slots := SlotsOf(v.g, nodes, dir);
    var s := slots[at];
    assert SlotsOf(v.g, nodes - {s}, dir) == slots;
    forall j | 0 <= j < |slots| && j != at
      ensures slots[j] != s
    {
      if slots[j] == s { OneHome(v, nodes, dir, at, dir, j); }
    }
    ScanNext(nodes, slots, at, n);
  }

  /** A new name in a directory that had to grow for it. */
  lemma ExtensionNames(v: State, nodes: map<Slot, Node>, v': State, dir: Slot, c: nat, node: Node, n: string,
                       id: Option<Slot>, name: string)
    requires Sound(v, nodes) && dir in nodes && nodes[dir].DirNode? && nodes[dir].clusters != []
    requires var s := Slot(Data(c, 0), 0);
      && s !in nodes && v'.g == v.g && NameOf(map[s := node], s) == Some(Name(n))
      && Sound(v', nodes[dir := DirNode(nodes[dir].entry, nodes[dir].clusters + [c])][s := node])
    requires IsDirId(nodes, id)
    ensures var s := Slot(Data(c, 0), 0);
      var nodes' := nodes[dir := DirNode(nodes[dir].entry, nodes[dir].clusters + [c])][s := node];
      && (id != Some(dir) || name != n ==> Child(v.g, nodes', id, name) == Child(v.g, nodes, id, name))
      && (Child(v.g, nodes, Some(dir), n) == Missing ==> Child(v.g, nodes', Some(dir), n) == Here(s))
      && IsDirId(nodes', id)
  {
    hide RootSlots, DirSlots, Sound, ScanIn, ShortName, Passed;
    var s := Slot(Data(c, 0), 0);
    var nodes' := nodes[dir := DirNode(nodes[dir].entry, nodes[dir].clusters + [c])][s := node];
    var slots, all := SlotsOf(v.g, nodes, Some(dir)), SlotsOf(v.g, nodes', Some(dir));
    LongerListing(v, nodes, dir, c);
    assert all == slots + all[|slots|..] && all[|slots|] == s;
    forall x, i | IsDirId(nodes, x) && 0 <= i < |SlotsOf(v.g, nodes, x)|
      ensures SlotsOf(v.g, nodes, x)[i] != s
    {
      if SlotsOf(v.g, nodes, x)[i] == s {
        assert SlotsOf(v.g, nodes, x)[i] == SlotsOf(v.g, nodes', x)[i];
        OneHome(v', nodes', Some(dir), |slots|, x, i);
      }
    }
    if id != Some(dir) {
      ScanFrame(nodes, nodes', SlotsOf(v.g, nodes, id), name);
    }
    forall j | |slots| < j < |all|
      ensures all[j] !in nodes'
    {
      RestIsUnused(v, nodes, v', dir, c, node, j);
    }
    ScanExtended(nodes, nodes', slots, all, n, name);
    ScanExtended(nodes, nodes', slots, all, n, n);
  }

  lemma LongerListing(v: State, nodes: map<Slot, Node>, dir: Slot, c: nat)
    requires Sound(v, nodes) && dir in nodes && nodes[dir].DirNode? && nodes[dir].clusters != []
    ensures var slots := AfterDots(DirSlots(v.g, nodes[dir].clusters));
      var all := AfterDots(DirSlots(v.g, nodes[dir].clusters + [c]));
      |slots| < |all| && all[..|slots|] == slots && all[|slots|] == Slot(Data(c, 0), 0)
  {
    hide DirSlots, Nodes, Exclusive;
    GrownSlots(v.g, nodes[dir].clusters, c);
    var old', all := DirSlots(v.g, nodes[dir].clusters), DirSlots(v.g, nodes[dir].clusters + [c]);
    assert all == all[..|old'|] + all[|old'|..];
    assert AfterDots(all) == AfterDots(old') + all[|old'|..];
  }

  lemma RestIsUnused(v: State, nodes: map<Slot, Node>, v': State, dir: Slot, c: nat, node: Node, j: nat)
    requires Sound(v, nodes) && dir in nodes && nodes[dir].DirNode? && nodes[dir].clusters != []
    requires var s := Slot(Data(c, 0), 0);
      && s !in nodes && v'.g == v.g
      && Sound(v', nodes[dir := DirNode(nodes[dir].entry, nodes[dir].clusters + [c])][s := node])
    requires |AfterDots(DirSlots(v.g, nodes[dir].clusters))| < j < |AfterDots(DirSlots(v.g, nodes[dir].clusters + [c]))|
    ensures AfterDots(DirSlots(v.g, nodes[dir].clusters + [c]))[j] !in
            nodes[dir := DirNode(nodes[dir].entry, nodes[dir].clusters + [c])][Slot(Data(c, 0), 0) := node]
  {
    hide RootSlots, DirSlots, Sound, ScanIn;
    var s := Slot(Data(c, 0), 0);
    var nodes' := nodes[dir := DirNode(nodes[dir].entry, nodes[dir].clusters + [c])][s := node];
    var slots, all := SlotsOf(v.g, nodes, Some(dir)), SlotsOf(v.g, nodes', Some(dir));
    LongerListing(v, nodes, dir, c);
    var x := all[j];
    if x == s {
      OneHome(v', nodes', Some(dir), j, Some(dir), |slots|);
    } else if x in nodes {
      var home, i := HomeOf(v, nodes, x);
      assert SlotsOf(v.g, nodes, home)[i] == SlotsOf(v.g, nodes', home)[i];
      OneHome(v', nodes', Some(dir), j, home, i);
    }
  }

  /** A scan of the old slots, then the new one, then nothing. */
  lemma {:induction false} ScanExtended(nodes: map<Slot, Node>, nodes': map<Slot, Node>, slots: seq<Slot>,
                                        all: seq<Slot>, n: string, name: string)
    requires slots < all && NameOf(nodes', all[|slots|]) == Some(Name(n))
    requires forall j :: 0 <= j < |slots| ==> NameOf(nodes', slots[j]) == NameOf(nodes, slots[j])
    requires forall j :: |slots| < j < |all| ==> all[j] !in nodes'
    ensures name != n || ScanIn(nodes, slots, name) != Missing ==>
      ScanIn(nodes', all, name) == ScanIn(nodes, slots, name)
    ensures name == n && ScanIn(nodes, slots, name) == Missing ==> ScanIn(nodes', all, name) == Here(all[|slots|])
    decreases |slots|
  {
    hide NameOf;
    assert forall j :: 0 <= j < |all[1..]| ==> all[1..][j] == all[j + 1];
    if slots == [] {
      NoneNamed(nodes', all[1..], name);
    } else {
      assert all[0] == slots[0];
      assert forall j :: 0 <= j < |slots[1..]| ==> slots[1..][j] == slots[j + 1];
      ScanExtended(nodes, nodes', slots[1..], all[1..], n, name);
    }
  }

  // ----- Walks ------------------------------------------------------------------------------------

  /** The node a sequence of names leads to. */
  ghost function Follow(g: Geometry, nodes: map<Slot, Node>, id: Option<Slot>, names: seq<string>): Option<Option<Slot>>
    decreases |names|
  {
    if names == [] then Some(id)
    else if !IsDirId(nodes, id) then None
    else match Child(g, nodes, id, names[0])
      case Here(s) => Follow(g, nodes, Some(s), names[1..])
      case _ => None
  }

  lemma {:induction false} WalkFrame(g: Geometry, nodes: map<Slot, Node>, nodes': map<Slot, Node>, id: Option<Slot>,
                                     names: seq<string>)
    requires Follow(g, nodes, id, names).Some?
    requires forall x, n :: IsDirId(nodes, x) && Child(g, nodes, x, n).Here? ==>
      IsDirId(nodes', x) && Child(g, nodes', x, n) == Child(g, nodes, x, n)
    ensures Follow(g, nodes', id, names) == Follow(g, nodes, id, names)
    decreases |names|
  {
    hide Child, IsDirId;
    if names != [] {
      WalkFrame(g, nodes, nodes', Some(Child(g, nodes, id, names[0]).slot), names[1..]);
    }
  }

  /** A walk that does not end at the removed leaf never passes through it. */
  lemma {:induction false} WalkPastRemoved(v: State, nodes: map<Slot, Node>, dir: Option<Slot>, at: nat, n: string,
                                           id: Option<Slot>, names: seq<string>)
    requires Sound(v, nodes) && at < |SlotsOf(v.g, nodes, dir)|
    requires Child(v.g, nodes, dir, n) == Here(SlotsOf(v.g, nodes, dir)[at])
    requires NameOf(nodes, SlotsOf(v.g, nodes, dir)[at]) == Some(Name(n))
    requires forall m :: !Child(v.g, nodes, Some(SlotsOf(v.g, nodes, dir)[at]), m).Here?
    requires Follow(v.g, nodes, id, names).Some?
    requires Follow(v.g, nodes, id, names) != Some(Some(SlotsOf(v.g, nodes, dir)[at]))
    ensures Follow(v.g, nodes - {SlotsOf(v.g, nodes, dir)[at]}, id, names) == Follow(v.g, nodes, id, names)
    decreases |names|
  {
    hide Child, IsDirId, Sound, SlotsOf, NameOf;
    var s := SlotsOf(v.g, nodes, dir)[at];
    if names != [] {
      var next := Child(v.g, nodes, id, names[0]).slot;
      RemovalNames(v, nodes, dir, at, n, id, names[0]);
      WalkPastRemoved(v, nodes, dir, at, n, Some(next), names[1..]);
    }
  }

  // ----- Lookups on the device ----------------------------------------------------------------------

  /** The directory an identity names on the device, whether or not it was audited. */
  ghost function RawSlots(g: Geometry, d: Disk, fat: seq<byte>, id: Option<Slot>): Option<seq<Slot>>
    requires g.perCluster > 0 && IsTable(g, fat)
  {
    match id
    case None => Some(RootSlots(g))
    case Some(s) =>
      match NodeAt(g, d, fat, s)
      case Some(DirNode(_, ch)) => Some(DirSlots(g, ch))
      case _ => None
  }

  ghost function RawWalk(g: Geometry, d: Disk, fat: seq<byte>, id: Option<Slot>,
                         names: seq<string>): Option<Option<Slot>>
    requires g.perCluster > 0 && IsTable(g, fat)
    decreases |names|
  {
    if names == [] then Some(id)
    else match RawSlots(g, d, fat, id)
      case None => None
      case Some(slots) =>
        match Scan(g, d, fat, slots, names[0])
        case Here(s) => RawWalk(g, d, fat, Some(s), names[1..])
        case _ => None
  }

  /** The dot entries of a subdirectory match no name. */
  lemma ScanPastDots(g: Geometry, d: Disk, fat: seq<byte>, slots: seq<Slot>, self: nat, parent: nat, name: string)
    requires g.perCluster > 0 && IsTable(g, fat) && DotsRight(d, slots, self, parent)
    ensures Scan(g, d, fat, slots, name) == Scan(g, d, fat, AfterDots(slots), name)
  {
    hide EntryAt, ShortName, NodeAt;
    assert slots[1..][0] == slots[1] && slots[1..][1..] == slots[2..];
  }

  lemma RawIsChild(v: State, nodes: map<Slot, Node>, id: Option<Slot>, name: string)
    requires Sound(v, nodes) && IsDirId(nodes, id)
    ensures v.g.perCluster > 0 && IsTable(v.g, v.fat)
    ensures RawSlots(v.g, v.d, v.fat, id).Some?
    ensures Scan(v.g, v.d, v.fat, RawSlots(v.g, v.d, v.fat, id).value, name) == Child(v.g, nodes, id, name)
  {
    hide Nodes, NodeAt, DirSlots, RootSlots, Scan, ScanIn, Exclusive, DotsRight, EntryAt;
    LookupIsChild(v.g, v.d, v.fat, v.depth, id, name);
    if id.Some? {
      NodeIsAt(v.g, v.d, v.fat, v.depth, id.value);
      var parent := DotsPresent(v.g, v.d, v.fat, v.depth, id.value);
      ScanPastDots(v.g, v.d, v.fat, DirSlots(v.g, nodes[id.value].clusters), First(nodes[id.value].entry), parent,
                   name);
    }
  }

  /** Only directories of the live tree have slots to scan. */
  lemma RawDirectory(v: State, nodes: map<Slot, Node>, id: Option<Slot>)
    requires Sound(v, nodes) && (id.Some? ==> id.value in nodes)
    ensures v.g.perCluster > 0 && IsTable(v.g, v.fat)
    ensures RawSlots(v.g, v.d, v.fat, id).Some? <==> IsDirId(nodes, id)
  {
    hide Nodes, NodeAt, DirSlots, RootSlots, Exclusive, EntryAt, Classify;
    if id.Some? { NodeIsAt(v.g, v.d, v.fat, v.depth, id.value); }
  }

  /** On an audited volume the walk on the device is the walk in the live tree. */
  lemma {:induction false} RawWalkIsWalk(v: State, nodes: map<Slot, Node>, id: Option<Slot>, names: seq<string>)
    requires Sound(v, nodes) && (id.Some? ==> id.value in nodes)
    ensures v.g.perCluster > 0 && IsTable(v.g, v.fat)
    ensures RawWalk(v.g, v.d, v.fat, id, names) == Follow(v.g, nodes, id, names)
    decreases |names|
  {
    hide Nodes, RawSlots, Scan, Child, IsDirId, Sound;
    RawDirectory(v, nodes, id);
    if names != [] && IsDirId(nodes, id) {
      RawIsChild(v, nodes, id, names[0]);
      if Child(v.g, nodes, id, names[0]).Here? {
        ChildIsLive(v.g, nodes, id, names[0]);
        RawWalkIsWalk(v, nodes, Some(Child(v.g, nodes, id, names[0]).slot), names[1..]);
      }
    }
  }

  lemma ChildIsLive(g: Geometry, nodes: map<Slot, Node>, id: Option<Slot>, name: string)
    requires Child(g, nodes, id, name).Here?
    ensures Child(g, nodes, id, name).slot in nodes
  {
    hide SlotsOf, ScanIn;
    var i := ScanHere(nodes, SlotsOf(g, nodes, id), name);
  }

  /** Walking one more name is walking to the directory and looking the name up. */
  lemma {:induction false} RawWalkStep(g: Geometry, d: Disk, fat: seq<byte>, id: Option<Slot>, names: seq<string>,
                                       name: string)
    requires g.perCluster > 0 && IsTable(g, fat)
    ensures RawWalk(g, d, fat, id, names + [name]) ==
      match RawWalk(g, d, fat, id, names)
      case None => None
      case Some(x) => RawWalk(g, d, fat, x, [name])
    decreases |names|
  {
    hide RawSlots, Scan;
    if names == [] {
      assert names + [name] == [name];
    } else {
      assert (names + [name])[1..] == names[1..] + [name];
      match RawSlots(g, d, fat, id)
      case None =>
      case Some(slots) =>
        match Scan(g, d, fat, slots, names[0])
        case Here(s) => RawWalkStep(g, d, fat, Some(s), names[1..], name);
        case _ =>
    }
  }
}
