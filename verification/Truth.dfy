/** Walks from the root across mutations: the directory a canonical path reaches
    stays the same one as long as it is retained. */
module Truth {
  import opened Common
  import opened Disk
  import opened Fat
  import opened Layout
  import opened Tree
  import opened Names
  import opened Backend

  /** The walk along `names` ends at the directory `id`. */
  ghost predicate Leads(g: Geometry, d: Disk, fat: seq<byte>, names: seq<string>, id: Option<Slot>) {
    g.perCluster > 0 && IsTable(g, fat) && RawWalk(g, d, fat, None, names) == Some(id) && RawSlots(g, d, fat, id).Some?
  }

  lemma SoundTables(u: State, nodes: map<Slot, Node>)
    requires Sound(u, nodes)
    ensures u.g.perCluster > 0 && IsTable(u.g, u.fat)
  {
  }

  lemma {:induction false} WalkIsLive(g: Geometry, nodes: map<Slot, Node>, id: Option<Slot>, names: seq<string>)
    requires Follow(g, nodes, id, names).Some? && (id.Some? ==> id.value in nodes)
    ensures var end := Follow(g, nodes, id, names).value; end.Some? ==> end.value in nodes
    decreases |names|
  {
    hide Child, IsDirId;
    if names != [] {
      ChildIsLive(g, nodes, id, names[0]);
      WalkIsLive(g, nodes, Some(Child(g, nodes, id, names[0]).slot), names[1..]);
    }
  }

  /** In an audited volume, leading somewhere is a matter of the live tree. */
  lemma LeadsInTree(u: State, nodes: map<Slot, Node>, names: seq<string>, id: Option<Slot>)
    requires Sound(u, nodes)
    ensures u.g.perCluster > 0 && IsTable(u.g, u.fat)
    ensures Leads(u.g, u.d, u.fat, names, id) <==> Follow(u.g, nodes, None, names) == Some(id) && IsDirId(nodes, id)
    ensures Leads(u.g, u.d, u.fat, names, id) ==> (id.Some? ==> id.value in nodes)
  {
    hide Sound, RawWalk, Follow, RawSlots, IsDirId;
    SoundTables(u, nodes);
    RawWalkIsWalk(u, nodes, None, names);
    if Follow(u.g, nodes, None, names) == Some(id) {
      WalkIsLive(u.g, nodes, None, names);
      RawDirectory(u, nodes, id);
    }
  }

  /** From a directory, one more name leads to the child of that name. */
  lemma LeadsOn(u: State, nodes: map<Slot, Node>, names: seq<string>, id: Option<Slot>, name: string)
    requires Sound(u, nodes) && u.g.perCluster > 0 && IsTable(u.g, u.fat) && Leads(u.g, u.d, u.fat, names, id)
    ensures RawWalk(u.g, u.d, u.fat, None, names + [name]) ==
      match Child(u.g, nodes, id, name)
      case Here(s) => Some(Some(s))
      case _ => None
  {
    hide Sound, Follow, RawSlots, Child, Scan, IsDirId;
    LeadsInTree(u, nodes, names, id);
    RawWalkStep(u.g, u.d, u.fat, None, names, name);
    RawIsChild(u, nodes, id, name);
    assert [name][1..] == [];
  }

  lemma SameNamesLead(u: State, before: map<Slot, Node>, w: State, after: map<Slot, Node>, names: seq<string>,
                      id: Option<Slot>)
    requires Sound(u, before) && Sound(w, after) && w.g == u.g && SameNames(u.g, before, after)
    requires u.g.perCluster > 0 && IsTable(u.g, u.fat) && Leads(u.g, u.d, u.fat, names, id)
    ensures IsTable(w.g, w.fat) && Leads(w.g, w.d, w.fat, names, id)
  {
    hide Sound, Follow, Leads, Child;
    LeadsInTree(u, before, names, id);
    forall x, n | IsDirId(before, x) && Child(u.g, before, x, n).Here?
      ensures IsDirId(after, x) && Child(u.g, after, x, n) == Child(u.g, before, x, n)
    {
    }
    WalkFrame(u.g, before, after, None, names);
    LeadsInTree(w, after, names, id);
  }

  lemma GainedNameLeads(u: State, before: map<Slot, Node>, w: State, after: map<Slot, Node>, names: seq<string>,
                        id: Option<Slot>, dir: Option<Slot>, name: string, slot: Slot)
    requires Sound(u, before) && Sound(w, after) && w.g == u.g && GainedName(u.g, before, after, dir, name, slot)
    requires u.g.perCluster > 0 && IsTable(u.g, u.fat) && Leads(u.g, u.d, u.fat, names, id)
    ensures IsTable(w.g, w.fat) && Leads(w.g, w.d, w.fat, names, id)
  {
    hide Sound, Follow, Leads, Child;
    LeadsInTree(u, before, names, id);
    forall x, n | IsDirId(before, x) && Child(u.g, before, x, n).Here?
      ensures IsDirId(after, x) && Child(u.g, after, x, n) == Child(u.g, before, x, n)
    {
    }
    WalkFrame(u.g, before, after, None, names);
    LeadsInTree(w, after, names, id);
  }

  lemma LostNameLeads(u: State, before: map<Slot, Node>, w: State, after: map<Slot, Node>, names: seq<string>,
                      id: Option<Slot>, dir: Option<Slot>, name: string, slot: Slot)
    requires Sound(u, before) && Sound(w, after) && w.g == u.g && LostName(u.g, before, after, dir, name, slot)
    requires id != Some(slot)
    requires u.g.perCluster > 0 && IsTable(u.g, u.fat) && Leads(u.g, u.d, u.fat, names, id)
    ensures IsTable(w.g, w.fat) && Leads(w.g, w.d, w.fat, names, id)
  {
    hide Sound, Follow, Leads, Child, SlotsOf, NameOf;
    LeadsInTree(u, before, names, id);
    var at: nat :| at < |SlotsOf(u.g, before, dir)| && SlotsOf(u.g, before, dir)[at] == slot;
    WalkPastRemoved(u, before, dir, at, name, None, names);
    LeadsInTree(w, after, names, id);
  }
}
