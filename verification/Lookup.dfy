/** Looking a name up in a directory on the device, audited or not. */
module Lookup {
  import opened Common
  import opened Disk
  import opened Errors
  import opened Fat
  import opened Layout
  import opened Tree
  import opened FatName
  import opened Search
  import opened Volume
  import opened Names
  import A = Audit

  /** The root, or a slot the decoder accepts. */
  ghost predicate Openable(g: Geometry, d: Disk, fat: seq<byte>, id: Option<Slot>)
    requires g.perCluster > 0 && IsTable(g, fat)
  {
    id.Some? ==>
      var e := EntryAt(d, id.value);
      e[0] != 0 && !Passed(e) && ShortName(e).Name? && Describable(g, d, fat, id.value)
  }

  /** The kind of the node an openable identity names. */
  ghost predicate HasKind(g: Geometry, d: Disk, fat: seq<byte>, id: Option<Slot>, directory: bool)
    requires g.perCluster > 0 && IsTable(g, fat)
  {
    Openable(g, d, fat, id) && directory == RawSlots(g, d, fat, id).Some?
  }

  /** Scanning the directory `id` for `name` gives `found`. */
  ghost predicate Finds(g: Geometry, d: Disk, fat: seq<byte>, id: Option<Slot>, name: string, found: Found)
    requires g.perCluster > 0 && IsTable(g, fat)
  {
    RawSlots(g, d, fat, id).Some? && Scan(g, d, fat, RawSlots(g, d, fat, id).value, name) == found
  }

  lemma ScanStep(g: Geometry, d: Disk, fat: seq<byte>, slots: seq<Slot>, i: nat, name: string)
    requires g.perCluster > 0 && IsTable(g, fat) && i < |slots|
    requires var e := EntryAt(d, slots[i]);
      e[0] != 0 && (Passed(e) || ShortName(e).Hidden? ||
        (ShortName(e).Name? && ShortName(e) != Name(name) && Describable(g, d, fat, slots[i])))
    ensures Scan(g, d, fat, slots[i..], name) == Scan(g, d, fat, slots[i + 1..], name)
  {
    hide Describable, EntryAt, Passed, ShortName;
    assert slots[i..][1..] == slots[i + 1..];
  }

  lemma ScanStops(g: Geometry, d: Disk, fat: seq<byte>, slots: seq<Slot>, i: nat, name: string)
    requires g.perCluster > 0 && IsTable(g, fat) && i <= |slots|
    ensures i == |slots| || EntryAt(d, slots[i])[0] == 0 ==> Scan(g, d, fat, slots[i..], name) == Missing
    ensures i < |slots| && Openable(g, d, fat, Some(slots[i])) && ShortName(EntryAt(d, slots[i])) == Name(name) ==>
      Scan(g, d, fat, slots[i..], name) == Here(slots[i])
  {
    hide Describable, EntryAt, Passed, ShortName;
  }

  lemma DescribedIsDescribable(g: Geometry, d: Disk, fat: seq<byte>, s: Slot, desc: Description)
    requires g.perCluster > 0 && IsTable(g, fat) && Describes(g, d, fat, s, desc)
    ensures Describable(g, d, fat, s) && EntryAt(d, s)[0] != 0
  {
    hide NodeAt, ShortName, EntryAt;
    SkippedIsPassed(EntryAt(d, s));
  }

  /** Open a directory by identity. */
  method OpenDirectory(v: FatVolume, id: Option<Slot>) returns (error: FsError, dir: Dir, ghost ch: seq<nat>)
    requires v.Mounted()
    modifies v`cache
    ensures v.Mounted()
    ensures error == Ok ==>
      !v.faulted && A.Opened(v, dir, ch) && RawSlots(v.g, v.disk, v.fat, id) == Some(A.Slots(v.g, dir, ch))
    ensures error == NotDirectory ==> RawSlots(v.g, v.disk, v.fat, id) == None
    ensures error != Invalid
    ensures error == NotFound ==> !Openable(v.g, v.disk, v.fat, id)
  {
    hide DirSlots, RootSlots, Chain, ShortName, Content, ChainSectors;
    dir, ch := RootDir, [];
    if v.faulted { return IoError, dir, ch; }
    if id.None? { return Ok, dir, ch; }
    var desc, e;
    error, desc, e := DescribeExactly(v, id.value);
    if error != Ok { return; }
    if !desc.directory { return NotDirectory, dir, ch; }
    ch := NodeAt(v.g, v.disk, v.fat, id.value).value.clusters;
    dir := SubDir(id.value, desc.first, desc.length);
  }

  method DescribeExactly(v: FatVolume, s: Slot) returns (error: FsError, desc: Description, e: Entry)
    requires v.Mounted() && !v.faulted
    modifies v`cache
    ensures v.Mounted() && error in {Ok, NotFound, IoError, Unsupported}
    ensures error == Ok ==> e == EntryAt(v.disk, s) && Describes(v.g, v.disk, v.fat, s, desc)
    ensures error == NotFound ==> !Openable(v.g, v.disk, v.fat, Some(s))
  {
    hide ShortName, NodeAt, Passed, EntryAt;
    desc := Description(false, 0, 0, 0, "");
    error, e := v.EntryRead(s);
    if error != Ok { return; }
    error, desc := v.Decode(s, e);
    if error == FsError.End { error := NotFound; }
  }

  /** Scan a directory for a name. Every outcome that is not a failure is the scan's. */
  method LookUp(v: FatVolume, parent: Option<Slot>, name: string) returns (error: FsError, slot: Slot, directory: bool)
    requires v.Mounted()
    modifies v`cache
    ensures v.Mounted()
    ensures error == Ok ==>
      Finds(v.g, v.disk, v.fat, parent, name, Here(slot)) && HasKind(v.g, v.disk, v.fat, Some(slot), directory)
    ensures error == NotFound && Openable(v.g, v.disk, v.fat, parent) ==>
      Finds(v.g, v.disk, v.fat, parent, name, Missing)
    ensures error == NotDirectory ==> RawSlots(v.g, v.disk, v.fat, parent) == None
    ensures error == Ok ==> !v.faulted
    ensures error != Invalid
  {
    hide DirSlots, RootSlots, Chain, ShortName, NodeAt, Scan, Passed, SlotCount, A.Slots, RawSlots, EntryAt;
    slot, directory := Slot(Root(0), 0), false;
    var dir;
    ghost var ch;
    error, dir, ch := OpenDirectory(v, parent);
    if error != Ok { return; }
    A.SlotsCount(v, dir, ch);
    ghost var all := A.Slots(v.g, dir, ch);
    assert all[0..] == all;
    var count := SlotCount(v.g, dir);
    for cursor := 0 to count
      invariant v.Mounted()
      invariant Scan(v.g, v.disk, v.fat, all, name) == Scan(v.g, v.disk, v.fat, all[cursor..], name)
    {
      var s := A.AuditSlot(v, dir, cursor, ch);
      var e, desc;
      error, e := v.EntryRead(s);
      if error != Ok { return; }
      error, desc := v.Decode(s, e);
      ScanStops(v.g, v.disk, v.fat, all, cursor, name);
      if error == FsError.End { return NotFound, slot, directory; }
      if error != Ok && error != NotFound { return; }
      if error == Ok { DescribedIsDescribable(v.g, v.disk, v.fat, s, desc); }
      if error == Ok && desc.name == name {
        KindOf(v, s, desc);
        return Ok, s, desc.directory;
      }
      ScanStep(v.g, v.disk, v.fat, all, cursor, name);
    }
    ScanStops(v.g, v.disk, v.fat, all, count, name);
    error := NotFound;
  }

  lemma KindOf(v: FatVolume, s: Slot, desc: Description)
    requires v.Mounted() && Describes(v.g, v.disk, v.fat, s, desc) && !Passed(EntryAt(v.disk, s))
    ensures HasKind(v.g, v.disk, v.fat, Some(s), desc.directory)
  {
    hide NodeAt, ShortName, EntryAt, Passed;
    DescribedIsDescribable(v.g, v.disk, v.fat, s, desc);
  }
}
