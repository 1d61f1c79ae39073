/** The namespace over one mounted volume: path resolution, references and the
    working directories of tasks. */
module Namespace {
  import opened Common
  import opened Disk
  import opened Errors
  import opened Fat
  import opened Layout
  import opened Tree
  import opened View
  import opened Commit
  import opened Volume
  import opened Names
  import opened Backend
  import opened Calls
  import opened Lookup
  import opened Pins
  import opened Ledger
  import opened Truth
  import opened Levels
  import Audit
  import Entries
  import History
  import Path

  /** One node on the way down from the root. */
  datatype Stop = Stop(id: Option<Slot>, directory: bool)

  /** The most entries a call adds: a directory, an end mark, and one for a parent that grows. */
  const CALL_ENTRIES := 5

  /** A task's working directory: a reference, and its canonical path. */
  datatype Context = Context(directory: nat, path: string)

  // ----- Resolution --------------------------------------------------------------------------

  /** Every prefix of the lexical path leads to the stop at its depth. */
  ghost predicate OnPath(g: Geometry, d: Disk, fat: seq<byte>, stops: seq<Stop>, names: seq<string>) {
    && g.perCluster > 0 && IsTable(g, fat)
    && |stops| == |names| + 1
    && forall i :: 0 <= i <= |names| ==>
         && RawWalk(g, d, fat, None, names[..i]) == Some(stops[i].id)
         && stops[i].directory == RawSlots(g, d, fat, stops[i].id).Some?
  }

  lemma StartOnPath(g: Geometry, d: Disk, fat: seq<byte>)
    requires g.perCluster > 0 && IsTable(g, fat)
    ensures OnPath(g, d, fat, [Stop(None, true)], [])
  {
  }

  lemma OnPathUp(g: Geometry, d: Disk, fat: seq<byte>, stops: seq<Stop>, names: seq<string>)
    requires g.perCluster > 0 && IsTable(g, fat) && OnPath(g, d, fat, stops, names) && names != []
    ensures OnPath(g, d, fat, stops[..|stops| - 1], names[..|names| - 1])
  {
    hide RawWalk, RawSlots;
    assert forall i :: 0 <= i <= |names| - 1 ==> names[..|names| - 1][..i] == names[..i];
  }

  lemma OnPathDown(g: Geometry, d: Disk, fat: seq<byte>, stops: seq<Stop>, names: seq<string>, name: string, s: Slot,
                   directory: bool)
    requires g.perCluster > 0 && IsTable(g, fat) && OnPath(g, d, fat, stops, names)
    requires Finds(g, d, fat, stops[|stops| - 1].id, name, Here(s)) && HasKind(g, d, fat, Some(s), directory)
    ensures OnPath(g, d, fat, stops + [Stop(Some(s), directory)], names + [name])
  {
    hide Scan, RawSlots, Openable;
    var longer := names + [name];
    assert names[..|names|] == names && longer[..|longer|] == longer;
    RawWalkStep(g, d, fat, None, names, name);
    var one := [name];
    assert one[0] == name && one[1..] == [];
    assert forall i :: 0 <= i <= |names| ==> longer[..i] == names[..i];
  }

  lemma CanonicalStep(names: seq<string>, name: string)
    requires Path.Canonical(name) && |names| < PATH_DEPTH
    ensures Path.Step(names, name) == Some(names + [name])
  {
    Path.ShortNames(name);
    Path.UpperFixed(name);
  }

  /** One component, against the real tree. */
  method StepTo(v: FatVolume, stops: seq<Stop>, name: string, ghost names: seq<string>)
    returns (error: FsError, next: seq<Stop>)
    requires v.Mounted() && OnPath(v.g, v.disk, v.fat, stops, names) && Path.NormalForm(names) && Path.Component(name)
    modifies v`cache
    ensures v.Mounted()
    ensures error == Ok ==> Path.Step(names, name).Some? && Path.NormalForm(Path.Step(names, name).value)
    ensures error == Ok ==> OnPath(v.g, v.disk, v.fat, next, Path.Step(names, name).value)
    ensures error != Invalid
  {
    hide OnPath, Finds, HasKind, Path.Canonical;
    Path.DotsStep(names);
    Path.StepNormal(names, ".");
    Path.StepNormal(names, "..");
    OnPathLength(v.g, v.disk, v.fat, stops, names);
    next := stops;
    var top := stops[|stops| - 1];
    if !top.directory { return NotDirectory, next; }
    if name == "." { return Ok, next; }
    if name == ".." {
      if |stops| > 1 {
        OnPathUp(v.g, v.disk, v.fat, stops, names);
        next := stops[..|stops| - 1];
      }
      return Ok, next;
    }
    if |stops| - 1 == PATH_DEPTH { return TooDeep, next; }
    var s, directory;
    error, s, directory := LookUp(v, top.id, name);
    if error != Ok { return; }
    OnPathDown(v.g, v.disk, v.fat, stops, names, name, s, directory);
    CanonicalStep(names, name);
    Path.StepNormal(names, name);
    next := stops + [Stop(Some(s), directory)];
  }

  lemma OnPathLength(g: Geometry, d: Disk, fat: seq<byte>, stops: seq<Stop>, names: seq<string>)
    requires g.perCluster > 0 && IsTable(g, fat) && OnPath(g, d, fat, stops, names)
    ensures |stops| == |names| + 1
  {
  }

  /** All components of a list, in order. */
  method StepAll(v: FatVolume, stops: seq<Stop>, parts: seq<string>, ghost names: seq<string>)
    returns (error: FsError, end: seq<Stop>)
    requires v.Mounted() && OnPath(v.g, v.disk, v.fat, stops, names) && Path.NormalForm(names)
    requires forall i :: 0 <= i < |parts| ==> Path.Component(parts[i])
    modifies v`cache
    ensures v.Mounted()
    ensures error == Ok ==> Path.Resolved(names, parts).Some? && Path.NormalForm(Path.Resolved(names, parts).value)
    ensures error == Ok ==> OnPath(v.g, v.disk, v.fat, end, Path.Resolved(names, parts).value)
    ensures error != Invalid
  {
    hide OnPath, Path.Resolved, Path.Step, Path.NormalForm;
    end := stops;
    ghost var now := names;
    Path.ResolvedNothing(names);
    assert parts[..0] == [];
    for i := 0 to |parts|
      invariant v.Mounted() && Path.Resolved(names, parts[..i]) == Some(now) && Path.NormalForm(now)
      invariant OnPath(v.g, v.disk, v.fat, end, now)
    {
      Path.ResolvedFails(names, parts, i);
      error, end := StepTo(v, end, parts[i], now);
      if error != Ok { return; }
      now := Path.Step(now, parts[i]).value;
    }
    assert parts[..|parts|] == parts;
    error := Ok;
  }

  // ----- Truthful working directories -----------------------------------------------------------

  ghost function NamesIn(path: string): seq<string> { Path.SplitFrom(path, 0) }

  ghost predicate CanonicalPath(path: string) {
    Path.NormalForm(NamesIn(path)) && path == Path.Render(NamesIn(path))
  }

  lemma RenderedIsCanonical(names: seq<string>)
    requires Path.NormalForm(names)
    ensures CanonicalPath(Path.Render(names)) && NamesIn(Path.Render(names)) == names
  {
    Path.SplitRender(names);
  }

  /** The path of a live context leads to exactly the directory it retains. */
  ghost predicate Truthful(g: Geometry, d: Disk, fat: seq<byte>, faulted: bool, objects: seq<Object>,
                           references: seq<Reference>, c: Context) {
    c.directory != 0 ==>
      && CanonicalPath(c.path)
      && exists id ::
           Refers(objects, references, c.directory, id, true) && (!faulted ==> Leads(g, d, fat, NamesIn(c.path), id))
  }

  /** The root is a directory; any other node is in the tree, if there is one, with this kind. */
  ghost predicate LiveKind(tree: Option<map<Slot, Node>>, id: Option<Slot>, directory: bool) {
    && (id.None? ==> directory)
    && (tree.Some? && id.Some? ==> id.value in tree.value && tree.value[id.value].DirNode? == directory)
  }

  /** Every live reference names a live node of its kind. */
  ghost predicate TokensLive(objects: seq<Object>, references: seq<Reference>, tree: Option<map<Slot, Node>>) {
    forall t, x, d :: Refers(objects, references, t, x, d) ==> LiveKind(tree, x, d)
  }

  /** The plan is the parse of `input` against `base`. */
  ghost predicate Planned(plan: Path.Parsed, base: string, input: string) {
    && Path.Denotes(base, input).Some?
    && plan.base == Path.Tokenize(base).value.(names := Path.Respelled(Path.Tokenize(base).value.names))
    && plan.input == Path.Tokenize(input).value.(names := Path.Respelled(Path.Tokenize(input).value.names))
  }

  /** The context after moving along `input` from `base`. */
  ghost predicate Moved(base: string, input: string, c: Context) {
    c.directory != 0 && Path.Denotes(base, input).Some? && c.path == Path.Render(Path.Denotes(base, input).value)
  }

  class Tasks {
    const volume: FatVolume
    const table: ReferenceTable
    var contexts: map<nat, Context>
    /** The entries to examine when the volume was mounted. */
    ghost const base: nat

    constructor (volume: FatVolume, table: ReferenceTable)
      requires volume.Consistent() && !volume.audited && volume.history == []
      requires table.Valid() && forall token :: !table.IsLive(token)
      ensures this.volume == volume && this.table == table && Valid() && base == LoadOf(volume)
    {
      this.volume, this.table, contexts, base := volume, table, map[], LoadOf(volume);
      new;
      forall t, x, d
        ensures !Refers(table.objects, table.references, t, x, d)
      {
        assert !table.IsLive(t);
      }
    }

    ghost predicate Valid()
      reads this, volume, table, table.pins
    {
      && volume.Consistent() && table.Valid()
      && (forall k :: k in contexts ==>
            Truthful(volume.g, volume.disk, volume.fat, volume.faulted, table.objects, table.references, contexts[k]))
      && (forall j, k :: j in contexts && k in contexts && j != k && contexts[j].directory != 0 ==>
            contexts[j].directory != contexts[k].directory)
      && TokensLive(table.objects, table.references, Outlook(volume))
      && AuditDepth(volume) == PATH_DEPTH && LoadOf(volume) <= base + CALL_ENTRIES * |volume.history|
    }

    /** The device is what the calls so far made of it. */
    lemma LoggedDisk()
      requires volume.Consistent() && !volume.faulted
      ensures volume.disk == Apply(volume.origin, History.Issue(volume.history))
      ensures volume.fat == DiskTable(volume.g, volume.disk, 0)
    {
      hide Apply, DiskTable, History.Issue, History.Recorded;
    }

    /** No call adds more entries than it may. */
    lemma LoadKept(u: State, calls: seq<History.Call>, load: nat, ok: bool)
      requires volume.Consistent() && AuditDepth(volume) == PATH_DEPTH == u.depth && u.g == volume.g
      requires u.d == Apply(volume.origin, History.Issue(calls)) && u.fat == DiskTable(u.g, u.d, 0)
      requires load <= base + CALL_ENTRIES * |calls|
      requires Prospect(u.g, u.d, u.fat, false, PATH_DEPTH).Some? ==>
        load == Entries.Entries(u.g, u.d, Prospect(u.g, u.d, u.fat, false, PATH_DEPTH).value)
      requires volume.history == calls || |volume.history| == |calls| + 1
      requires if ok then LoadOf(volume) <= load + CALL_ENTRIES
               else !volume.faulted ==> volume.disk == u.d && volume.fat == u.fat
      ensures LoadOf(volume) <= base + CALL_ENTRIES * |volume.history|
    {
      hide Apply, DiskTable, History.Issue, History.Recorded, Audited, Nodes, Entries.Entries, volume.Logged;
      if !volume.faulted && volume.history == calls { LoggedDisk(); }
    }

    /** The next mount lets writes through exactly if there are no more entries than its
        audit allows, which is certain as long as few enough calls were made on this one. */
    lemma NextMount()
      requires Valid() && volume.audited && !volume.faulted
      ensures
        Audit.Passes(volume.g, volume.disk, volume.fat, WRITE_ENTRY_LIMIT) <==> LoadOf(volume) <= WRITE_ENTRY_LIMIT
      ensures base + CALL_ENTRIES * |volume.history| <= WRITE_ENTRY_LIMIT ==>
        Audit.Passes(volume.g, volume.disk, volume.fat, WRITE_ENTRY_LIMIT)
    {
      hide Truthful, TokensLive, Counted, DistinctObjects, DistinctTokens, PinsMatch, DiskTable, Nodes, Entries.Entries,
           Exclusive, volume.Logged;
    }

    // ----- Paths ------------------------------------------------------------------------------

    /** The names a resolution starts from. */
    ghost function StartNames(c: Option<Context>, plan: Path.Parsed): seq<string> {
      if c.Some? && !plan.input.absolute then NamesIn(c.value.path) else []
    }

    lemma PlanParts(c: Option<Context>, plan: Path.Parsed, base: string, input: string, count: nat)
      requires Planned(plan, base, input) && count <= |plan.input.names|
      requires if c.Some? then base == c.value.path && CanonicalPath(base) else base == "/"
      ensures Path.NormalForm(StartNames(c, plan))
      ensures Path.Resolved(StartNames(c, plan), plan.input.names[..count]) == Path.DenotesUpTo(base, input, count)
      ensures forall i :: 0 <= i < |plan.input.names| ==> Path.Component(plan.input.names[i])
      ensures c.Some? ==>
        && plan.base.names == NamesIn(base)
        && forall i :: 0 <= i < |plan.base.names| ==> Path.Component(plan.base.names[i])
      ensures c.Some? ==> Path.Resolved([], plan.base.names) == Some(NamesIn(base))
    {
      hide Path.Resolved, Path.Tokenize, Path.Render, Path.Component, Path.SplitFrom, Path.NormalForm;
      var cwd := if c.Some? then NamesIn(base) else [];
      EmptyIsNormal();
      RenderedIsCanonical(cwd);
      Path.RenderRoot();
      Path.TokenizeRender(cwd);
      Path.ResolvedCanonical(cwd);
      Path.CanonicalSpelling(cwd);
      var start := if plan.input.absolute then [] else cwd;
      Path.ResolvedSpelled(start, Path.Tokenize(input).value.names);
      Path.ResolvedPart(start, Path.Tokenize(input).value.names, count);
    }

    /** The node walk of the original components. For a whole path it ends where the
        canonical path leads; the walk to the working directory always finds the
        directory that is retained. */
    method Resolve(c: Option<Context>, plan: Path.Parsed, count: nat, ghost base: string, ghost input: string)
      returns (error: FsError, stops: seq<Stop>, ghost names: seq<string>)
      requires volume.Consistent() && table.Valid() && Planned(plan, base, input) && count <= |plan.input.names|
      requires if c.Some? then base == c.value.path && c.value.directory != 0 else base == "/"
      requires c.Some? ==>
        Truthful(volume.g, volume.disk, volume.fat, volume.faulted, table.objects, table.references, c.value)
      modifies volume`cache
      ensures volume.Consistent()
      ensures error == Ok ==>
        !volume.faulted && Path.NormalForm(names) && OnPath(volume.g, volume.disk, volume.fat, stops, names)
      ensures error == Ok ==> Path.DenotesUpTo(base, input, count) == Some(names)
      ensures error == Ok && count == |plan.input.names| && plan.input.directory ==> stops[|stops| - 1].directory
      // Neither a dead token nor a working directory that moved can be found.
      ensures error != Invalid
    {
      hide OnPath, Path.Resolved, Path.Denotes, Path.DenotesUpTo, Path.Render, Path.SplitFrom, Path.NormalForm,
           Path.Component, Refers, Leads, Counted, DistinctObjects, DistinctTokens, PinsMatch, StartNames, Planned,
           Audited, DiskTable, Prospect;
      stops, names := [Stop(None, true)], [];
      PlanParts(c, plan, base, input, count);
      StartFrom(c, plan);
      EmptyIsNormal();
      var cwd: Option<Slot> := None;
      if c.Some? {
        ContextIsLive(c.value);
        var found, j := table.Find(c.value.directory);
        if !found { return Invalid, stops, names; }
        cwd := table.objects[table.references[j].index].id;
        if !table.objects[table.references[j].index].directory { return NotDirectory, stops, names; }
      }
      if volume.faulted { return IoError, stops, names; }
      StartOnPath(volume.g, volume.disk, volume.fat);
      if c.Some? && !plan.input.absolute {
        error, stops := StepAll(volume, stops, plan.base.names, names);
        if error != Ok { return; }
        names := NamesIn(base);
        OnPathLength(volume.g, volume.disk, volume.fat, stops, names);
        WorkingDirectory(c.value, cwd, stops);
        if stops[|stops| - 1].id != cwd { return Invalid, stops, names; }
      }
      ghost var start := names;
      error, stops := StepAll(volume, stops, plan.input.names[..count], start);
      if error != Ok { return; }
      names := Path.Resolved(start, plan.input.names[..count]).value;
      OnPathLength(volume.g, volume.disk, volume.fat, stops, names);
      if count == |plan.input.names| {
        if plan.input.directory && !stops[|stops| - 1].directory { return NotDirectory, stops, names; }
      }
    }

    lemma StartFrom(c: Option<Context>, plan: Path.Parsed)
      ensures StartNames(c, plan) == if c.Some? && !plan.input.absolute then NamesIn(c.value.path) else []
    {
    }

    lemma ContextIsLive(c: Context)
      requires volume.Consistent() && table.Valid() && c.directory != 0
      requires Truthful(volume.g, volume.disk, volume.fat, volume.faulted, table.objects, table.references, c)
      ensures table.IsLive(c.directory)
    {
      hide RawWalk, RawSlots, Counted, DistinctObjects, DistinctTokens, PinsMatch, Audited, DiskTable, Leads;
      var id :| Refers(table.objects, table.references, c.directory, id, true);
      var j :| 0 <= j < |table.references| && IsAt(table.objects, table.references[j], c.directory, id, true);
    }

    /** A truthful context's walk ends at the directory its reference names. */
    lemma WorkingDirectory(c: Context, cwd: Option<Slot>, stops: seq<Stop>)
      requires volume.Consistent() && table.Valid() && c.directory != 0 && !volume.faulted
      requires Truthful(volume.g, volume.disk, volume.fat, volume.faulted, table.objects, table.references, c)
      requires table.Names(c.directory, cwd, true) && OnPath(volume.g, volume.disk, volume.fat, stops, NamesIn(c.path))
      ensures |stops| > 0 && stops[|stops| - 1].id == cwd
    {
      hide Refers, RawWalk, RawSlots, Counted, DistinctObjects, PinsMatch, Audited, DiskTable;
      var names := NamesIn(c.path);
      var id :| Refers(table.objects, table.references, c.directory, id, true)
        && Leads(volume.g, volume.disk, volume.fat, names, id);
      table.OneMeaning(c.directory, cwd, true, id, true);
      assert names[..|names|] == names;
    }

    // ----- Working directories --------------------------------------------------------------------

    lemma EveryContextLive(k: nat)
      requires Valid() && k in contexts && contexts[k].directory != 0
      ensures table.IsLive(contexts[k].directory)
    {
      hide Truthful, Counted, DistinctObjects, DistinctTokens, PinsMatch, Audited, DiskTable;
      ContextIsLive(contexts[k]);
    }

    /** Change a task's working directory: retain the new one, then let the old one go. */
    method Chdir(k: nat, input: string) returns (error: FsError)
      requires Valid() && k in contexts
      modifies this, volume`cache, table, table.pins
      ensures Valid()
      ensures k in contexts
      ensures error == Ok ==>
        Moved(old(contexts[k].path), input, contexts[k]) && contexts == old(contexts)[k := contexts[k]]
      ensures error != Ok ==> contexts == old(contexts)
    {
      hide OnPath, Path.Resolved, Path.Denotes, Path.DenotesUpTo, Path.Render, Path.SplitFrom, Path.NormalForm, Refers,
           Leads, Counted, Truthful, TokensLive, LiveKind, DistinctObjects, DistinctTokens, PinsMatch, Audited,
           DiskTable, Prospect, Entries.Entries;
      var c := contexts[k];
      if c.directory == 0 { return Invalid; }
      var parsed := Path.Parse(c.path, input);
      if parsed.Failure? { return parsed.error; }
      var plan := parsed.value;
      PathIsCanonical(c);
      EveryContextLive(k);
      var stops;
      ghost var names;
      WholePlan(plan, c.path, input);
      error, stops, names := Resolve(Some(c), plan, |plan.input.names|, c.path, input);
      if error != Ok { return; }
      OnPathLength(volume.g, volume.disk, volume.fat, stops, names);
      var top := stops[|stops| - 1];
      if !top.directory { return NotDirectory; }
      error := Enter(k, top.id, plan.canonical, stops, names);
    }

    /** Replace the context of `k` by a new reference to `id` under its canonical path. */
    method Enter(k: nat, id: Option<Slot>, path: string, ghost stops: seq<Stop>, ghost names: seq<string>)
      returns (error: FsError)
      requires Valid() && k in contexts && contexts[k].directory != 0 && table.IsLive(contexts[k].directory)
      requires !volume.faulted && Path.NormalForm(names) && path == Path.Render(names)
      requires OnPath(volume.g, volume.disk, volume.fat, stops, names) && |stops| > 0
      requires stops[|stops| - 1] == Stop(id, true)
      modifies this, table, table.pins
      ensures Valid()
      ensures k in contexts
      ensures error == Ok ==>
        contexts == old(contexts)[k := contexts[k]] && contexts[k].path == path && contexts[k].directory != 0
      ensures error != Ok ==> contexts == old(contexts)
    {
      hide OnPath, Path.Render, Path.SplitFrom, Path.NormalForm, Refers, Leads, Counted, Truthful, TokensLive, LiveKind,
           DistinctObjects, DistinctTokens, PinsMatch, Audited, DiskTable, Prospect;
      var token;
      error, token := table.Acquire(id, true, false, !volume.writable);
      if error != Ok { return; }
      ghost var objects1, references1 := table.objects, table.references;
      forall j | j in contexts
        ensures Truthful(volume.g, volume.disk, volume.fat, volume.faulted, objects1, references1, contexts[j])
        ensures contexts[j].directory != token
      {
        StaysTruthful(old(table.objects), old(table.references), objects1, references1, contexts[j], token);
      }
      NewlyTruthful(stops, names, id, token, path);
      OnPathLive(stops, names);
      TokensAfterAcquire(old(table.objects), old(table.references), token, id, true);
      var last := contexts[k].directory;
      contexts := contexts[k := Context(token, path)];
      var closed := table.Drop(last);
      forall j | j in contexts
        ensures Truthful(volume.g, volume.disk, volume.fat, volume.faulted, table.objects, table.references,
                         contexts[j])
      {
        AfterDropTruthful(objects1, references1, table.objects, table.references, contexts[j], last);
      }
      TokensAfterDrop(objects1, references1, last);
    }

    lemma OnPathLive(stops: seq<Stop>, names: seq<string>)
      requires volume.Consistent() && OnPath(volume.g, volume.disk, volume.fat, stops, names) && |stops| > 0
      ensures LiveKind(Outlook(volume), stops[|stops| - 1].id, stops[|stops| - 1].directory)
    {
      hide DiskTable, Nodes, Exclusive, RawWalk, NodeAt, DirSlots, RootSlots;
      var top := stops[|stops| - 1];
      assert names[..|names|] == names;
      if Outlook(volume).Some? && top.id.Some? {
        var u, nodes := OutlookState(volume), Outlook(volume).value;
        RawWalkIsWalk(u, nodes, None, names);
        WalkIsLive(u.g, nodes, None, names);
        RawDirectory(u, nodes, top.id);
      }
    }

    lemma TokensAfterAcquire(objects: seq<Object>, references: seq<Reference>, token: nat, id: Option<Slot>,
                             directory: bool)
      requires table.Valid() && volume.Consistent() && TokensLive(objects, references, Outlook(volume))
      requires LiveKind(Outlook(volume), id, directory)
      requires table.Names(token, id, directory)
      requires forall t, x, d :: t != token ==>
        (Refers(table.objects, table.references, t, x, d) <==> Refers(objects, references, t, x, d))
      ensures TokensLive(table.objects, table.references, Outlook(volume))
    {
      hide LiveKind, Refers, Prospect, Counted, DistinctObjects, PinsMatch;
      forall t, x, d | Refers(table.objects, table.references, t, x, d)
        ensures LiveKind(Outlook(volume), x, d)
      {
        if t == token { table.OneMeaning(token, id, directory, x, d); }
      }
    }

    lemma TokensAfterDrop(objects: seq<Object>, references: seq<Reference>, token: nat)
      requires table.Valid() && volume.Consistent() && TokensLive(objects, references, Outlook(volume))
      requires !table.IsLive(token)
      requires forall t, x, d :: t != token ==>
        (Refers(table.objects, table.references, t, x, d) <==> Refers(objects, references, t, x, d))
      ensures TokensLive(table.objects, table.references, Outlook(volume))
    {
      hide LiveKind, Prospect, Counted, DistinctObjects, PinsMatch;
      forall t, x, d | Refers(table.objects, table.references, t, x, d)
        ensures LiveKind(Outlook(volume), x, d)
      {
        var j :| 0 <= j < |table.references| && IsAt(table.objects, table.references[j], t, x, d);
        assert t != token;
      }
    }

    lemma PathIsCanonical(c: Context)
      requires volume.Consistent() && c.directory != 0
      requires Truthful(volume.g, volume.disk, volume.fat, volume.faulted, table.objects, table.references, c)
      ensures CanonicalPath(c.path)
    {
    }

    /** A new token leaves every context as it was. */
    lemma StaysTruthful(objects: seq<Object>, references: seq<Reference>, objects': seq<Object>,
                        references': seq<Reference>, c: Context, token: nat)
      requires volume.Consistent() && token != 0
      requires Truthful(volume.g, volume.disk, volume.fat, volume.faulted, objects, references, c)
      requires forall j :: 0 <= j < |references| ==> references[j].token != token
      requires forall t, x, d :: t != token ==>
        (Refers(objects', references', t, x, d) <==> Refers(objects, references, t, x, d))
      ensures Truthful(volume.g, volume.disk, volume.fat, volume.faulted, objects', references', c)
      ensures c.directory != token
    {
      hide Leads, CanonicalPath, Audited, DiskTable;
      if c.directory != 0 {
        var id :| Refers(objects, references, c.directory, id, true)
          && (!volume.faulted ==> Leads(volume.g, volume.disk, volume.fat, NamesIn(c.path), id));
        var j :| 0 <= j < |references| && IsAt(objects, references[j], c.directory, id, true);
        assert Refers(objects', references', c.directory, id, true);
      }
    }

    /** Dropping a token leaves every context that does not own it as it was. */
    lemma AfterDropTruthful(objects: seq<Object>, references: seq<Reference>, objects': seq<Object>,
                            references': seq<Reference>, c: Context, token: nat)
      requires volume.Consistent() && (c.directory == 0 || c.directory != token)
      requires Truthful(volume.g, volume.disk, volume.fat, volume.faulted, objects, references, c)
      requires forall t, x, d :: t != token ==>
        (Refers(objects', references', t, x, d) <==> Refers(objects, references, t, x, d))
      ensures Truthful(volume.g, volume.disk, volume.fat, volume.faulted, objects', references', c)
    {
      hide Leads, CanonicalPath, Audited, DiskTable, Refers;
      if c.directory != 0 {
        var id :| Refers(objects, references, c.directory, id, true)
          && (!volume.faulted ==> Leads(volume.g, volume.disk, volume.fat, NamesIn(c.path), id));
        assert Refers(objects', references', c.directory, id, true);
      }
    }

    lemma NewlyTruthful(stops: seq<Stop>, names: seq<string>, id: Option<Slot>, token: nat, path: string)
      requires volume.Consistent() && !volume.faulted && Path.NormalForm(names) && path == Path.Render(names)
      requires OnPath(volume.g, volume.disk, volume.fat, stops, names) && |stops| > 0
      requires stops[|stops| - 1] == Stop(id, true)
      requires table.Names(token, id, true)
      ensures Truthful(volume.g, volume.disk, volume.fat, volume.faulted, table.objects, table.references,
                       Context(token, path))
    {
      hide RawWalk, RawSlots, Path.Render, Path.SplitFrom, Path.NormalForm, Refers, Audited, DiskTable;
      RenderedIsCanonical(names);
      assert names[..|names|] == names;
      assert Leads(volume.g, volume.disk, volume.fat, names, id);
    }

    /** Take a reference and add it to a context that has none. */
    method Attach(k: nat, id: Option<Slot>, path: string) returns (error: FsError)
      requires Valid() && (k in contexts ==> contexts[k].directory == 0)
      requires CanonicalPath(path) && (!volume.faulted ==> Leads(volume.g, volume.disk, volume.fat, NamesIn(path), id))
      requires LiveKind(Outlook(volume), id, true)
      modifies this, table, table.pins
      ensures Valid()
      ensures error == Ok ==>
        k in contexts && contexts == old(contexts)[k := contexts[k]] && contexts[k].directory != 0 &&
        contexts[k].path == path
      ensures error != Ok ==> contexts == old(contexts)
    {
      hide Refers, Leads, Counted, Truthful, TokensLive, LiveKind, CanonicalPath, DistinctObjects, DistinctTokens,
           PinsMatch, Audited, DiskTable, Prospect;
      var token;
      error, token := table.Acquire(id, true, false, !volume.writable);
      if error != Ok { return; }
      forall j | j in contexts
        ensures Truthful(volume.g, volume.disk, volume.fat, volume.faulted, table.objects, table.references,
                         contexts[j])
        ensures contexts[j].directory != token
      {
        StaysTruthful(old(table.objects), old(table.references), table.objects, table.references, contexts[j], token);
      }
      AttachedTruthful(id, token, path);
      TokensAfterAcquire(old(table.objects), old(table.references), token, id, true);
      contexts := contexts[k := Context(token, path)];
    }

    lemma AttachedTruthful(id: Option<Slot>, token: nat, path: string)
      requires CanonicalPath(path) && (!volume.faulted ==> Leads(volume.g, volume.disk, volume.fat, NamesIn(path), id))
      requires table.Names(token, id, true)
      ensures Truthful(volume.g, volume.disk, volume.fat, volume.faulted, table.objects, table.references,
                       Context(token, path))
    {
      hide Leads, CanonicalPath, Refers;
    }

    /** A fresh context starts at the root. */
    method Initialize(k: nat) returns (error: FsError)
      requires Valid()
      modifies this, table, table.pins
      ensures Valid()
      ensures k in old(contexts) && old(contexts)[k].directory != 0 ==> error == Invalid
      ensures error == Ok ==>
        k in contexts && contexts == old(contexts)[k := contexts[k]] && contexts[k].directory != 0 &&
        contexts[k].path == "/"
      ensures error != Ok ==> contexts == old(contexts)
    {
      hide Refers, Counted, Truthful, TokensLive, LiveKind, DistinctObjects, DistinctTokens, PinsMatch, Audited,
           DiskTable, Prospect, Leads, CanonicalPath;
      if k in contexts && contexts[k].directory != 0 { return Invalid; }
      if volume.faulted { return IoError; }
      RootLeads();
      error := Attach(k, None, "/");
    }

    lemma RootLeads()
      requires volume.Consistent()
      ensures CanonicalPath("/") && Leads(volume.g, volume.disk, volume.fat, NamesIn("/"), None)
      ensures LiveKind(Outlook(volume), None, true)
    {
      hide Audited, DiskTable;
      EmptyIsNormal();
      Path.RenderRoot();
      RenderedIsCanonical([]);
    }

    /** A child starts where its parent is. */
    method Clone(source: nat, target: nat) returns (error: FsError)
      requires Valid() && source in contexts && source != target
      modifies this, table, table.pins
      ensures Valid()
      ensures target in old(contexts) && old(contexts)[target].directory != 0 ==> error == Invalid
      ensures error == Ok ==>
        target in contexts && contexts == old(contexts)[target := contexts[target]] && contexts[target].directory != 0
      ensures error == Ok ==>
        contexts[target].path == if contexts[source].directory == 0 then "/" else contexts[source].path
      ensures error != Ok ==> contexts == old(contexts)
    {
      hide Refers, Counted, Truthful, TokensLive, LiveKind, DistinctObjects, DistinctTokens, PinsMatch, Audited,
           DiskTable, Prospect, Leads, CanonicalPath;
      if target in contexts && contexts[target].directory != 0 { return Invalid; }
      var c := contexts[source];
      if c.directory == 0 {
        error := Initialize(target);
        return;
      }
      EveryContextLive(source);
      var found, j := table.Find(c.directory);
      var at := table.objects[table.references[j].index];
      ContextMeans(c, at.id, at.directory);
      TokenIsLive(c.directory, at.id, at.directory);
      error := Attach(target, at.id, c.path);
    }

    lemma TokenIsLive(token: nat, id: Option<Slot>, directory: bool)
      requires volume.Consistent() && TokensLive(table.objects, table.references, Outlook(volume))
      requires table.Names(token, id, directory)
      ensures LiveKind(Outlook(volume), id, directory)
    {
      hide LiveKind, Prospect, Refers;
    }

    lemma ContextMeans(c: Context, id: Option<Slot>, directory: bool)
      requires volume.Consistent() && table.Valid() && c.directory != 0 && table.Names(c.directory, id, directory)
      requires Truthful(volume.g, volume.disk, volume.fat, volume.faulted, table.objects, table.references, c)
      ensures directory && CanonicalPath(c.path)
      ensures (!volume.faulted ==> Leads(volume.g, volume.disk, volume.fat, NamesIn(c.path), id))
    {
      hide Leads, CanonicalPath, Refers, Audited, DiskTable, Counted, DistinctObjects, PinsMatch;
      var x :| Refers(table.objects, table.references, c.directory, x, true)
        && (!volume.faulted ==> Leads(volume.g, volume.disk, volume.fat, NamesIn(c.path), x));
      table.OneMeaning(c.directory, id, directory, x, true);
    }

    /** Forget a task's working directory. */
    method Destroy(k: nat) returns (error: FsError)
      requires Valid() && k in contexts
      modifies this, table, table.pins
      ensures Valid() && error == Ok && contexts == old(contexts)[k := Context(0, "")]
      ensures old(contexts[k]).directory != 0 ==> !table.IsLive(old(contexts[k]).directory)
    {
      hide Refers, Leads, Counted, Truthful, TokensLive, LiveKind, CanonicalPath, DistinctObjects, DistinctTokens,
           PinsMatch, Audited, DiskTable, Prospect;
      var token := contexts[k].directory;
      NoContext();
      if token != 0 { EveryContextLive(k); }
      contexts := contexts[k := Context(0, "")];
      error := Ok;
      if token != 0 {
        error := table.Drop(token);
        forall j | j in contexts
          ensures Truthful(volume.g, volume.disk, volume.fat, volume.faulted, table.objects, table.references,
                           contexts[j])
        {
          AfterDropTruthful(old(table.objects), old(table.references), table.objects, table.references, contexts[j],
                            token);
        }
        TokensAfterDrop(old(table.objects), old(table.references), token);
      }
    }

    lemma NoContext()
      ensures Truthful(volume.g, volume.disk, volume.fat, volume.faulted, table.objects, table.references,
                       Context(0, ""))
    {
    }

    // ----- Handles ----------------------------------------------------------------------------------

    /** The context of a task and the path it starts from; without a task, the root. */
    function ContextOf(k: Option<nat>): Option<Context>
      reads this
    {
      if k.Some? && k.value in contexts then Some(contexts[k.value]) else None
    }

    function Base(k: Option<nat>): string
      reads this
    {
      if ContextOf(k).Some? then ContextOf(k).value.path else "/"
    }

    /** Parse a path for a task, or from the root when no task is given. */
    method Preflight(k: Option<nat>, input: string) returns (error: FsError, plan: Path.Parsed)
      requires Valid() && (k.Some? ==> k.value in contexts)
      ensures error == Ok ==> Planned(plan, Base(k), input) && (k.Some? ==> contexts[k.value].directory != 0)
    {
      hide Path.Denotes, Path.Render, Path.Tokenize, Truthful, Counted, DistinctObjects, DistinctTokens, PinsMatch,
           Audited, DiskTable;
      var none := Path.Tokens([], false, false);
      plan := Path.Parsed(none, none, "", 0);
      if k.Some? && contexts[k.value].directory == 0 { return Invalid, plan; }
      var parsed := Path.Parse(Base(k), input);
      if parsed.Failure? { return parsed.error, plan; }
      error, plan := Ok, parsed.value;
    }

    /** Open what a path names. The handle names the node the canonical path leads to. */
    method Open(k: Option<nat>, input: string, write: bool) returns (error: FsError, token: nat, ghost stop: Stop)
      requires Valid() && (k.Some? ==> k.value in contexts)
      modifies volume`cache, table, table.pins
      ensures Valid() && contexts == old(contexts)
      ensures error == Ok ==>
        table.Names(token, stop.id, stop.directory) && forall j :: j in contexts ==> contexts[j].directory != token
      ensures error == Ok ==> Denoted(volume.g, volume.disk, volume.fat, Base(k), input, stop.id)
      ensures error == Ok && Path.WantsDirectory(input) ==> stop.directory
    {
      hide OnPath, Path.Denotes, Path.DenotesUpTo, Path.Render, Path.SplitFrom, Path.NormalForm, Refers, Leads, Counted,
           Truthful, TokensLive, LiveKind, CanonicalPath, DistinctObjects, DistinctTokens, PinsMatch, Audited,
           DiskTable, Prospect, Planned, RawPath, Entries.Entries, Path.WantsDirectory;
      token, stop := 0, Stop(None, false);
      var plan;
      error, plan := Preflight(k, input);
      if error != Ok { return; }
      var stops;
      ghost var names;
      WholePlan(plan, Base(k), input);
      error, stops, names := ResolveFor(k, plan, |plan.input.names|, input);
      if error != Ok { return; }
      OnPathEnd(volume.g, volume.disk, volume.fat, stops, names);
      stop := stops[|stops| - 1];
      error, token := Take(stops, names, write);
    }

    /** A new reference to the node where a walk ended. */
    method Take(stops: seq<Stop>, ghost names: seq<string>, write: bool) returns (error: FsError, token: nat)
      requires Valid() && !volume.faulted && Path.NormalForm(names)
      requires OnPath(volume.g, volume.disk, volume.fat, stops, names) && |stops| > 0
      modifies table, table.pins
      ensures Valid()
      ensures var top := stops[|stops| - 1];
        error == Ok ==>
          table.Names(token, top.id, top.directory) && forall j :: j in contexts ==> contexts[j].directory != token
    {
      hide OnPath, Path.NormalForm, Refers, Leads, Counted, Truthful, TokensLive, LiveKind, DistinctObjects,
           DistinctTokens, PinsMatch, Audited, DiskTable, Prospect, Entries.Entries;
      var top := stops[|stops| - 1];
      error, token := table.Acquire(top.id, top.directory, write, !volume.writable);
      if error != Ok { return; }
      forall j | j in contexts
        ensures Truthful(volume.g, volume.disk, volume.fat, volume.faulted, table.objects, table.references,
                         contexts[j])
        ensures contexts[j].directory != token
      {
        StaysTruthful(old(table.objects), old(table.references), table.objects, table.references, contexts[j], token);
      }
      OnPathLive(stops, names);
      TokensAfterAcquire(old(table.objects), old(table.references), token, top.id, top.directory);
    }

    method ResolveFor(k: Option<nat>, plan: Path.Parsed, count: nat, ghost input: string)
      returns (error: FsError, stops: seq<Stop>, ghost names: seq<string>)
      requires Valid() && (k.Some? ==> k.value in contexts && contexts[k.value].directory != 0)
      requires Planned(plan, Base(k), input) && count <= |plan.input.names|
      modifies volume`cache
      ensures Valid()
      ensures error == Ok ==>
        !volume.faulted && Path.NormalForm(names) && OnPath(volume.g, volume.disk, volume.fat, stops, names) &&
        |stops| > 0
      ensures error == Ok ==> Path.DenotesUpTo(Base(k), input, count) == Some(names)
      ensures error == Ok && count == |plan.input.names| && Path.WantsDirectory(input) ==>
        stops[|stops| - 1].directory
      ensures error != Invalid
    {
      hide OnPath, Path.Denotes, Path.DenotesUpTo, Path.Render, Path.SplitFrom, Path.NormalForm, Refers, Leads, Counted,
           Truthful, TokensLive, LiveKind, CanonicalPath, DistinctObjects, DistinctTokens, PinsMatch, Audited,
           DiskTable, Prospect, Planned, Path.WantsDirectory;
      var c := ContextOf(k);
      if c.Some? { PathIsCanonical(c.value); }
      SlashPlan(plan, Base(k), input);
      error, stops, names := Resolve(c, plan, count, Base(k), input);
      if error == Ok { OnPathLength(volume.g, volume.disk, volume.fat, stops, names); }
    }

    /** Close a handle. All working directories stay truthful exactly if it was none of theirs. */
    method Close(token: nat) returns (error: FsError)
      requires Valid()
      modifies table, table.pins
      ensures volume.Consistent() && table.Valid() && contexts == old(contexts)
      ensures error == Ok <==> old(table.IsLive(token))
      ensures error in {Ok, Invalid}
      ensures !table.IsLive(token)
      ensures forall t, x, d :: t != token ==>
        (Refers(table.objects, table.references, t, x, d) <==>
         Refers(old(table.objects), old(table.references), t, x, d))
      ensures Valid() <==> error != Ok || forall k :: k in contexts ==> contexts[k].directory != token
    {
      hide Refers, Leads, Counted, Truthful, TokensLive, LiveKind, CanonicalPath, DistinctObjects, DistinctTokens,
           PinsMatch, Audited, DiskTable, Prospect;
      ghost var held := exists k :: k in contexts && contexts[k].directory == token != 0;
      if k :| k in contexts && contexts[k].directory == token != 0 { ContextIsLive(contexts[k]); }
      error := table.Drop(token);
      TokensAfterDrop(old(table.objects), old(table.references), token);
      if held {
        var k :| k in contexts && contexts[k].directory == token != 0;
        if Truthful(volume.g, volume.disk, volume.fat, volume.faulted, table.objects, table.references, contexts[k]) {
          ContextIsLive(contexts[k]);
          assert false;
        }
      } else {
        forall j | j in contexts
          ensures Truthful(volume.g, volume.disk, volume.fat, volume.faulted, table.objects, table.references,
                           contexts[j])
        {
          AfterDropTruthful(old(table.objects), old(table.references), table.objects, table.references, contexts[j],
                            token);
        }
      }
    }

    // ----- Mutations ------------------------------------------------------------------------------------

    /** The volume changed by one call; every working directory still leads where it did. */
    lemma StillTruthful(u: State, before: map<Slot, Node>, change: Change, c: Context)
      requires table.Valid() && volume.Healthy() && Sound(u, before) && u.g == volume.g
      requires Truthful(u.g, u.d, u.fat, false, table.objects, table.references, c)
      requires Changed(u.g, before, volume.Tree(), change)
      requires (change.Lost? ==> table.pins.Count(Some(change.slot)) == 0)
      ensures Truthful(volume.g, volume.disk, volume.fat, volume.faulted, table.objects, table.references, c)
    {
      hide Leads, CanonicalPath, Audited, DiskTable, SameNames, GainedName, LostName, Sound, DistinctTokens,
           DistinctObjects, Prospect, Nodes;
      if c.directory != 0 {
        var id :| Refers(table.objects, table.references, c.directory, id, true)
          && Leads(u.g, u.d, u.fat, NamesIn(c.path), id);
        LeadsTables(u.g, u.d, u.fat, NamesIn(c.path), id);
        HealthySound(volume);
        var names, w, after := NamesIn(c.path), StateOf(volume), volume.Tree();
        match change
        case Same =>
          SameNamesLead(u, before, w, after, names, id);
        case Gained(dir, name, slot) =>
          GainedNameLeads(u, before, w, after, names, id, dir, name, slot);
        case Lost(dir, name, slot) =>
          Retained(c.directory, id, true);
          LostNameLeads(u, before, w, after, names, id, dir, name, slot);
      }
    }

    /** Whatever a call on the volume did, succeeded, refused or faulted. */
    lemma ContextsKept(u: State, before: Option<map<Slot, Node>>, change: Change, ok: bool)
      requires volume.Consistent() && table.Valid() && u.g == volume.g
      requires forall k :: k in contexts ==>
        Truthful(u.g, u.d, u.fat, false, table.objects, table.references, contexts[k])
      requires before.Some? ==> Sound(u, before.value)
      requires ok ==> volume.Healthy() && before.Some? && Changed(volume.g, before.value, volume.Tree(), change)
      requires ok && change.Lost? ==> table.pins.Count(Some(change.slot)) == 0
      requires !ok && !volume.faulted ==> volume.disk == u.d && volume.fat == u.fat
      ensures forall k :: k in contexts ==>
        Truthful(volume.g, volume.disk, volume.fat, volume.faulted, table.objects, table.references, contexts[k])
    {
      hide Truthful, Leads, CanonicalPath, Audited, DiskTable, Changed, Sound, DistinctTokens, DistinctObjects,
           Prospect, Nodes, Counted, PinsMatch;
      forall k | k in contexts
        ensures Truthful(volume.g, volume.disk, volume.fat, volume.faulted, table.objects, table.references,
                         contexts[k])
      {
        if ok {
          StillTruthful(u, before.value, change, contexts[k]);
        } else if volume.faulted {
          FaultedTruthful(u, contexts[k]);
        }
      }
    }

    /** After a fault only the reference itself is still vouched for. */
    lemma FaultedTruthful(u: State, c: Context)
      requires Truthful(u.g, u.d, u.fat, false, table.objects, table.references, c) && volume.faulted
      ensures Truthful(volume.g, volume.disk, volume.fat, volume.faulted, table.objects, table.references, c)
    {
      hide Leads, CanonicalPath, Refers;
    }

    /** References keep naming live nodes of their kind. */
    lemma TokensKept(before: Option<map<Slot, Node>>, slot: Slot, ok: bool)
      requires volume.Consistent() && table.Valid() && TokensLive(table.objects, table.references, before)
      requires !ok && !volume.faulted ==> Outlook(volume) == before
      requires ok ==> volume.Healthy() && volume.audited && before.Some? && KindsKept(before.value, volume.Tree(), slot)
      requires ok && slot !in volume.Tree() ==> table.pins.Count(Some(slot)) == 0
      ensures TokensLive(table.objects, table.references, Outlook(volume))
    {
      hide Refers, Audited, DiskTable, Nodes, DistinctTokens, DistinctObjects, Counted, PinsMatch;
      forall t, x, d | Refers(table.objects, table.references, t, x, d)
        ensures LiveKind(Outlook(volume), x, d)
      {
        assert LiveKind(before, x, d);
        if ok && x.Some? { Retained(t, x, d); }
      }
    }

    /** What a live token names is pinned. */
    lemma Retained(token: nat, id: Option<Slot>, directory: bool)
      requires table.Valid() && Refers(table.objects, table.references, token, id, directory)
      ensures table.pins.Count(id) == 1
    {
      hide Uses;
      var j :| 0 <= j < |table.references| && IsAt(table.objects, table.references[j], token, id, directory);
      UsesSome(table.references, j);
      assert HoldsId(table.objects, id);
    }

    /** A directory reached by a walk is live if the volume is in order. */
    lemma ReachedIsLive(names: seq<string>, id: Option<Slot>)
      requires volume.Consistent() && Leads(volume.g, volume.disk, volume.fat, names, id)
      ensures LiveId(volume, id)
    {
      hide Leads, DiskTable, Nodes, Exclusive;
      if Outlook(volume).Some? {
        LeadsInTree(OutlookState(volume), Outlook(volume).value, names, id);
      }
    }

    ghost predicate Parented(parent: Option<Slot>, names: seq<string>)
      reads volume
    {
      !volume.faulted && Leads(volume.g, volume.disk, volume.fat, names, parent)
    }

    method MkdirIn(parent: Option<Slot>, name: string, ghost names: seq<string>)
      returns (error: FsError, ghost slot: Slot)
      requires Valid() && Parented(parent, names) && |names| < PATH_DEPTH && Path.Canonical(name)
      modifies volume
      ensures Valid() && contexts == old(contexts)
      ensures error == Ok ==>
        volume.Healthy() && MadeDirectory(volume.g, old(Outlook(volume)), volume.Tree(), parent, name, slot)
      ensures Entered(volume, old(volume.history), old(Outlook(volume)), error == Ok)
      ensures error != Ok && !volume.faulted ==> volume.disk == old(volume.disk) && volume.fat == old(volume.fat)
    {
      hide volume.Logged, Refers, Leads, Counted, Truthful, TokensLive, LiveKind, CanonicalPath, DistinctObjects,
           DistinctTokens, PinsMatch, Audited, DiskTable, Prospect, MadeDirectory, Nodes, LiveId, Entries.Entries,
           Apply, History.Issue;
      ReachedIsLive(names, parent);
      ghost var o, u := Outlook(volume), OutlookState(volume);
      OutlookSound(volume);
      ghost var calls, load := volume.history, LoadOf(volume);
      LoggedDisk();
      ghost var node, grew, views;
      error, slot, node, grew, views := MkdirNode(volume, parent, name);
      if error == Ok { Lower(u, o, names, parent, name, slot); }
      MadeIsGained(volume, o, parent, name, slot, error);
      ContextsKept(u, o, Gained(parent, name, slot), error == Ok);
      TokensKept(o, slot, error == Ok);
      LoadKept(u, calls, load, error == Ok);
    }

    /** The new directory lies no deeper than a path can reach, so the audit need not either. */
    ghost method Lower(u: State, before: Option<map<Slot, Node>>, names: seq<string>, parent: Option<Slot>,
                       name: string, slot: Slot)
      requires volume.Consistent() && volume.Healthy() && volume.depth == PATH_DEPTH + 1 && volume.g == u.g
      requires u.depth == PATH_DEPTH && (before.Some? ==> Sound(u, before.value)) && |names| < PATH_DEPTH
      requires Leads(u.g, u.d, u.fat, names, parent)
      requires MadeDirectory(volume.g, before, volume.Tree(), parent, name, slot)
      modifies volume`depth
      ensures volume.Consistent() && volume.Healthy() && volume.Tree() == old(volume.Tree())
      ensures volume.depth == PATH_DEPTH
      ensures volume.audited ==> LoadOf(volume) == old(LoadOf(volume))
    {
      hide volume.Logged, Nodes, Audited, DiskTable, MadeDirectory, Sound, Leads, Shallow, Entries.Entries;
      HealthySound(volume);
      PerformedBefore(volume.g, before, volume.Tree(), MakeDir, parent, name, slot);
      MadeWithin(u, before.value, StateOf(volume), volume.Tree(), names, parent, name, slot);
      AuditedIs(volume);
      volume.depth := PATH_DEPTH;
    }

    method RemoveIn(parent: Option<Slot>, name: string, ghost names: seq<string>)
      returns (error: FsError, ghost slot: Slot)
      requires Valid() && Parented(parent, names)
      modifies volume
      ensures Valid() && contexts == old(contexts)
      ensures error == Ok ==>
        volume.Healthy() && Removed(volume.g, old(Outlook(volume)), volume.Tree(), parent, name, slot)
      ensures error == Ok ==> table.pins.Count(Some(slot)) == 0
      ensures Entered(volume, old(volume.history), old(Outlook(volume)), error == Ok)
      ensures error != Ok && !volume.faulted ==> volume.disk == old(volume.disk) && volume.fat == old(volume.fat)
    {
      hide volume.Logged, Refers, Leads, Counted, Truthful, TokensLive, LiveKind, CanonicalPath, DistinctObjects,
           DistinctTokens, PinsMatch, Audited, DiskTable, Prospect, LostName, Nodes, LiveId, Entries.Entries, Apply,
           History.Issue;
      ReachedIsLive(names, parent);
      ghost var o, u := Outlook(volume), OutlookState(volume);
      OutlookSound(volume);
      ghost var calls, load := volume.history, LoadOf(volume);
      LoggedDisk();
      error, slot := RemoveNode(volume, table.pins, parent, name);
      ContextsKept(u, o, Lost(parent, name, slot), error == Ok);
      if error == Ok { LostKinds(volume.g, o.value, volume.Tree(), parent, name, slot); }
      TokensKept(o, slot, error == Ok);
      LoadKept(u, calls, load, error == Ok);
    }

    method ReplaceIn(parent: Option<Slot>, name: string, data: seq<byte>, ghost names: seq<string>)
      returns (error: FsError, ghost slot: Slot)
      requires Valid() && Parented(parent, names) && Path.Canonical(name)
      modifies volume
      ensures Valid() && contexts == old(contexts)
      ensures error == Ok ==>
        volume.Healthy() && Replaced(volume.g, old(Outlook(volume)), volume.Tree(), parent, name, slot, data)
      ensures error == Ok && slot in old(Outlook(volume)).value ==> table.pins.Count(Some(slot)) == 0
      ensures Entered(volume, old(volume.history), old(Outlook(volume)), error == Ok)
      ensures error != Ok && !volume.faulted ==> volume.disk == old(volume.disk) && volume.fat == old(volume.fat)
    {
      hide volume.Logged, Refers, Leads, Counted, Truthful, TokensLive, LiveKind, CanonicalPath, DistinctObjects,
           DistinctTokens, PinsMatch, Audited, DiskTable, Prospect, GainedName, SameNames, Nodes, LiveId, RestKept,
           Atomic, Entries.Entries, Apply, History.Issue;
      ReachedIsLive(names, parent);
      ghost var o, u := Outlook(volume), OutlookState(volume);
      OutlookSound(volume);
      ghost var calls, load := volume.history, LoadOf(volume);
      LoggedDisk();
      ghost var node, grew, views;
      error, slot, node, grew, views := ReplaceFile(volume, table.pins, parent, name, data);
      ContextsKept(u, o, if error == Ok && slot in o.value then Same else Gained(parent, name, slot), error == Ok);
      if error == Ok { RestKinds(o.value, volume.Tree(), slot); }
      TokensKept(o, slot, error == Ok);
      LoadKept(u, calls, load, error == Ok);
    }

    /** Replace, remove or make what a path names. The root, "." and ".." are refused;
        the final name is looked up before the volume is touched. */
    method Mutate(k: Option<nat>, input: string, action: Action)
      returns (error: FsError, ghost parent: Option<Slot>, ghost slot: Slot)
      requires Valid() && (k.Some? ==> k.value in contexts)
      modifies volume
      ensures Valid() && contexts == old(contexts)
      ensures error == Ok ==>
        volume.Healthy() &&
        Performed(volume.g, old(Outlook(volume)), volume.Tree(), action, parent, Path.LastName(input), slot)
      ensures error == Ok ==>
        && old(Outlook(volume)).Some? && Path.Denotes(Base(k), input).Some?
        && var full := Path.Denotes(Base(k), input).value;
           && full != [] && full[|full| - 1] == Path.LastName(input)
           && Arrived(volume.g, old(volume.disk), old(volume.fat), old(Outlook(volume)).value, volume.disk, volume.fat,
                      full, action, parent, slot)
      // A path that wants a directory never gives a file.
      ensures error == Ok && Path.WantsDirectory(input) ==>
        !action.Overwrite? && (action.Unlink? ==> WasDirectory(old(Outlook(volume)), slot))
      ensures error == Ok && action.Unlink? ==> table.pins.Count(Some(slot)) == 0
      ensures Entered(volume, old(volume.history), old(Outlook(volume)), error == Ok)
      ensures error != Ok && !volume.faulted ==> volume.disk == old(volume.disk) && volume.fat == old(volume.fat)
    {
      hide Path.Denotes, Refers, Leads, Counted, Truthful, TokensLive, LiveKind, CanonicalPath, DistinctObjects,
           DistinctTokens, PinsMatch, Audited, DiskTable, Prospect, Nodes, Path.Canonical, Performed, Path.LastName,
           Arrived, Permits, Path.WantsDirectory, WasDirectory, volume.Logged, LoadOf, Entries.Entries;
      var directory, name;
      ghost var names;
      slot := Slot(Root(0), 0);
      error, directory, name, names := Aim(k, input, action);
      parent := directory;
      if error == Ok { error, slot := Act(directory, name, action, names, Path.WantsDirectory(input)); }
    }

    /** The directory to act in and the name to act on, if the action may be tried there. */
    method Aim(k: Option<nat>, input: string, action: Action)
      returns (error: FsError, parent: Option<Slot>, name: string, ghost names: seq<string>)
      requires Valid() && (k.Some? ==> k.value in contexts)
      modifies volume`cache
      ensures Valid() && Outlook(volume) == old(Outlook(volume))
      ensures error == Ok ==> Parented(parent, names) && |names| < PATH_DEPTH && Path.Canonical(name)
      ensures error == Ok ==> name == Path.LastName(input) && Path.Denotes(Base(k), input) == Some(names + [name])
      ensures error == Ok ==>
        Permits(volume.g, volume.disk, volume.fat, parent, name, Path.WantsDirectory(input), action)
    {
      hide OnPath, Path.Denotes, Path.DenotesUpTo, Path.Render, Path.SplitFrom, Path.NormalForm, Refers, Leads, Counted,
           Truthful, TokensLive, LiveKind, CanonicalPath, DistinctObjects, DistinctTokens, PinsMatch, Audited,
           DiskTable, Prospect, Planned, Nodes, Path.Canonical, Path.LastName, Permits, Path.WantsDirectory,
           volume.Logged, LoadOf, Entries.Entries;
      parent, name, names := None, "", [];
      var plan;
      error, plan := Preflight(k, input);
      if error != Ok { return; }
      var count := |plan.input.names|;
      if count == 0 { return if action.Unlink? then Busy else IsDirectory, parent, name, names; }
      name := plan.input.names[count - 1];
      LastComponent(plan, Base(k), input);
      var special := name == "." || name == "..";
      var stops;
      error, stops, names := ResolveFor(k, plan, if special then count else count - 1, input);
      if error != Ok { return; }
      if special { return if action.Unlink? then Busy else IsDirectory, parent, name, names; }
      var top := stops[|stops| - 1];
      if !top.directory { return NotDirectory, parent, name, names; }
      if !volume.writable { return ReadOnly, parent, name, names; }
      OnPathEnd(volume.g, volume.disk, volume.fat, stops, names);
      parent := top.id;
      error := Check(parent, name, plan.input.directory, action);
      SlashPlan(plan, Base(k), input);
      ParentPlan(plan, Base(k), input);
      FullLength(Base(k), input, names);
    }

    /** Act on the last name in the directory that the names before it lead to. */
    method Act(parent: Option<Slot>, name: string, action: Action, ghost names: seq<string>, ghost directory: bool)
      returns (error: FsError, ghost slot: Slot)
      requires Valid() && Parented(parent, names) && |names| < PATH_DEPTH && Path.Canonical(name)
      requires Permits(volume.g, volume.disk, volume.fat, parent, name, directory, action)
      modifies volume
      ensures Valid() && contexts == old(contexts)
      ensures error == Ok ==>
        && volume.Healthy() && old(Outlook(volume)).Some?
        && Performed(volume.g, old(Outlook(volume)), volume.Tree(), action, parent, name, slot)
        && Arrived(volume.g, old(volume.disk), old(volume.fat), old(Outlook(volume)).value, volume.disk, volume.fat,
                   names + [name], action, parent, slot)
      ensures error == Ok && directory ==>
        !action.Overwrite? && (action.Unlink? ==> WasDirectory(old(Outlook(volume)), slot))
      ensures error == Ok && action.Unlink? ==> table.pins.Count(Some(slot)) == 0
      ensures Entered(volume, old(volume.history), old(Outlook(volume)), error == Ok)
      ensures error != Ok && !volume.faulted ==> volume.disk == old(volume.disk) && volume.fat == old(volume.fat)
    {
      hide Refers, Leads, Counted, Truthful, TokensLive, LiveKind, CanonicalPath, DistinctObjects, DistinctTokens,
           PinsMatch, Audited, DiskTable, Prospect, Nodes, Path.Canonical, Performed, Arrived, Sound, Permits,
           WasDirectory;
      ghost var u, before := OutlookState(volume), Outlook(volume);
      OutlookSound(volume);
      error, slot := Perform(parent, name, action, names);
      if error == Ok {
        HealthySound(volume);
        PerformedBefore(volume.g, before, volume.Tree(), action, parent, name, slot);
        ArrivedAfter(u, before.value, StateOf(volume), volume.Tree(), names, name, action, parent, slot);
        PermittedWas(u, before.value, volume.Tree(), parent, name, directory, action, slot);
      }
    }

    /** What the lookup of the final name allows. */
    method Check(parent: Option<Slot>, name: string, directory: bool, action: Action) returns (error: FsError)
      requires Valid()
      modifies volume`cache
      ensures Valid() && Outlook(volume) == old(Outlook(volume))
      ensures error == Ok ==> Permits(volume.g, volume.disk, volume.fat, parent, name, directory, action)
    {
      hide Refers, Leads, Counted, Truthful, TokensLive, CanonicalPath, DistinctObjects, DistinctTokens, PinsMatch,
           Audited, DiskTable, Prospect, Finds, HasKind, Openable;
      var s, isDirectory;
      error, s, isDirectory := LookUp(volume, parent, name);
      if error == Ok {
        if action.MakeDir? { return Exists; }
        if directory && !isDirectory { return NotDirectory; }
        if action.Overwrite? && isDirectory { return IsDirectory; }
        var held := table.pins.Pinned(Some(s));
        if held { return Busy; }
      } else if error == NotFound && !action.Unlink? {
        if directory && !action.MakeDir? { return NotFound; }
        return Ok;
      }
    }

    method Perform(parent: Option<Slot>, name: string, action: Action, ghost names: seq<string>)
      returns (error: FsError, ghost slot: Slot)
      requires Valid() && Parented(parent, names) && |names| < PATH_DEPTH && Path.Canonical(name)
      modifies volume
      ensures Valid() && contexts == old(contexts)
      ensures error == Ok ==>
        volume.Healthy() && Performed(volume.g, old(Outlook(volume)), volume.Tree(), action, parent, name, slot)
      ensures error == Ok && action.Unlink? ==> table.pins.Count(Some(slot)) == 0
      ensures Entered(volume, old(volume.history), old(Outlook(volume)), error == Ok)
      ensures error != Ok && !volume.faulted ==> volume.disk == old(volume.disk) && volume.fat == old(volume.fat)
    {
      hide Refers, Leads, Counted, Truthful, TokensLive, CanonicalPath, DistinctObjects, DistinctTokens, PinsMatch,
           Audited, DiskTable, Prospect, Nodes, MadeDirectory, Removed, Replaced, Path.Canonical;
      match action
      case MakeDir =>
        error, slot := MkdirIn(parent, name, names);
      case Unlink =>
        error, slot := RemoveIn(parent, name, names);
      case Overwrite(data) =>
        error, slot := ReplaceIn(parent, name, data, names);
    }

    // ----- Writing through handles ------------------------------------------------------------------------

    /** The file a writable handle names, or the reason it may not be written. */
    method Target(token: nat) returns (error: FsError, id: Slot)
      requires Valid()
      ensures error == Ok ==> table.Names(token, Some(id), false) && LiveId(volume, Some(id)) && volume.writable
      ensures !table.IsLive(token) ==> error == Invalid
    {
      hide Refers, Leads, Counted, Truthful, CanonicalPath, DistinctObjects, DistinctTokens, PinsMatch, Audited,
           DiskTable, Prospect;
      id := Slot(Root(0), 0);
      var found, j := table.Find(token);
      if !found { return Invalid, id; }
      if !table.references[j].write { return Access, id; }
      var at := table.objects[table.references[j].index];
      if at.directory { return IsDirectory, id; }
      if !volume.writable { return ReadOnly, id; }
      TokenIsLive(token, at.id, at.directory);
      error, id := Ok, at.id.value;
    }

    method Write(token: nat, offset: nat, data: seq<byte>) returns (error: FsError, transferred: nat, ghost id: Slot)
      requires Valid()
      modifies volume
      ensures Valid() && contexts == old(contexts)
      ensures error == Ok ==> table.Names(token, Some(id), false) && transferred == |data|
      ensures error == Ok && data != [] ==>
        volume.Healthy() && Wrote(volume.g, old(Outlook(volume)), volume.Tree(), id, offset, data)
      ensures Entered(volume, old(volume.history), old(Outlook(volume)), error == Ok)
      ensures error != Ok && !volume.faulted ==>
        volume.disk == old(volume.disk) && volume.fat == old(volume.fat) && transferred == 0
    {
      hide Refers, Leads, Counted, Truthful, TokensLive, CanonicalPath, DistinctObjects, DistinctTokens, PinsMatch,
           Audited, DiskTable, Prospect, Nodes, LiveId, Wrote, AtomicFrom, DurableFrom, Entries.Entries, Apply,
           History.Issue;
      transferred := 0;
      var file;
      error, file := Target(token);
      id := file;
      if error != Ok { return; }
      if data == [] { return; }
      ghost var o, u := Outlook(volume), OutlookState(volume);
      OutlookSound(volume);
      ghost var node;
      if volume.faulted { return IoError, 0, id; }
      ghost var calls, load := volume.history, LoadOf(volume);
      LoggedDisk();
      error, transferred, node := WriteFile(volume, file, offset, data);
      if error == Ok { WroteNames(volume.g, o, volume.Tree(), file, offset, data); }
      ContextsKept(u, o, Same, error == Ok);
      TokensKept(o, file, error == Ok);
      LoadKept(u, calls, load, error == Ok);
    }

    method Truncate(token: nat, size: nat) returns (error: FsError, ghost id: Slot)
      requires Valid()
      modifies volume
      ensures Valid() && contexts == old(contexts)
      ensures error == Ok ==>
        volume.Healthy() && table.Names(token, Some(id), false) &&
        Resized(volume.g, old(Outlook(volume)), volume.Tree(), id, size)
      ensures Entered(volume, old(volume.history), old(Outlook(volume)), error == Ok)
      ensures error != Ok && !volume.faulted ==> volume.disk == old(volume.disk) && volume.fat == old(volume.fat)
    {
      hide Refers, Leads, Counted, Truthful, TokensLive, CanonicalPath, DistinctObjects, DistinctTokens, PinsMatch,
           Audited, DiskTable, Prospect, Nodes, LiveId, Resized, AtomicFrom, Entries.Entries, Apply, History.Issue;
      var file;
      error, file := Target(token);
      id := file;
      if error != Ok { return; }
      ghost var o, u := Outlook(volume), OutlookState(volume);
      OutlookSound(volume);
      ghost var node;
      if volume.faulted { return IoError, id; }
      ghost var calls, load := volume.history, LoadOf(volume);
      LoggedDisk();
      error, node := TruncateFile(volume, file, size);
      if error == Ok { ResizedNames(volume.g, o, volume.Tree(), file, size); }
      ContextsKept(u, o, Same, error == Ok);
      TokensKept(o, file, error == Ok);
      LoadKept(u, calls, load, error == Ok);
    }
  }

  lemma WroteNames(g: Geometry, before: Option<map<Slot, Node>>, after: map<Slot, Node>, id: Slot, offset: nat,
                   data: seq<byte>)
    requires Wrote(g, before, after, id, offset, data)
    ensures before.Some? && SameNames(g, before.value, after) && KindsKept(before.value, after, id) && id in after
  {
    hide SameNames;
  }

  lemma ResizedNames(g: Geometry, before: Option<map<Slot, Node>>, after: map<Slot, Node>, id: Slot, size: nat)
    requires Resized(g, before, after, id, size)
    ensures before.Some? && SameNames(g, before.value, after) && KindsKept(before.value, after, id) && id in after
  {
    hide Child;
  }

  datatype Action = Overwrite(data: seq<byte>) | Unlink | MakeDir

  ghost predicate Performed(g: Geometry, before: Option<map<Slot, Node>>, after: map<Slot, Node>, action: Action,
                            parent: Option<Slot>, name: string, slot: Slot) {
    match action
    case MakeDir => MadeDirectory(g, before, after, parent, name, slot)
    case Unlink => Removed(g, before, after, parent, name, slot)
    case Overwrite(data) => Replaced(g, before, after, parent, name, slot, data)
  }

  /** What the lookup of the last name lets through if the path wants a directory: nothing is
      overwritten, and what is removed is a directory. */
  ghost predicate Permits(g: Geometry, d: Disk, fat: seq<byte>, parent: Option<Slot>, name: string, directory: bool,
                          action: Action) {
    && g.perCluster > 0 && IsTable(g, fat)
    && (directory ==>
          && !action.Overwrite?
          && (action.Unlink? ==>
                exists s :: Finds(g, d, fat, parent, name, Here(s)) && HasKind(g, d, fat, Some(s), true)))
  }

  ghost predicate WasDirectory(before: Option<map<Slot, Node>>, slot: Slot) {
    before.Some? && slot in before.value && before.value[slot].DirNode?
  }

  lemma PermittedWas(u: State, before: map<Slot, Node>, after: map<Slot, Node>, parent: Option<Slot>, name: string,
                     directory: bool, action: Action, slot: Slot)
    requires Sound(u, before) && Performed(u.g, Some(before), after, action, parent, name, slot)
    requires Permits(u.g, u.d, u.fat, parent, name, directory, action)
    ensures directory ==> !action.Overwrite? && (action.Unlink? ==> WasDirectory(Some(before), slot))
  {
    hide Sound, Child, SlotsOf, NameOf, RawSlots, Scan, Openable;
    if directory && action.Unlink? {
      RawIsChild(u, before, parent, name);
      ChildIsLive(u.g, before, parent, name);
      RawDirectory(u, before, Some(slot));
    }
  }

  lemma PerformedBefore(g: Geometry, before: Option<map<Slot, Node>>, after: map<Slot, Node>, action: Action,
                        parent: Option<Slot>, name: string, slot: Slot)
    requires Performed(g, before, after, action, parent, name, slot)
    ensures before.Some?
  {
  }

  /** Nodes other than `slot` stay, with their kind; so does `slot` if it stays at all. */
  ghost predicate KindsKept(before: map<Slot, Node>, after: map<Slot, Node>, slot: Slot) {
    forall s :: s in before && (s != slot || s in after) ==> s in after && after[s].DirNode? == before[s].DirNode?
  }

  /** How lookups may change across one call. */
  datatype Change = Same | Gained(dir: Option<Slot>, name: string,
                                  slot: Slot) | Lost(dir: Option<Slot>, name: string, slot: Slot)

  ghost predicate Changed(g: Geometry, before: map<Slot, Node>, after: map<Slot, Node>, change: Change) {
    match change
    case Same => SameNames(g, before, after)
    case Gained(dir, name, slot) => GainedName(g, before, after, dir, name, slot)
    case Lost(dir, name, slot) => LostName(g, before, after, dir, name, slot)
  }

  lemma MadeIsGained(v: FatVolume, before: Option<map<Slot, Node>>, parent: Option<Slot>, name: string, slot: Slot,
                     error: FsError)
    requires error == Ok ==> v.Healthy() && MadeDirectory(v.g, before, v.Tree(), parent, name, slot)
    ensures error == Ok ==>
      before.Some? && GainedName(v.g, before.value, v.Tree(), parent, name, slot) &&
      KindsKept(before.value, v.Tree(), slot)
    ensures error == Ok ==> slot in v.Tree()
  {
    hide Nodes, Audited, DiskTable, Child, NameOf;
  }

  lemma RestKinds(before: map<Slot, Node>, after: map<Slot, Node>, slot: Slot)
    requires RestKept(before, after, slot)
    requires (slot in before && slot in after ==> after[slot].DirNode? == before[slot].DirNode?)
    ensures KindsKept(before, after, slot)
  {
  }

  lemma LostKinds(g: Geometry, before: map<Slot, Node>, after: map<Slot, Node>, dir: Option<Slot>, name: string,
                  slot: Slot)
    requires LostName(g, before, after, dir, name, slot)
    ensures KindsKept(before, after, slot) && slot !in after
  {
    hide Child, NameOf, SlotsOf;
  }

  lemma LeadsTables(g: Geometry, d: Disk, fat: seq<byte>, names: seq<string>, id: Option<Slot>)
    requires Leads(g, d, fat, names, id)
    ensures g.perCluster > 0 && IsTable(g, fat)
  {
  }

  ghost function OutlookState(v: FatVolume): State
    reads v
  {
    State(v.g, v.disk, v.fat, AuditDepth(v))
  }

  lemma OutlookSound(v: FatVolume)
    requires v.Consistent()
    ensures Outlook(v).Some? ==> Sound(OutlookState(v), Outlook(v).value)
  {
  }

  /** The canonical path of `input` seen from `base` leads to `id`. */
  ghost predicate Denoted(g: Geometry, d: Disk, fat: seq<byte>, base: string, input: string, id: Option<Slot>) {
    Path.Denotes(base, input).Some? && RawPath(g, d, fat, Path.Denotes(base, input).value, id)
  }

  ghost predicate RawPath(g: Geometry, d: Disk, fat: seq<byte>, names: seq<string>, id: Option<Slot>) {
    g.perCluster > 0 && IsTable(g, fat) && RawWalk(g, d, fat, None, names) == Some(id)
  }

  lemma OnPathEnd(g: Geometry, d: Disk, fat: seq<byte>, stops: seq<Stop>, names: seq<string>)
    requires OnPath(g, d, fat, stops, names)
    ensures |stops| > 0 && RawPath(g, d, fat, names, stops[|stops| - 1].id)
    ensures stops[|stops| - 1].directory ==> Leads(g, d, fat, names, stops[|stops| - 1].id)
  {
    hide RawWalk, RawSlots;
    assert names[..|names|] == names;
  }

  lemma WholePlan(plan: Path.Parsed, base: string, input: string)
    requires Planned(plan, base, input)
    ensures Path.DenotesUpTo(base, input, |plan.input.names|) == Path.Denotes(base, input)
  {
    hide Path.Resolved, Path.Respelled, Path.Tokenize;
    var names := Path.Tokenize(input).value.names;
    assert names[..|names|] == names;
  }

  /** The names to the parent and the last name make up the path. */
  lemma ParentPlan(plan: Path.Parsed, base: string, input: string)
    requires Planned(plan, base, input) && plan.input.names != []
    requires Path.LastName(input) != "." && Path.LastName(input) != ".."
    ensures var before := Path.DenotesUpTo(base, input, |plan.input.names| - 1);
      before.Some? && Path.Denotes(base, input) == Some(before.value + [Path.LastName(input)])
  {
    hide Path.Denotes, Path.DenotesUpTo, Path.LastName, Path.Tokenize;
    Path.DenotesParent(base, input);
  }

  lemma SlashPlan(plan: Path.Parsed, base: string, input: string)
    requires Planned(plan, base, input)
    ensures plan.input.directory == Path.WantsDirectory(input)
  {
    hide Path.Tokenize, Path.Resolved;
  }

  lemma FullLength(base: string, input: string, names: seq<string>)
    requires Path.Denotes(base, input) == Some(names + [Path.LastName(input)])
    ensures |names| < PATH_DEPTH
  {
    hide Path.Denotes, Path.LastName;
    Path.ParseNormalForm(base, input);
  }

  lemma AuditedIs(v: FatVolume)
    requires v.Healthy() && Audited(v.g, v.disk, v.fat, PATH_DEPTH)
    requires Nodes(v.g, v.disk, v.fat, PATH_DEPTH).value == v.Tree()
    ensures Nodes(v.g, v.disk, v.fat, PATH_DEPTH) == Some(v.Tree()) == Nodes(v.g, v.disk, v.fat, v.depth)
  {
  }

  /** A directory made at the end of a path of at most sixteen names leaves a tree that an
      audit of that depth accepts. */
  lemma MadeWithin(u: State, before: map<Slot, Node>, w: State, after: map<Slot, Node>, names: seq<string>,
                   parent: Option<Slot>, name: string, slot: Slot)
    requires Sound(u, before) && u.depth == PATH_DEPTH && Sound(w, after) && w.depth == PATH_DEPTH + 1 && w.g == u.g
    requires Leads(u.g, u.d, u.fat, names, parent) && |names| < PATH_DEPTH
    requires MadeDirectory(u.g, Some(before), after, parent, name, slot)
    ensures Audited(w.g, w.d, w.fat, PATH_DEPTH) && Nodes(w.g, w.d, w.fat, PATH_DEPTH).value == after
  {
    hide Sound, Leads, Shallow, Follow, Audited, Nodes;
    LeadsInTree(u, before, names, parent);
    FollowBelow(u.g, before, None, names);
    AuditedIsShallow(u, before);
    MadeExtends(u.g, before, after, parent, name, slot);
    MadeShallow(u, before, w, after, parent, slot, |names|, PATH_DEPTH);
    ShallowIsAudited(w, after, PATH_DEPTH);
  }

  lemma MadeExtends(g: Geometry, before: map<Slot, Node>, after: map<Slot, Node>, parent: Option<Slot>, name: string,
                    slot: Slot)
    requires MadeDirectory(g, Some(before), after, parent, name, slot)
    ensures Extended(g, before, after, slot) && Parent(g, after, parent, slot) && IsDirId(before, parent)
    ensures forall s :: s in before ==> s in after && after[s].DirNode? == before[s].DirNode?
  {
    hide ScanIn, DirSlots, RootSlots, NameOf;
    assert forall s :: s in before ==> NodeStays(before[s], after[s]);
    forall id | IsDirId(before, id)
      ensures IsDirId(after, id) && SlotsOf(g, before, id) <= SlotsOf(g, after, id)
    {
      if id.Some? { LongerSlots(g, before[id.value].clusters, after[id.value].clusters); }
    }
    var i := ScanHere(after, SlotsOf(g, after, parent), name);
  }

  /** The path without its last name led to `parent`. Now the whole path leads to `slot`; or,
      where `slot` was and is no more, to the next entry of that name, if there is one. */
  ghost predicate Arrived(g: Geometry, d: Disk, fat: seq<byte>, before: map<Slot, Node>, d': Disk, fat': seq<byte>,
                          full: seq<string>, action: Action, parent: Option<Slot>, slot: Slot) {
    && full != [] && Leads(g, d, fat, full[..|full| - 1], parent) && IsTable(g, fat')
    && (action.Unlink? ==> RawPath(g, d, fat, full, Some(slot)))
    && RawWalk(g, d', fat', None, full) ==
         match (if action.Unlink? then Second(g, before, parent, full[|full| - 1]) else Here(slot))
         case Here(s) => Some(Some(s))
         case _ => None
  }

  lemma ArrivedAfter(u: State, before: map<Slot, Node>, w: State, after: map<Slot, Node>, names: seq<string>,
                     name: string, action: Action, parent: Option<Slot>, slot: Slot)
    requires Sound(u, before) && Sound(w, after) && w.g == u.g && Leads(u.g, u.d, u.fat, names, parent)
    requires Performed(u.g, Some(before), after, action, parent, name, slot)
    ensures Arrived(u.g, u.d, u.fat, before, w.d, w.fat, names + [name], action, parent, slot)
  {
    hide Sound, Leads, Child, Second, RawWalk, SameNames, GainedName, SlotsOf, NameOf, RestKept;
    var full := names + [name];
    assert full[..|full| - 1] == names;
    LeadsTables(u.g, u.d, u.fat, names, parent);
    LeadsOn(u, before, names, parent, name);
    match action
    case MakeDir =>
      GainedHere(u.g, before, after, parent, name, slot);
      GainedNameLeads(u, before, w, after, names, parent, parent, name, slot);
      LeadsOn(w, after, names, parent, name);
    case Unlink =>
      LostNameLeads(u, before, w, after, names, parent, parent, name, slot);
      LeadsOn(w, after, names, parent, name);
      var at: nat :| at < |SlotsOf(u.g, before, parent)| && SlotsOf(u.g, before, parent)[at] == slot;
      RemovedUncovers(u, before, parent, at, name);
    case Overwrite(_) =>
      if slot in before {
        SameHere(u, before, after, names, parent, name);
        SameNamesLead(u, before, w, after, names, parent);
      } else {
        GainedHere(u.g, before, after, parent, name, slot);
        GainedNameLeads(u, before, w, after, names, parent, parent, name, slot);
      }
      LeadsOn(w, after, names, parent, name);
  }

  lemma GainedHere(g: Geometry, before: map<Slot, Node>, after: map<Slot, Node>, dir: Option<Slot>, name: string,
                   slot: Slot)
    requires GainedName(g, before, after, dir, name, slot)
    ensures Child(g, after, dir, name) == Here(slot)
  {
  }

  lemma SameHere(u: State, before: map<Slot, Node>, after: map<Slot, Node>, names: seq<string>, dir: Option<Slot>,
                 name: string)
    requires Sound(u, before) && SameNames(u.g, before, after) && Leads(u.g, u.d, u.fat, names, dir)
    ensures Child(u.g, after, dir, name) == Child(u.g, before, dir, name)
  {
    hide Sound, Leads, Child;
    LeadsInTree(u, before, names, dir);
  }

  lemma LastComponent(plan: Path.Parsed, base: string, input: string)
    requires Planned(plan, base, input)
    requires plan.input.names != []
    ensures var name := plan.input.names[|plan.input.names| - 1];
      name == Path.LastName(input) && (name == "." || name == ".." || Path.Canonical(name))
  {
    hide Path.Resolved, Path.Render;
    var b, t := Path.Tokenize(base).value, Path.Tokenize(input).value;
    Path.ResolvedSpelled(if t.absolute then [] else Path.Resolved([], b.names).value, t.names);
    assert Path.Component(plan.input.names[|plan.input.names| - 1]);
  }

  lemma EmptyIsNormal()
    ensures Path.NormalForm([])
  {
  }
}
