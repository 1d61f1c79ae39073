/** What a power loss may leave after any number of calls since the volume was mounted. */
module History {
  import opened Disk
  import opened Layout
  import opened Tree
  import opened Commit
  import opened Crash

  /** What one call issued and the trees its crash states may show, the tree it
      started from first. */
  datatype Call = Call(run: seq<Event>, depth: nat, views: seq<map<Slot, Node>>)

  /** If the two copies of the table agree, they show one of the trees. */
  ghost predicate Recovers(g: Geometry, d: Disk, depth: nat, views: seq<map<Slot, Node>>)
    requires g.Valid()
  {
    DiskTable(g, d, 0) == DiskTable(g, d, 1) ==> exists i :: 0 <= i < |views| && Shows(g, d, depth, views[i])
  }

  ghost predicate Recoverable(g: Geometry, d0: Disk, run: seq<Event>, depth: nat, views: seq<map<Slot, Node>>)
    requires g.Valid()
  {
    forall n: nat, d: Disk {:trigger CrashState(d0, run[..n], d)} :: n <= |run| && CrashState(d0, run[..n], d) ==>
      Recovers(g, d, depth, views)
  }

  /** A call that starts from its first tree and leaves one of its trees at every crash. */
  ghost predicate Survives(g: Geometry, d0: Disk, c: Call) {
    && g.Valid() && c.views != [] && Shows(g, d0, c.depth, c.views[0])
    && Recoverable(g, d0, c.run, c.depth, c.views)
  }

  /** Everything the calls issued, in order. */
  function Issue(calls: seq<Call>): seq<Event> {
    if calls == [] then [] else Issue(calls[..|calls| - 1]) + calls[|calls| - 1].run
  }

  /** Each call started when everything before it was durable. */
  ghost predicate Recorded(g: Geometry, d0: Disk, calls: seq<Call>) {
    forall i :: 0 <= i < |calls| ==> Began(g, d0, calls, i)
  }

  ghost predicate Began(g: Geometry, d0: Disk, calls: seq<Call>, i: nat)
    requires i < |calls|
  {
    var before := Issue(calls[..i]);
    Settled(before) && Survives(g, Apply(d0, before), calls[i])
  }

  /** One more call from a settled device. */
  lemma OneMore(g: Geometry, d0: Disk, calls: seq<Call>, c: Call)
    requires Recorded(g, d0, calls) && Settled(Issue(calls)) && Survives(g, Apply(d0, Issue(calls)), c)
    ensures Recorded(g, d0, calls + [c]) && Issue(calls + [c]) == Issue(calls) + c.run
  {
    hide Survives, Apply, Settled;
    var all := calls + [c];
    assert all[..|calls|] == calls;
    forall i | 0 <= i < |all|
      ensures Began(g, d0, all, i)
    {
      if i < |calls| {
        assert all[..i] == calls[..i];
        assert Began(g, d0, calls, i);
      }
    }
  }

  /** Behind a flush the past does not matter. */
  lemma {:induction false} CrashSplit(d0: Disk, settled: seq<Event>, run: seq<Event>)
    requires Settled(settled)
    ensures Durable(d0, settled + run) == Durable(Apply(d0, settled), run)
    ensures Pending(settled + run) == Pending(run)
    decreases |run|
  {
    if run == [] {
      assert settled + run == settled;
    } else {
      var shorter := run[..|run| - 1];
      assert (settled + run)[..|settled + run| - 1] == settled + shorter;
      if run[|run| - 1].Flush? {
        ApplyConcat(d0, settled, run);
      } else {
        CrashSplit(d0, settled, shorter);
      }
    }
  }

  /** Every event belongs to one call. */
  lemma {:induction false} InSomeCall(calls: seq<Call>, n: nat) returns (i: nat)
    requires calls != [] && n <= |Issue(calls)|
    ensures i < |calls| && |Issue(calls[..i])| <= n <= |Issue(calls[..i])| + |calls[i].run|
    ensures Issue(calls)[..n] == Issue(calls[..i]) + calls[i].run[..n - |Issue(calls[..i])|]
    decreases |calls|
  {
    var front, last := calls[..|calls| - 1], calls[|calls| - 1];
    if front == [] || |Issue(front)| <= n {
      i := |calls| - 1;
    } else {
      i := InSomeCall(front, n);
      assert front[..i] == calls[..i];
    }
  }

  /** A power loss at any moment: the volume, if its copies agree, shows the outcome of
      all completed calls or a tree of the call in progress. */
  lemma CrashAnyTime(g: Geometry, d0: Disk, calls: seq<Call>, n: nat, d: Disk) returns (i: nat)
    requires Recorded(g, d0, calls) && calls != [] && n <= |Issue(calls)| && CrashState(d0, Issue(calls)[..n], d)
    ensures i < |calls| && |Issue(calls[..i])| <= n <= |Issue(calls[..i])| + |calls[i].run|
    ensures Survives(g, Apply(d0, Issue(calls[..i])), calls[i]) && Recovers(g, d, calls[i].depth, calls[i].views)
  {
    hide Shows, Recovers, Apply, Issue, Between, Durable, Pending, Settled, Recoverable;
    i := InSomeCall(calls, n);
    assert Began(g, d0, calls, i);
    var before := Issue(calls[..i]);
    CrashSplit(d0, before, calls[i].run[..n - |before|]);
    CrashInCall(g, Apply(d0, before), calls[i], n - |before|, d);
  }

  lemma CrashInCall(g: Geometry, d0: Disk, c: Call, n: nat, d: Disk)
    requires Survives(g, d0, c) && n <= |c.run| && CrashState(d0, c.run[..n], d)
    ensures Recovers(g, d, c.depth, c.views)
  {
    hide Shows, Recovers, CrashState;
  }
}
