/** The allocation table: cluster chains, first-fit allocation and release. */
module Fat {
  import opened Common
  import opened Disk
  import opened Errors
  import opened Layout

  const FIRST_RESERVED := 0xfff0
  const FIRST_END := 0xfff8
  const END_MARK := 0xffff

  predicate ValidCluster(g: Geometry, c: int) {
    2 <= c < FIRST_RESERVED && c <= g.clusters + 1
  }

  /** A table image with an entry for every cluster of the volume. */
  predicate IsTable(g: Geometry, fat: seq<byte>) {
    |fat| == g.fatSectors * SECTOR && (g.clusters + 2) * 2 <= |fat|
  }

  function Next(g: Geometry, fat: seq<byte>, c: nat): (n: nat)
    requires IsTable(g, fat) && ValidCluster(g, c)
    ensures n < 0x1_0000
  {
    U16(fat, 2 * c)
  }

  function Link(g: Geometry, fat: seq<byte>, c: nat, n: nat): (r: seq<byte>)
    requires IsTable(g, fat) && ValidCluster(g, c) && n < 0x1_0000
    ensures IsTable(g, r) && Next(g, r, c) == n
    ensures forall x :: ValidCluster(g, x) && x != c ==> Next(g, r, x) == Next(g, fat, x)
    ensures forall j :: 0 <= j < |fat| && j / 2 != c ==> r[j] == fat[j]
  {
    Put16(fat, 2 * c, n)
  }

  predicate NoDuplicates(s: seq<nat>) {
    forall i, j :: 0 <= i < j < |s| ==> s[i] != s[j]
  }

  /** Only the entries of `changed` may differ. */
  predicate SameExcept(fat: seq<byte>, fat': seq<byte>, changed: seq<nat>) {
    |fat| == |fat'| && forall j :: 0 <= j < |fat| && j / 2 !in changed ==> fat[j] == fat'[j]
  }

  lemma NextUnchanged(g: Geometry, fat: seq<byte>, fat': seq<byte>, changed: seq<nat>, c: nat)
    requires IsTable(g, fat) && SameExcept(fat, fat', changed) && ValidCluster(g, c) && c !in changed
    ensures IsTable(g, fat') && Next(g, fat', c) == Next(g, fat, c)
  {
    assert (2 * c) / 2 == c && (2 * c + 1) / 2 == c;
  }

  // ----- Chains -------------------------------------------------------------

  /** `ch` is the complete chain starting at `first`: valid, acyclic, linked in
      order and terminated. */
  predicate IsChain(g: Geometry, fat: seq<byte>, first: nat, ch: seq<nat>)
    requires IsTable(g, fat)
  {
    && |ch| > 0 && ch[0] == first
    && (forall i :: 0 <= i < |ch| ==> ValidCluster(g, ch[i]))
    && (forall i :: 0 <= i < |ch| - 1 ==> Next(g, fat, ch[i]) == ch[i + 1])
    && Next(g, fat, ch[|ch| - 1]) >= FIRST_END
    && NoDuplicates(ch)
  }

  function Walk(g: Geometry, fat: seq<byte>, c: nat, fuel: nat): Option<seq<nat>>
    requires IsTable(g, fat)
    decreases fuel
  {
    if fuel == 0 || !ValidCluster(g, c) then None
    else if Next(g, fat, c) >= FIRST_END then Some([c])
    else match Walk(g, fat, Next(g, fat, c), fuel - 1)
      case None => None
      case Some(rest) => Some([c] + rest)
  }

  /** The chain a directory entry's first cluster names, if it is well formed. */
  function Chain(g: Geometry, fat: seq<byte>, first: nat): Option<seq<nat>>
    requires IsTable(g, fat)
  {
    Walk(g, fat, first, g.clusters)
  }

  lemma {:induction false} WalkLinks(g: Geometry, fat: seq<byte>, c: nat, fuel: nat)
    requires IsTable(g, fat) && Walk(g, fat, c, fuel).Some?
    ensures var ch := Walk(g, fat, c, fuel).value;
      && |ch| > 0 && ch[0] == c
      && (forall i :: 0 <= i < |ch| ==> ValidCluster(g, ch[i]))
      && (forall i :: 0 <= i < |ch| - 1 ==> Next(g, fat, ch[i]) == ch[i + 1])
      && Next(g, fat, ch[|ch| - 1]) >= FIRST_END
    decreases fuel
  {
    if Next(g, fat, c) < FIRST_END {
      WalkLinks(g, fat, Next(g, fat, c), fuel - 1);
      var rest := Walk(g, fat, Next(g, fat, c), fuel - 1).value;
      var ch := [c] + rest;
      forall i | 0 <= i < |ch| - 1
        ensures Next(g, fat, ch[i]) == ch[i + 1]
      {
        if i > 0 { assert ch[i] == rest[i - 1] && ch[i + 1] == rest[i]; }
      }
    }
  }

  /** A walk that revisited a cluster would repeat for ever and never end. */
  lemma {:induction false} RepeatsForever(g: Geometry, fat: seq<byte>, ch: seq<nat>, i: nat, j: nat, t: nat)
    requires IsTable(g, fat)
    requires forall k :: 0 <= k < |ch| ==> ValidCluster(g, ch[k])
    requires forall k :: 0 <= k < |ch| - 1 ==> Next(g, fat, ch[k]) == ch[k + 1]
    requires i < j < |ch| && ch[i] == ch[j] && j + t < |ch|
    ensures ch[i + t] == ch[j + t]
    decreases t
  {
    if t > 0 {
      RepeatsForever(g, fat, ch, i, j, t - 1);
      assert Next(g, fat, ch[i + t - 1]) == ch[i + t];
      assert Next(g, fat, ch[j + t - 1]) == ch[j + t];
    }
  }

  lemma ChainIsChain(g: Geometry, fat: seq<byte>, first: nat)
    requires IsTable(g, fat) && Chain(g, fat, first).Some?
    ensures IsChain(g, fat, first, Chain(g, fat, first).value)
  {
    WalkLinks(g, fat, first, g.clusters);
    var ch := Chain(g, fat, first).value;
    forall i, j | 0 <= i < j < |ch|
      ensures ch[i] != ch[j]
    {
      if ch[i] == ch[j] {
        var k := i + |ch| - 1 - j;
        assert Next(g, fat, ch[k]) == ch[k + 1];
        RepeatsForever(g, fat, ch, i, j, |ch| - 1 - j);
      }
    }
  }

  lemma {:induction false} WalkFollows(g: Geometry, fat: seq<byte>, ch: seq<nat>, fuel: nat)
    requires IsTable(g, fat) && 0 < |ch| <= fuel
    requires forall k :: 0 <= k < |ch| ==> ValidCluster(g, ch[k])
    requires forall k :: 0 <= k < |ch| - 1 ==> Next(g, fat, ch[k]) == ch[k + 1]
    requires Next(g, fat, ch[|ch| - 1]) >= FIRST_END
    ensures Walk(g, fat, ch[0], fuel) == Some(ch)
    decreases |ch|
  {
    if |ch| > 1 {
      var rest := ch[1..];
      assert Next(g, fat, ch[0]) == ch[1];
      forall k | 0 <= k < |rest| - 1
        ensures Next(g, fat, rest[k]) == rest[k + 1]
      {
        assert rest[k] == ch[k + 1] && rest[k + 1] == ch[k + 2];
      }
      WalkFollows(g, fat, rest, fuel - 1);
      assert ch == [ch[0]] + rest;
    } else {
      assert ch == [ch[0]];
    }
  }

  /** Distinct numbers in [2, n + 2) number at most n. */
  lemma {:induction false} Pigeonhole(s: seq<nat>, n: nat)
    requires NoDuplicates(s) && forall i :: 0 <= i < |s| ==> 2 <= s[i] < n + 2
    ensures |s| <= n
    decreases n
  {
    assert s == [] || 2 <= s[0] < n + 2;
    if n > 0 && n + 1 in s {
      var k :| 0 <= k < |s| && s[k] == n + 1;
      Pigeonhole(s[..k] + s[k + 1..], n - 1);
    } else if n > 0 {
      assert forall i :: 0 <= i < |s| ==> s[i] != n + 1;
      Pigeonhole(s, n - 1);
    }
  }

  /** The bounded walk finds exactly the well-formed chains. */
  lemma ChainExactly(g: Geometry, fat: seq<byte>, first: nat, ch: seq<nat>)
    requires IsTable(g, fat)
    ensures Chain(g, fat, first) == Some(ch) <==> IsChain(g, fat, first, ch)
  {
    if Chain(g, fat, first) == Some(ch) { ChainIsChain(g, fat, first); }
    if IsChain(g, fat, first, ch) {
      Pigeonhole(ch, g.clusters);
      WalkFollows(g, fat, ch, g.clusters);
    }
  }

  /** A chain survives any change of the table outside it. */
  lemma ChainFrame(g: Geometry, fat: seq<byte>, fat': seq<byte>, first: nat, ch: seq<nat>)
    requires IsTable(g, fat) && IsTable(g, fat') && Chain(g, fat, first) == Some(ch)
    requires forall c :: c in ch && ValidCluster(g, c) ==> Next(g, fat', c) == Next(g, fat, c)
    ensures Chain(g, fat', first) == Some(ch)
  {
    ChainExactly(g, fat, first, ch);
    assert IsChain(g, fat', first, ch);
    ChainExactly(g, fat', first, ch);
  }

  /** No cluster of a chain is free. */
  lemma ChainNotFree(g: Geometry, fat: seq<byte>, first: nat, ch: seq<nat>, c: nat)
    requires IsTable(g, fat) && Chain(g, fat, first) == Some(ch) && c in ch
    ensures ValidCluster(g, c) && Next(g, fat, c) != 0
  {
    ChainExactly(g, fat, first, ch);
    var i :| 0 <= i < |ch| && ch[i] == c;
    if i < |ch| - 1 { assert Next(g, fat, ch[i]) == ch[i + 1]; }
  }

  /** Clusters `walked` lead from `first` to `c` along the table. */
  predicate Walked(g: Geometry, fat: seq<byte>, first: nat, walked: seq<nat>, c: nat)
    requires IsTable(g, fat)
  {
    && first == (walked + [c])[0]
    && (forall i :: 0 <= i < |walked| ==> ValidCluster(g, walked[i]))
    && (forall i :: 0 <= i < |walked| - 1 ==> Next(g, fat, walked[i]) == walked[i + 1])
    && (walked != [] ==> Next(g, fat, walked[|walked| - 1]) == c)
    && (forall i :: 0 <= i < |walked| ==> Next(g, fat, walked[i]) < FIRST_END)
    && NoDuplicates(walked)
  }

  /** Clusters walked so far agree with the chain, if there is one. */
  lemma {:induction false} WalkedIsPrefix(g: Geometry, fat: seq<byte>, first: nat, walked: seq<nat>, c: nat,
                                          ch: seq<nat>)
    requires IsTable(g, fat) && Walked(g, fat, first, walked, c) && IsChain(g, fat, first, ch)
    ensures |walked| < |ch| && ch[..|walked|] == walked && ch[|walked|] == c
    decreases |walked|
  {
    if walked != [] {
      var n := |walked| - 1;
      WalkedIsPrefix(g, fat, first, walked[..n], walked[n], ch);
      assert ch[n] == walked[n];
      if n + 1 < |ch| { assert Next(g, fat, ch[n]) == ch[n + 1]; }
    }
  }

  /** A dead end, a revisited cluster or an over-long walk means there is no chain. */
  lemma StuckMeansNoChain(g: Geometry, fat: seq<byte>, first: nat, walked: seq<nat>, c: nat)
    requires IsTable(g, fat) && Walked(g, fat, first, walked, c)
    requires !ValidCluster(g, c) || c in walked || |walked| >= g.clusters
    ensures Chain(g, fat, first) == None
  {
    var outcome := Chain(g, fat, first);
    if outcome.Some? {
      var ch := outcome.value;
      ChainExactly(g, fat, first, ch);
      WalkedIsPrefix(g, fat, first, walked, c, ch);
      Pigeonhole(ch, g.clusters);
    }
  }

  /** Validate a whole chain against the cached table, as every lookup does. */
  method FollowChain(g: Geometry, fat: seq<byte>, first: nat) returns (r: Result<nat>)
    requires IsTable(g, fat)
    ensures r.Failure? ==> r.error == IoError && Chain(g, fat, first) == None
    ensures r.Success? ==> Chain(g, fat, first).Some? && r.value == |Chain(g, fat, first).value|
  {
    var visited: set<nat> := {};
    var cluster: nat := first;
    var count := 1;
    ghost var walked: seq<nat> := [];
    while count <= g.clusters
      invariant 1 <= count <= g.clusters + 1 && |walked| == count - 1
      invariant Walked(g, fat, first, walked, cluster)
      invariant forall c :: c in visited <==> c in walked
    {
      if !ValidCluster(g, cluster) {
        StuckMeansNoChain(g, fat, first, walked, cluster);
        return Failure(IoError);
      }
      if cluster in visited {
        StuckMeansNoChain(g, fat, first, walked, cluster);
        return Failure(IoError);
      }
      visited := visited + {cluster};
      var next := Next(g, fat, cluster);
      ghost var longer := walked + [cluster];
      if next >= FIRST_END {
        assert IsChain(g, fat, first, longer);
        ChainExactly(g, fat, first, longer);
        return Success(count);
      }
      assert Walked(g, fat, first, longer, next);
      if !ValidCluster(g, next) {
        StuckMeansNoChain(g, fat, first, longer, next);
        return Failure(IoError);
      }
      walked := longer;
      cluster := next;
      count := count + 1;
    }
    StuckMeansNoChain(g, fat, first, walked, cluster);
    return Failure(IoError);
  }

  // ----- Allocation and release ---------------------------------------------

  predicate IsFree(g: Geometry, fat: seq<byte>, c: int)
    requires IsTable(g, fat)
  {
    ValidCluster(g, c) && Next(g, fat, c) == 0
  }

  /** How many clusters numbered below `limit` are free. */
  function FreeBelow(g: Geometry, fat: seq<byte>, limit: nat): nat
    requires IsTable(g, fat)
  {
    if limit <= 2 then 0
    else FreeBelow(g, fat, limit - 1) + if IsFree(g, fat, limit - 1) then 1 else 0
  }

  function FreeClusters(g: Geometry, fat: seq<byte>): nat
    requires IsTable(g, fat)
  {
    FreeBelow(g, fat, g.clusters + 2)
  }

  lemma {:induction false} FreeBelowMonotone(g: Geometry, fat: seq<byte>, a: nat, b: nat)
    requires IsTable(g, fat) && a <= b
    ensures FreeBelow(g, fat, a) <= FreeBelow(g, fat, b)
    decreases b
  {
    if a < b { FreeBelowMonotone(g, fat, a, b - 1); }
  }

  /** `fat'` is `fat` with the free clusters `ch` linked into one ended chain. */
  predicate Allocated(g: Geometry, fat: seq<byte>, ch: seq<nat>, fat': seq<byte>)
    requires IsTable(g, fat)
  {
    && IsTable(g, fat')
    && SameExcept(fat, fat', ch)
    && NoDuplicates(ch)
    && (forall i :: 0 <= i < |ch| ==> IsFree(g, fat, ch[i]))
    && (forall i :: 0 <= i < |ch| - 1 ==> Next(g, fat', ch[i]) == ch[i + 1])
    && (|ch| > 0 ==> Next(g, fat', ch[|ch| - 1]) == END_MARK)
  }

  lemma AllocatedIsChain(g: Geometry, fat: seq<byte>, ch: seq<nat>, fat': seq<byte>)
    requires IsTable(g, fat) && Allocated(g, fat, ch, fat') && |ch| > 0
    ensures Chain(g, fat', ch[0]) == Some(ch)
  {
    ChainExactly(g, fat', ch[0], ch);
  }

  /** One step of the scan: hang the free cluster `c` on the end of the new chain. */
  method HangOn(g: Geometry, ghost fat: seq<byte>, ghost ch: seq<nat>, fat': seq<byte>, last: nat, c: nat)
    returns (r: seq<byte>)
    requires IsTable(g, fat) && Allocated(g, fat, ch, fat') && IsFree(g, fat, c) && c !in ch
    requires last == if ch == [] then 0 else ch[|ch| - 1]
    ensures Allocated(g, fat, ch + [c], r)
  {
    hide Next, SameExcept, Link;
    r := fat';
    if last != 0 { r := Link(g, r, last, c); }
    r := Link(g, r, c, END_MARK);
    HungLinks(g, fat, ch, fat', c, r);
    HungBytes(g, fat, ch, fat', c, r);
  }

  /** The table with `c` hung on the end of `ch`. */
  function HungTable(g: Geometry, ch: seq<nat>, fat': seq<byte>, c: nat): seq<byte>
    requires IsTable(g, fat') && ValidCluster(g, c) && c < 0x1_0000 && (ch != [] ==> ValidCluster(g, ch[|ch| - 1]))
  {
    Link(g, if ch == [] then fat' else Link(g, fat', ch[|ch| - 1], c), c, END_MARK)
  }

  lemma HungLinks(g: Geometry, fat: seq<byte>, ch: seq<nat>, fat': seq<byte>, c: nat, r: seq<byte>)
    requires IsTable(g, fat) && Allocated(g, fat, ch, fat') && IsFree(g, fat, c) && c !in ch && c < 0x1_0000
    requires r == HungTable(g, ch, fat', c)
    ensures IsTable(g, r) && Next(g, r, c) == END_MARK && forall i :: 0 <= i < |ch| ==>
      Next(g, r, (ch + [c])[i]) == (ch + [c])[i + 1]
  {
    hide Next, SameExcept;
    forall i | 0 <= i < |ch|
      ensures Next(g, r, (ch + [c])[i]) == (ch + [c])[i + 1]
    {
      assert (ch + [c])[i] == ch[i] != c;
      if i < |ch| - 1 { assert ch[i] != ch[|ch| - 1] && (ch + [c])[i + 1] == ch[i + 1]; }
    }
  }

  lemma HungBytes(g: Geometry, fat: seq<byte>, ch: seq<nat>, fat': seq<byte>, c: nat, r: seq<byte>)
    requires IsTable(g, fat) && Allocated(g, fat, ch, fat') && IsFree(g, fat, c) && c < 0x1_0000
    requires r == HungTable(g, ch, fat', c)
    ensures SameExcept(fat, r, ch + [c])
  {
    hide Next, NoDuplicates;
    forall j | 0 <= j < |fat| && j / 2 !in ch + [c]
      ensures r[j] == fat[j]
    {
      assert c in ch + [c] && j / 2 !in ch;
      if ch != [] { assert ch[|ch| - 1] in ch; }
    }
  }

  /** `ch` lists the free clusters below `limit` in ascending order. */
  predicate TakesAllBelow(g: Geometry, fat: seq<byte>, ch: seq<nat>, limit: nat)
    requires IsTable(g, fat)
  {
    && (forall i :: 0 <= i < |ch| ==> ch[i] < limit && IsFree(g, fat, ch[i]))
    && (forall i, j :: 0 <= i < j < |ch| ==> ch[i] < ch[j])
    && (forall c :: 2 <= c < limit && IsFree(g, fat, c) ==> c in ch)
  }

  lemma FreeUnchanged(g: Geometry, fat: seq<byte>, ch: seq<nat>, fat': seq<byte>, c: nat)
    requires IsTable(g, fat) && Allocated(g, fat, ch, fat') && TakesAllBelow(g, fat, ch, c)
    ensures c !in ch && IsTable(g, fat') && IsFree(g, fat', c) == IsFree(g, fat, c)
  {
    if ValidCluster(g, c) { NextUnchanged(g, fat, fat', ch, c); }
  }

  lemma TakesAllStep(g: Geometry, fat: seq<byte>, ch: seq<nat>, c: nat)
    requires IsTable(g, fat) && TakesAllBelow(g, fat, ch, c)
    ensures TakesAllBelow(g, fat, if IsFree(g, fat, c) then ch + [c] else ch, c + 1)
  {
    if IsFree(g, fat, c) {
      var longer := ch + [c];
      forall x | 2 <= x < c + 1 && IsFree(g, fat, x)
        ensures x in longer
      {
        if x < c { assert x in ch; }
      }
    }
  }

  lemma {:induction false} TakesAllCounts(g: Geometry, fat: seq<byte>, ch: seq<nat>, limit: nat)
    requires IsTable(g, fat) && TakesAllBelow(g, fat, ch, limit)
    ensures FreeBelow(g, fat, limit) == |ch|
    decreases limit
  {
    assert ch == [] || ch[0] < limit;
    if limit <= 2 {
    } else if IsFree(g, fat, limit - 1) {
      var k :| 0 <= k < |ch| && ch[k] == limit - 1;
      var front := ch[..|ch| - 1];
      var last := ch[|ch| - 1];
      assert k == |ch| - 1 || limit - 1 < last;
      forall c | 2 <= c < limit - 1 && IsFree(g, fat, c)
        ensures c in front
      {
        var i :| 0 <= i < |ch| && ch[i] == c;
        assert front[i] == c;
      }
      TakesAllCounts(g, fat, front, limit - 1);
    } else {
      TakesAllCounts(g, fat, ch, limit - 1);
    }
  }

  /** A scan that took every free cluster it passed decides whether there are enough. */
  lemma ScanDecides(g: Geometry, fat: seq<byte>, ch: seq<nat>, cluster: nat, done: bool, count: nat)
    requires IsTable(g, fat) && TakesAllBelow(g, fat, ch, cluster) && cluster <= g.clusters + 2
    requires if done then |ch| == count else |ch| < count && cluster == g.clusters + 2
    ensures done <==> count <= FreeClusters(g, fat)
  {
    TakesAllCounts(g, fat, ch, cluster);
    FreeBelowMonotone(g, fat, cluster, g.clusters + 2);
  }

  /** First fit. Fails exactly when too few clusters are free. */
  method Allocate(g: Geometry, fat: seq<byte>, count: nat)
    returns (error: FsError, fat': seq<byte>, first: nat, ghost ch: seq<nat>)
    requires IsTable(g, fat)
    ensures error == if count <= FreeClusters(g, fat) then Ok else NoSpace
    ensures error == Ok ==> Allocated(g, fat, ch, fat') && |ch| == count
    ensures error == Ok ==> first == if count == 0 then 0 else ch[0]
  {
    hide Allocated, TakesAllBelow, Next;
    fat', first, ch := fat, 0, [];
    NothingAllocated(g, fat);
    var last: nat := 0;
    var left := count;
    var cluster: nat := 2;
    while cluster <= g.clusters + 1 && left != 0
      invariant 2 <= cluster <= g.clusters + 2 && 0 <= left && left + |ch| == count
      invariant Allocated(g, fat, ch, fat')
      invariant TakesAllBelow(g, fat, ch, cluster)
      invariant last == if ch == [] then 0 else ch[|ch| - 1]
      invariant ch == [] ==> first == 0
      invariant ch != [] ==> first == ch[0] && last >= 2
      decreases g.clusters + 2 - cluster
    {
      FreeUnchanged(g, fat, ch, fat', cluster);
      TakesAllStep(g, fat, ch, cluster);
      if IsFree(g, fat', cluster) {
        fat' := HangOn(g, fat, ch, fat', last, cluster);
        first := if last == 0 then cluster else first;
        last, left, ch := cluster, left - 1, ch + [cluster];
      }
      cluster := cluster + 1;
    }
    ScanDecides(g, fat, ch, cluster, left == 0, count);
    error := if left == 0 then Ok else NoSpace;
  }

  lemma NothingAllocated(g: Geometry, fat: seq<byte>)
    requires IsTable(g, fat)
    ensures Allocated(g, fat, [], fat) && TakesAllBelow(g, fat, [], 2)
  {
  }

  /** `fat'` is `fat` with every cluster of `ch` marked free. */
  predicate Freed(g: Geometry, fat: seq<byte>, ch: seq<nat>, fat': seq<byte>)
    requires IsTable(g, fat)
  {
    && IsTable(g, fat')
    && SameExcept(fat, fat', ch)
    && forall c :: c in ch ==> IsFree(g, fat', c)
  }

  /** The table with the clusters of `ch` released one after another. */
  function Release(g: Geometry, fat: seq<byte>, ch: seq<nat>): (r: seq<byte>)
    requires IsTable(g, fat) && forall c :: c in ch ==> ValidCluster(g, c)
    ensures IsTable(g, r)
    decreases |ch|
  {
    if ch == [] then fat
    else Link(g, Release(g, fat, ch[..|ch| - 1]), ch[|ch| - 1], 0)
  }

  lemma {:induction false} ReleaseFrees(g: Geometry, fat: seq<byte>, ch: seq<nat>)
    requires IsTable(g, fat) && forall c :: c in ch ==> ValidCluster(g, c)
    ensures Freed(g, fat, ch, Release(g, fat, ch))
    decreases |ch|
  {
    if ch != [] {
      var front, last := ch[..|ch| - 1], ch[|ch| - 1];
      ReleaseFrees(g, fat, front);
      assert ch == front + [last];
      var before := Release(g, fat, front);
      var r := Release(g, fat, ch);
      forall j | 0 <= j < |fat| && j / 2 !in ch
        ensures r[j] == fat[j]
      {
        assert j / 2 !in front && j / 2 != last;
      }
    }
  }

  /** Release the chain recorded in the cached table. `length` is zero for a file
      that has no clusters. */
  method FreeChain(g: Geometry, cached: seq<byte>, fat: seq<byte>, first: nat, length: nat, ghost ch: seq<nat>)
    returns (fat': seq<byte>)
    requires IsTable(g, cached) && IsTable(g, fat) && length == |ch|
    requires ch != [] ==> Chain(g, cached, first) == Some(ch)
    ensures forall c :: c in ch ==> ValidCluster(g, c)
    ensures fat' == Release(g, fat, ch)
  {
    hide Chain;
    fat' := fat;
    var cluster := first;
    if ch != [] { ChainExactly(g, cached, first, ch); }
    for i := 0 to length
      invariant i < length ==> cluster == ch[i]
      invariant fat' == Release(g, fat, ch[..i])
    {
      assert ch[..i + 1][..i] == ch[..i];
      var next := Next(g, cached, cluster);
      fat' := Link(g, fat', cluster, 0);
      cluster := next;
    }
    assert ch[..length] == ch;
  }
}
