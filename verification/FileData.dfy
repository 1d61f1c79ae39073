/** File contents laid out over a chain of clusters. */
module FileData {
  import opened Common
  import opened Disk
  import opened Fat
  import opened Layout
  import opened Tree

  /** The contents after a write or resize: the patch over the kept bytes, zeros
      elsewhere. */
  function NewContent(old': seq<byte>, size: nat, offset: nat, patch: seq<byte>): (r: seq<byte>)
    ensures |r| == size
  {
    seq(size, j requires 0 <= j < size =>
      if offset <= j < offset + |patch| then patch[j - offset]
      else if j < |old'| then old'[j] else 0)
  }

  /** Sector `t` of the contents, padded with zeros. */
  function Padded(content: seq<byte>, t: nat): Sector {
    seq(SECTOR, b requires 0 <= b < SECTOR => if SECTOR * t + b < |content| then content[SECTOR * t + b] else 0)
  }

  function DataWrites(sectors: seq<Addr>, content: seq<byte>): (r: seq<Event>)
    ensures |r| == |sectors|
  {
    seq(|sectors|, t requires 0 <= t < |sectors| => Write(sectors[t], Padded(content, t)))
  }

  predicate Distinct(sectors: seq<Addr>) {
    forall i, j :: 0 <= i < j < |sectors| ==> sectors[i] != sectors[j]
  }

  /** What was written is read back, for every size that fits. */
  lemma WrittenIsRead(d: Disk, sectors: seq<Addr>, content: seq<byte>)
    requires Distinct(sectors) && |content| <= SECTOR * |sectors|
    ensures Content(Apply(d, DataWrites(sectors, content)), sectors, |content|) == content
  {
    var writes := DataWrites(sectors, content);
    var after := Apply(d, writes);
    forall j | 0 <= j < |content|
      ensures Content(after, sectors, |content|)[j] == content[j]
    {
      var t := j / SECTOR;
      ApplyOnce(d, writes, t);
      assert writes[t] == Write(sectors[t], Padded(content, t));
    }
  }

  // ----- Chain arithmetic ------------------------------------------------------------------

  lemma {:induction false} ChainSectorsAt(g: Geometry, ch: seq<nat>, q: nat, r: nat)
    requires q < |ch| && r < g.perCluster
    ensures 0 <= q * g.perCluster + r < |ChainSectors(g, ch)|
    ensures ChainSectors(g, ch)[q * g.perCluster + r] == Data(ch[q], r)
    decreases |ch|
  {
    var front := ch[..|ch| - 1];
    ChainSectorsLength(g, front);
    if q < |front| {
      ChainSectorsAt(g, front, q, r);
    } else {
      assert |ChainSectors(g, front)| == q * g.perCluster;
    }
  }

  /** `Needed` is the least number of clusters that hold `size` bytes. */
  lemma NeededExactly(g: Geometry, size: nat, n: nat)
    requires g.perCluster > 0
    ensures n < Needed(g, size) <==> n * ClusterBytes(g) < size
  {
    var cb := ClusterBytes(g);
    var k := Needed(g, size);
    DivisionBounds(size + cb - 1, cb);
    assert k * cb <= size + cb - 1 < (k + 1) * cb;
    if n < k {
      MulMonotone(n + 1, k, cb);
      assert (n + 1) * cb == n * cb + cb;
    } else {
      MulMonotone(k, n, cb);
      assert (k + 1) * cb == k * cb + cb;
    }
  }

  lemma NeededFits(g: Geometry, size: nat, ch: seq<nat>)
    requires g.perCluster > 0 && |ch| == Needed(g, size)
    ensures size <= SECTOR * |ChainSectors(g, ch)|
  {
    NeededExactly(g, size, |ch|);
    ChainSectorsLength(g, ch);
    assert |ch| * ClusterBytes(g) == SECTOR * (|ch| * g.perCluster);
  }

  // ----- Filling one sector -------------------------------------------------------------------

  function Min(a: int, b: int): int { if a < b then a else b }
  function Max(a: int, b: int): int { if a < b then b else a }

  /** The sector buffer: kept bytes first, then the part of the patch that falls here. */
  function Fill(kept: seq<byte>, base: nat, size: nat, offset: nat, patch: seq<byte>): Sector {
    var start := Max(base, offset);
    var end := Min(Min(base + SECTOR, offset + |patch|), size);
    seq(SECTOR, b requires 0 <= b < SECTOR =>
      if start <= base + b < end then patch[base + b - offset]
      else if b < |kept| then kept[b] else 0)
  }

  /** How many old bytes survive in the sector at `base`. */
  function Kept(keep: bool, base: nat, size: nat, oldSize: nat): nat {
    if keep && base < size && base < oldSize then Min(Min(oldSize - base, SECTOR), size - base) else 0
  }

  lemma FillIsPadded(kept: seq<byte>, t: nat, size: nat, offset: nat, patch: seq<byte>, keep: bool, old': seq<byte>)
    requires |kept| == Kept(keep, SECTOR * t, size, |old'|)
    requires forall b :: 0 <= b < |kept| ==> kept[b] == old'[SECTOR * t + b]
    ensures Fill(kept, SECTOR * t, size, offset, patch) ==
      Padded(NewContent(if keep then old' else [], size, offset, patch), t)
  {
  }

  // ----- Reading positions ---------------------------------------------------------------------

  lemma BytesOfClusters(g: Geometry, index: nat)
    ensures index * ClusterBytes(g) == SECTOR * (index * g.perCluster)
  {
  }

  /** The part of a file a read may return. */
  function Slice(content: seq<byte>, offset: nat, bytes: nat): seq<byte> {
    if offset >= |content| then [] else content[offset..offset + Min(bytes, |content| - offset)]
  }

  lemma NoSuchChain(g: Geometry, fat: seq<byte>, first: nat, required: nat)
    requires IsTable(g, fat) && required > g.clusters
    ensures Chain(g, fat, first).Some? ==> |Chain(g, fat, first).value| != required
  {
    if Chain(g, fat, first).Some? {
      ChainIsChain(g, fat, first);
      Pigeonhole(Chain(g, fat, first).value, g.clusters);
    }
  }

  lemma FileNodeIs(g: Geometry, d: Disk, fat: seq<byte>, s: Slot)
    requires g.perCluster > 0 && IsTable(g, fat) && NodeAt(g, d, fat, s).Some? && NodeAt(g, d, fat, s).value.FileNode?
    ensures var node := NodeAt(g, d, fat, s).value;
      && node.content == Content(d, ChainSectors(g, node.clusters), Size(node.entry))
      && |node.clusters| == Needed(g, Size(node.entry))
      && (Size(node.entry) > 0 ==> Chain(g, fat, First(node.entry)) == Some(node.clusters))
  {
    hide Content, ChainSectors, Chain;
    if Size(EntryAt(d, s)) == 0 {
      NeededExactly(g, 0, 0);
    }
  }

  lemma CursorInChain(g: Geometry, pos: nat, size: nat, index: nat, ch: seq<nat>)
    requires g.perCluster > 0 && pos < size && |ch| == Needed(g, size) && index * ClusterBytes(g) <= pos
    ensures index < |ch|
  {
    NeededExactly(g, size, index);
  }

  /** File position `pos` lies in the cluster at `index` of its chain. */
  ghost predicate InCluster(g: Geometry, pos: nat, index: nat) {
    index * ClusterBytes(g) <= pos < index * ClusterBytes(g) + ClusterBytes(g)
  }

  lemma StartIndex(g: Geometry, pos: nat, size: nat, ch: seq<nat>)
    requires g.perCluster > 0 && pos < size && |ch| == Needed(g, size)
    ensures ClusterBytes(g) > 0 && pos / ClusterBytes(g) < |ch| && InCluster(g, pos, pos / ClusterBytes(g))
  {
    var cb := ClusterBytes(g);
    DivisionBounds(pos, cb);
    CursorInChain(g, pos, size, pos / cb, ch);
  }

  lemma ByteAt(d: Disk, sectors: seq<Addr>, size: nat, t: nat, b: nat)
    requires t < |sectors| && b < SECTOR && SECTOR * t + b < size
    ensures Content(d, sectors, size)[SECTOR * t + b] == At(d, sectors[t])[b]
  {
    assert (SECTOR * t + b) / SECTOR == t && (SECTOR * t + b) % SECTOR == b;
  }

  /** Bytes of one sector of a file: sector `r` of its cluster `index`. */
  lemma SectorBytes(g: Geometry, d: Disk, ch: seq<nat>, size: nat, index: nat, r: nat, from: nat, amount: nat)
    requires index < |ch| && r < g.perCluster && from + amount <= SECTOR
    requires SECTOR * (index * g.perCluster + r) + from + amount <= size
    ensures var pos := SECTOR * (index * g.perCluster + r) + from;
      Content(d, ChainSectors(g, ch), size)[pos..pos + amount] == At(d, Data(ch[index], r))[from..from + amount]
  {
    ChainSectorsAt(g, ch, index, r);
    BytesInRow(d, ChainSectors(g, ch), size, index * g.perCluster + r, from, amount);
  }

  lemma BytesInRow(d: Disk, sectors: seq<Addr>, size: nat, t: nat, from: nat, amount: nat)
    requires t < |sectors| && from + amount <= SECTOR && SECTOR * t + from + amount <= size
    ensures var pos := SECTOR * t + from;
      Content(d, sectors, size)[pos..pos + amount] == At(d, sectors[t])[from..from + amount]
  {
    hide Content;
    var pos := SECTOR * t + from;
    var whole, part := Content(d, sectors, size)[pos..pos + amount], At(d, sectors[t])[from..from + amount];
    forall k | 0 <= k < amount
      ensures whole[k] == part[k]
    {
      ByteAt(d, sectors, size, t, from + k);
    }
    assert whole == part;
  }

  lemma ChainStep(g: Geometry, fat: seq<byte>, first: nat, ch: seq<nat>, i: nat)
    requires IsTable(g, fat) && Chain(g, fat, first) == Some(ch) && i < |ch|
    ensures ValidCluster(g, ch[i]) && (i + 1 < |ch| ==> Next(g, fat, ch[i]) == ch[i + 1])
  {
    ChainExactly(g, fat, first, ch);
  }

  /** Reaching the end of a cluster moves on exactly one. */
  lemma NextIndex(g: Geometry, pos: nat, size: nat, ch: seq<nat>, index: nat) returns (index': nat)
    requires g.perCluster > 0 && pos < size && |ch| == Needed(g, size) && index < |ch|
    requires pos > 0 && InCluster(g, pos - 1, index)
    ensures index' < |ch| && InCluster(g, pos, index')
    ensures index' == if pos % ClusterBytes(g) == 0 then index + 1 else index
  {
    var cb := ClusterBytes(g);
    if pos == index * cb + cb {
      index' := index + 1;
      assert index' * cb == index * cb + cb;
      QuotientIs(pos, cb, index', 0);
      CursorInChain(g, pos, size, index', ch);
    } else {
      index' := index;
      QuotientIs(pos, cb, index, pos - index * cb);
    }
  }

  lemma QuotientIs(n: nat, d: nat, q: nat, r: nat)
    requires r < d && n == q * d + r
    ensures n / d == q && n % d == r
  {
    DivisionBounds(n, d);
    RowsDisjoint(n / d, n % d, q, r, d);
  }
}
