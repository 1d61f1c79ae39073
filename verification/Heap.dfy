/** The kernel heap: one mapped range tiled by blocks in a doubly linked list, split and
    joined in place. */
module Heap {
  import opened Disk
  import Layout

  const PAGE := 4096
  const BASE := 0x4000_0000
  const LIMIT := 0x40_0000
  const ALIGNMENT := 16
  const HEADER := 16
  const NULL := 0
  const SIZE_MAX := 0xFFFF_FFFF

  /** A block header as it lies in memory. */
  datatype Block = Block(size: nat, previous: nat, next: nat, free: bool)

  /** A block as the specification sees it: its payload size and whether it is free. */
  datatype Chunk = Chunk(size: nat, free: bool)

  /** The address of the header of block `k`; of the end of the range for `k == |l|`. */
  ghost function Start(l: seq<Chunk>, k: nat): nat
    requires k <= |l|
  {
    if k == 0 then BASE else Start(l, k - 1) + HEADER + l[k - 1].size
  }

  ghost function End(l: seq<Chunk>): nat { Start(l, |l|) }

  ghost predicate Sized(l: seq<Chunk>) {
    forall k :: 0 <= k < |l| ==> l[k].size % ALIGNMENT == 0 && l[k].size >= ALIGNMENT
  }

  /** No two neighbours are both free. */
  ghost predicate Coalesced(l: seq<Chunk>) {
    forall k :: 0 <= k < |l| - 1 ==> !(l[k].free && l[k + 1].free)
  }

  ghost function Header(l: seq<Chunk>, k: nat): Block
    requires k < |l|
  {
    Block(l[k].size, if k == 0 then NULL else Start(l, k - 1), if k + 1 < |l| then Start(l, k + 1) else NULL, l[k].free)
  }

  /** The list in memory: each header is where the tiling puts it and links to its neighbours. */
  ghost predicate Linked(blocks: map<nat, Block>, l: seq<Chunk>) {
    forall k :: 0 <= k < |l| ==> LinkOk(blocks, l, k)
  }

  ghost predicate LinkOk(blocks: map<nat, Block>, l: seq<Chunk>, k: nat)
    requires k < |l|
  {
    BlockAt(blocks, Start(l, k)) == Header(l, k)
  }

  /** The header at an address. */
  function BlockAt(blocks: map<nat, Block>, a: nat): Block {
    if a in blocks then blocks[a] else Block(0, NULL, NULL, false)
  }

  /** Live payloads: their address and size. */
  ghost predicate LiveAt(l: seq<Chunk>, p: nat, n: nat) {
    exists k :: 0 <= k < |l| && IsLive(l, k, p, n)
  }

  ghost predicate IsLive(l: seq<Chunk>, k: nat, p: nat, n: nat)
    requires k < |l|
  {
    !l[k].free && p == Start(l, k) + HEADER && n == l[k].size
  }

  // ----- Where blocks lie -----------------------------------------------------------------------

  lemma {:induction false} StartPrefix(l: seq<Chunk>, m: seq<Chunk>, k: nat)
    requires k <= |l| && k <= |m| && l[..k] == m[..k]
    ensures Start(l, k) == Start(m, k)
    decreases k
  {
    if k > 0 {
      assert l[..k - 1] == l[..k][..k - 1] == m[..k][..k - 1] == m[..k - 1];
      assert l[k - 1] == l[..k][k - 1] == m[..k][k - 1] == m[k - 1];
      StartPrefix(l, m, k - 1);
    }
  }

  lemma ShorterSlice(l: seq<Chunk>, m: seq<Chunk>, i: nat, j: nat, n: nat)
    requires 0 < n && i + n <= |l| && j + n <= |m| && l[i..i + n] == m[j..j + n]
    ensures l[i..i + n - 1] == m[j..j + n - 1] && l[i + n - 1] == m[j + n - 1]
  {
    var u, v := l[i..i + n], m[j..j + n];
    var a, b := l[i..i + n - 1], m[j..j + n - 1];
    forall t | 0 <= t < |a|
      ensures a[t] == b[t]
    {
      assert a[t] == u[t] && b[t] == v[t];
    }
    assert u[n - 1] == l[i + n - 1] && v[n - 1] == m[j + n - 1];
  }

  /** Equal tails keep their distance. */
  lemma {:induction false} StartSuffix(l: seq<Chunk>, m: seq<Chunk>, i: nat, j: nat, n: nat)
    requires i + n <= |l| && j + n <= |m| && l[i..i + n] == m[j..j + n]
    ensures Start(l, i + n) - Start(l, i) == Start(m, j + n) - Start(m, j)
    decreases n
  {
    if n > 0 {
      ShorterSlice(l, m, i, j, n);
      StartSuffix(l, m, i, j, n - 1);
    }
  }

  lemma {:induction false} StartGrows(l: seq<Chunk>, j: nat, k: nat)
    requires j < k <= |l|
    ensures Start(l, j) + HEADER + l[j].size <= Start(l, k)
    decreases k
  {
    if j < k - 1 { StartGrows(l, j, k - 1); }
  }

  lemma {:induction false} StartAligned(l: seq<Chunk>, k: nat)
    requires Sized(l) && k <= |l|
    ensures Start(l, k) % ALIGNMENT == 0 && Start(l, k) >= BASE
    decreases k
  {
    if k > 0 { StartAligned(l, k - 1); }
  }

  /** Live payloads are aligned, lie inside the range and do not overlap each other. */
  lemma LiveDisjoint(l: seq<Chunk>, p: nat, n: nat, q: nat, m: nat)
    requires Sized(l) && LiveAt(l, p, n) && LiveAt(l, q, m)
    ensures p % ALIGNMENT == 0 && BASE + HEADER <= p && p + n <= End(l)
    ensures (p == q && n == m) || p + n + HEADER <= q || q + m + HEADER <= p
  {
    var j :| 0 <= j < |l| && IsLive(l, j, p, n);
    var k :| 0 <= k < |l| && IsLive(l, k, q, m);
    StartAligned(l, j);
    StartGrows(l, j, |l|);
    if j < k { StartGrows(l, j, k); }
    if k < j { StartGrows(l, k, j); }
  }

  // ----- The payload bytes ----------------------------------------------------------------------------

  /** Sixteen bytes of header as some encoding of it; they overwrite what was there. */
  function Stamp(b: Block): (s: seq<byte>)
    ensures |s| == HEADER
  {
    Word(b.size) + Word(b.previous) + Word(b.next) + [if b.free then 1 else 0, 0, 0, 0]
  }

  function Word(n: nat): (s: seq<byte>)
    ensures |s| == 4
  {
    [n % 256, (n / 0x100) % 256, (n / 0x1_0000) % 256, (n / 0x100_0000) % 256]
  }

  function Stamped(bytes: seq<byte>, at: nat, s: seq<byte>): (r: seq<byte>)
    requires at + |s| <= |bytes|
    ensures |r| == |bytes| && forall x :: 0 <= x < |bytes| ==>
      r[x] == if at <= x < at + |s| then s[x - at] else bytes[x]
  {
    bytes[..at] + s + bytes[at + |s|..]
  }

  /** Every range of `keep` is the start of a live payload. */
  ghost predicate Safe(keep: map<nat, nat>, l: seq<Chunk>) {
    forall p :: p in keep ==> exists k :: 0 <= k < |l| && Holds(l, k, p, keep[p])
  }

  ghost predicate Holds(l: seq<Chunk>, k: nat, p: nat, n: nat)
    requires k < |l|
  {
    !l[k].free && p == Start(l, k) + HEADER && n <= l[k].size
  }

  /** The ranges of `keep` hold the same bytes. */
  ghost predicate Kept(keep: map<nat, nat>, bytes: seq<byte>, bytes': seq<byte>) {
    |bytes| <= |bytes'| && forall p, x :: p in keep && 0 <= x < keep[p] ==> Same(bytes, bytes', p, x)
  }

  predicate Same(bytes: seq<byte>, bytes': seq<byte>, p: nat, x: nat) {
    p >= BASE && p - BASE + x < |bytes| && p - BASE + x < |bytes'| && bytes'[p - BASE + x] == bytes[p - BASE + x]
  }

  lemma KeptTwice(keep: map<nat, nat>, a: seq<byte>, b: seq<byte>, c: seq<byte>)
    requires Kept(keep, a, b) && Kept(keep, b, c)
    ensures Kept(keep, a, c)
  {
    forall p, x | p in keep && 0 <= x < keep[p]
      ensures Same(a, c, p, x)
    {
      assert Same(a, b, p, x) && Same(b, c, p, x);
    }
  }

  lemma KeptSelf(keep: map<nat, nat>, l: seq<Chunk>, bytes: seq<byte>)
    requires Safe(keep, l) && End(l) == BASE + |bytes|
    ensures Kept(keep, bytes, bytes)
  {
    forall p, x | p in keep && 0 <= x < keep[p]
      ensures Same(bytes, bytes, p, x)
    {
      var k :| 0 <= k < |l| && Holds(l, k, p, keep[p]);
      StartGrows(l, k, |l|);
      StartAbove(l, k);
    }
  }

  lemma {:induction false} StartAbove(l: seq<Chunk>, k: nat)
    requires k <= |l|
    ensures Start(l, k) >= BASE
    decreases k
  {
    if k > 0 { StartAbove(l, k - 1); }
  }

  /** Writing a header of the tiling touches no live payload. */
  lemma StampKeeps(keep: map<nat, nat>, l: seq<Chunk>, bytes: seq<byte>, j: nat, s: seq<byte>)
    requires Safe(keep, l) && End(l) == BASE + |bytes| && j < |l| && |s| == HEADER
    ensures BASE <= Start(l, j) && Start(l, j) - BASE + HEADER <= |bytes|
    ensures Kept(keep, bytes, Stamped(bytes, Start(l, j) - BASE, s))
  {
    StartAbove(l, j);
    StartGrows(l, j, |l|);
    var bytes' := Stamped(bytes, Start(l, j) - BASE, s);
    forall p, x | p in keep && 0 <= x < keep[p]
      ensures Same(bytes, bytes', p, x)
    {
      var k :| 0 <= k < |l| && Holds(l, k, p, keep[p]);
      StartAbove(l, k);
      HeaderApart(l, j, k);
    }
  }

  /** Headers and payloads of a tiling do not overlap. */
  lemma HeaderApart(l: seq<Chunk>, j: nat, k: nat)
    requires j < |l| && k < |l|
    ensures Start(l, j) <= Start(l, k) || Start(l, k) + HEADER + l[k].size <= Start(l, j)
    ensures Start(l, k) + HEADER + l[k].size <= End(l)
  {
    StartGrows(l, k, |l|);
    if j < k { StartGrows(l, j, k); }
    if k < j { StartGrows(l, k, j); }
  }

  // ----- Splitting and joining ---------------------------------------------------------------------------

  ghost function SplitAt(l: seq<Chunk>, k: nat, size: nat): seq<Chunk>
    requires k < |l| && size + HEADER <= l[k].size
  {
    l[..k] + [Chunk(size, l[k].free), Chunk(l[k].size - size - HEADER, true)] + l[k + 1..]
  }

  ghost function JoinAt(l: seq<Chunk>, k: nat): seq<Chunk>
    requires k + 1 < |l|
  {
    l[..k] + [Chunk(l[k].size + HEADER + l[k + 1].size, l[k].free)] + l[k + 2..]
  }

  lemma SplitStart(l: seq<Chunk>, k: nat, size: nat, i: nat)
    requires k < |l| && size + HEADER <= l[k].size && i <= |l|
    ensures i <= k ==> Start(SplitAt(l, k, size), i) == Start(l, i)
    ensures Start(SplitAt(l, k, size), k + 1) == Start(l, k) + HEADER + size
    ensures i > k ==> Start(SplitAt(l, k, size), i + 1) == Start(l, i)
  {
    var m := SplitAt(l, k, size);
    if i <= k { StartPrefix(l, m, i); }
    StartPrefix(l, m, k);
    if i > k {
      assert l[k + 1..i] == m[k + 2..i + 1];
      StartSuffix(l, m, k + 1, k + 2, i - k - 1);
      assert Start(m, k + 2) == Start(l, k + 1);
    }
  }

  lemma JoinIsUnsplit(l: seq<Chunk>, k: nat)
    requires k + 1 < |l| && l[k + 1].free
    ensures SplitAt(JoinAt(l, k), k, l[k].size) == l
  {
  }

  lemma JoinStart(l: seq<Chunk>, k: nat, i: nat)
    requires k + 1 < |l| && l[k + 1].free && i <= |l|
    ensures i <= k ==> Start(JoinAt(l, k), i) == Start(l, i)
    ensures i > k + 1 ==> Start(JoinAt(l, k), i - 1) == Start(l, i)
  {
    JoinIsUnsplit(l, k);
    SplitStart(JoinAt(l, k), k, l[k].size, if i <= k then i else if i > k + 1 then i - 1 else 0);
  }

  /** The headers a split writes: the block, the rest and the rest's successor. */
  ghost predicate SplitBlocks(blocks: map<nat, Block>, blocks': map<nat, Block>, a: nat, size: nat) {
    var b := BlockAt(blocks, a);
    var rest := a + HEADER + size;
    && BlockAt(blocks', a) == Block(size, b.previous, rest, b.free)
    && b.size >= size + HEADER && BlockAt(blocks', rest) == Block(b.size - size - HEADER, a, b.next, true)
    && (b.next != NULL ==> BlockAt(blocks', b.next) == BlockAt(blocks, b.next).(previous := rest))
    && (forall c :: c != a && c != rest && c != b.next ==> BlockAt(blocks', c) == BlockAt(blocks, c))
  }

  lemma SplitLinked(blocks: map<nat, Block>, l: seq<Chunk>, k: nat, size: nat, blocks': map<nat, Block>)
    requires Linked(blocks, l) && k < |l| && size + HEADER <= l[k].size
    requires SplitBlocks(blocks, blocks', Start(l, k), size)
    ensures Linked(blocks', SplitAt(l, k, size))
  {
    hide SplitBlocks, SplitAt;
    var m := SplitAt(l, k, size);
    SplitLength(l, k, size);
    forall i | 0 <= i < |m|
      ensures LinkOk(blocks', m, i)
    {
      SplitLink(blocks, l, k, size, blocks', i);
    }
  }

  lemma SplitLength(l: seq<Chunk>, k: nat, size: nat)
    requires k < |l| && size + HEADER <= l[k].size
    ensures |SplitAt(l, k, size)| == |l| + 1
  {
  }

  lemma SplitLink(blocks: map<nat, Block>, l: seq<Chunk>, k: nat, size: nat, blocks': map<nat, Block>, i: nat)
    requires Linked(blocks, l) && k < |l| && size + HEADER <= l[k].size
    requires SplitBlocks(blocks, blocks', Start(l, k), size) && i <= |l|
    ensures |SplitAt(l, k, size)| == |l| + 1 && LinkOk(blocks', SplitAt(l, k, size), i)
  {
    hide SplitAt, Start, Header, Linked;
    SplitLength(l, k, size);
    LinkAt(blocks, l, k);
    SplitHeader(l, k, size, i);
    NextAddress(l, k);
    if i < k {
      LinkAt(blocks, l, i);
      Elsewhere(l, k, size, i);
    } else if i >= k + 2 {
      LinkAt(blocks, l, i - 1);
      Elsewhere(l, k, size, i - 1);
    }
  }

  lemma LinkAt(blocks: map<nat, Block>, l: seq<Chunk>, k: nat)
    requires Linked(blocks, l) && k < |l|
    ensures BlockAt(blocks, Start(l, k)) == Header(l, k)
  {
    assert LinkOk(blocks, l, k);
  }

  lemma NextAddress(l: seq<Chunk>, k: nat)
    requires k < |l|
    ensures Header(l, k).next == if k + 1 < |l| then Start(l, k + 1) else NULL
    ensures Header(l, k).size == l[k].size && Header(l, k).free == l[k].free
    ensures k + 1 < |l| ==> Start(l, k + 1) != NULL
  {
    if k + 1 < |l| { StartAbove(l, k + 1); }
  }

  /** A header other than the split block's and its successor's is at neither address the
      split writes. */
  lemma Elsewhere(l: seq<Chunk>, k: nat, size: nat, j: nat)
    requires k < |l| && j < |l| && size + HEADER <= l[k].size && j != k
    ensures Start(l, j) != Start(l, k) && Start(l, j) != Start(l, k) + HEADER + size && Start(l, j) != NULL
    ensures j != k + 1 && k + 1 < |l| ==> Start(l, j) != Start(l, k + 1)
  {
    Apart(l, k, j);
    if k + 1 < |l| { Apart(l, k + 1, j); }
    Within(l, k, size, j);
    StartAbove(l, j);
  }

  /** Two headers of a tiling are at different addresses. */
  lemma Apart(l: seq<Chunk>, j: nat, k: nat)
    requires j < |l| && k < |l|
    ensures j != k ==> Start(l, j) != Start(l, k)
  {
    if j < k { StartGrows(l, j, k); }
    if k < j { StartGrows(l, k, j); }
  }

  /** The rest's header is inside the block that is split. */
  lemma Within(l: seq<Chunk>, k: nat, size: nat, j: nat)
    requires k < |l| && j < |l| && size + HEADER <= l[k].size
    ensures Start(l, j) != Start(l, k) + HEADER + size
  {
    if k < j { StartGrows(l, k, j); }
    if j < k { StartGrows(l, j, k); }
  }

  /** The headers after a split. */
  lemma SplitHeader(l: seq<Chunk>, k: nat, size: nat, i: nat)
    requires k < |l| && size + HEADER <= l[k].size && i <= |l|
    ensures var m := SplitAt(l, k, size); var rest := Start(l, k) + HEADER + size;
      && (i < k ==> Start(m, i) == Start(l, i) && Header(m, i) == Header(l, i))
      && (i == k ==> Start(m, i) == Start(l, k) && Header(m, i) == Block(size, Header(l, k).previous, rest, l[k].free))
      && (i == k + 1 ==>
            && Start(m, i) == rest
            && Header(m, i) == Block(l[k].size - size - HEADER, Start(l, k), Header(l, k).next, true))
      && (i == k + 2 ==> Start(m, i) == Start(l, i - 1) && Header(m, i) == Header(l, i - 1).(previous := rest))
      && (i > k + 2 ==> Start(m, i) == Start(l, i - 1) && Header(m, i) == Header(l, i - 1))
  {
    var m := SplitAt(l, k, size);
    if i > 0 { SplitStart(l, k, size, i - 1); }
    SplitStart(l, k, size, i);
    if i > 1 { SplitStart(l, k, size, i - 2); }
    SplitStart(l, k, size, k);
    assert i > k + 1 ==> m[i] == l[i - 1];
  }

  /** The headers a join writes: the block and the successor of the one it absorbs. */
  ghost predicate JoinBlocks(blocks: map<nat, Block>, blocks': map<nat, Block>, a: nat) {
    var b := BlockAt(blocks, a);
    var n := BlockAt(blocks, b.next);
    && BlockAt(blocks', a) == Block(b.size + HEADER + n.size, b.previous, n.next, b.free)
    && (n.next != NULL ==> BlockAt(blocks', n.next) == BlockAt(blocks, n.next).(previous := a))
    && (forall c :: c != a && c != n.next ==> BlockAt(blocks', c) == BlockAt(blocks, c))
  }

  lemma JoinHeader(l: seq<Chunk>, k: nat, i: nat)
    requires k + 1 < |l| && l[k + 1].free && i < |l| - 1
    ensures |JoinAt(l, k)| == |l| - 1
    ensures var m := JoinAt(l, k);
      && (i < k ==> Start(m, i) == Start(l, i) && Header(m, i) == Header(l, i))
      && (i == k ==>
            && Start(m, i) == Start(l, k)
            && Header(m, i) == Block(l[k].size + HEADER + l[k + 1].size, Header(l, k).previous, Header(l, k + 1).next,
                                     l[k].free))
      && (i == k + 1 ==> Start(m, i) == Start(l, i + 1) && Header(m, i) == Header(l, i + 1).(previous := Start(l, k)))
      && (i > k + 1 ==> Start(m, i) == Start(l, i + 1) && Header(m, i) == Header(l, i + 1))
  {
    var m := JoinAt(l, k);
    JoinIsUnsplit(l, k);
    SplitHeader(m, k, l[k].size, k);
    SplitHeader(m, k, l[k].size, k + 1);
    SplitHeader(m, k, l[k].size, if i < k then i else i + 1);
  }

  lemma JoinLinked(blocks: map<nat, Block>, l: seq<Chunk>, k: nat, blocks': map<nat, Block>)
    requires Linked(blocks, l) && k + 1 < |l| && l[k + 1].free && JoinBlocks(blocks, blocks', Start(l, k))
    ensures Linked(blocks', JoinAt(l, k))
  {
    hide JoinBlocks, JoinAt;
    JoinHeader(l, k, 0);
    var m := JoinAt(l, k);
    forall i | 0 <= i < |m|
      ensures LinkOk(blocks', m, i)
    {
      JoinLink(blocks, l, k, blocks', i);
    }
  }

  lemma JoinLink(blocks: map<nat, Block>, l: seq<Chunk>, k: nat, blocks': map<nat, Block>, i: nat)
    requires Linked(blocks, l) && k + 1 < |l| && l[k + 1].free && JoinBlocks(blocks, blocks', Start(l, k))
    requires i < |l| - 1
    ensures |JoinAt(l, k)| == |l| - 1 && LinkOk(blocks', JoinAt(l, k), i)
  {
    hide JoinAt, Start, Header, Linked;
    JoinHeader(l, k, i);
    LinkAt(blocks, l, k);
    LinkAt(blocks, l, k + 1);
    NextAddress(l, k);
    NextAddress(l, k + 1);
    if i < k {
      LinkAt(blocks, l, i);
      Apart(l, i, k);
      if k + 2 < |l| { Apart(l, i, k + 2); }
      HeaderNotNull(l, i);
    } else if i > k {
      LinkAt(blocks, l, i + 1);
      Apart(l, i + 1, k);
      Apart(l, i + 1, k + 2);
      HeaderNotNull(l, i + 1);
    }
  }

  lemma HeaderNotNull(l: seq<Chunk>, k: nat)
    requires k < |l|
    ensures Start(l, k) != NULL
  {
    StartAbove(l, k);
  }

  // ----- What the operations keep -------------------------------------------------------------------------

  /** Ranges in live payloads stay so when a block is split, the split one up to its new size. */
  lemma SplitSafe(keep: map<nat, nat>, l: seq<Chunk>, k: nat, size: nat)
    requires Safe(keep, l) && k < |l| && size + HEADER <= l[k].size
    requires Start(l, k) + HEADER in keep ==> keep[Start(l, k) + HEADER] <= size
    ensures Safe(keep, SplitAt(l, k, size)) && End(SplitAt(l, k, size)) == End(l)
  {
    var m := SplitAt(l, k, size);
    SplitStart(l, k, size, |l|);
    forall p | p in keep
      ensures exists i :: 0 <= i < |m| && Holds(m, i, p, keep[p])
    {
      var i :| 0 <= i < |l| && Holds(l, i, p, keep[p]);
      SplitStart(l, k, size, i);
      var j := if i <= k then i else i + 1;
      assert m[j] == if i == k then Chunk(size, l[k].free) else l[i];
      assert Holds(m, j, p, keep[p]);
    }
  }

  lemma JoinSafe(keep: map<nat, nat>, l: seq<Chunk>, k: nat)
    requires Safe(keep, l) && k + 1 < |l| && l[k + 1].free
    ensures Safe(keep, JoinAt(l, k)) && End(JoinAt(l, k)) == End(l)
  {
    var m := JoinAt(l, k);
    JoinStart(l, k, |l|);
    forall p | p in keep
      ensures exists i :: 0 <= i < |m| && Holds(m, i, p, keep[p])
    {
      var i :| 0 <= i < |l| && Holds(l, i, p, keep[p]);
      JoinStart(l, k, i);
      var j := if i <= k then i else i - 1;
      assert i != k ==> m[j] == l[i];
      assert Holds(m, j, p, keep[p]);
    }
  }

  ghost function Marked(l: seq<Chunk>, k: nat, free: bool): seq<Chunk>
    requires k < |l|
  {
    l[k := Chunk(l[k].size, free)]
  }

  lemma {:induction false} MarkedStart(l: seq<Chunk>, k: nat, free: bool, i: nat)
    requires k < |l| && i <= |l|
    ensures Start(Marked(l, k, free), i) == Start(l, i)
    decreases i
  {
    if i > 0 { MarkedStart(l, k, free, i - 1); }
  }

  lemma MarkedLinked(blocks: map<nat, Block>, l: seq<Chunk>, k: nat, free: bool)
    requires Linked(blocks, l) && k < |l|
    ensures var a := Start(l, k); Linked(blocks[a := BlockAt(blocks, a).(free := free)], Marked(l, k, free))
  {
    var m, a := Marked(l, k, free), Start(l, k);
    var blocks' := blocks[a := BlockAt(blocks, a).(free := free)];
    forall i | 0 <= i < |m|
      ensures LinkOk(blocks', m, i)
    {
      LinkAt(blocks, l, i);
      MarkedStart(l, k, free, i);
      if i > 0 { MarkedStart(l, k, free, i - 1); }
      MarkedStart(l, k, free, i + 1);
      Apart(l, i, k);
    }
  }

  lemma MarkedHolds(l: seq<Chunk>, k: nat, free: bool, i: nat, p: nat, n: nat)
    requires k < |l| && i < |l| && Holds(l, i, p, n) && p != Start(l, k) + HEADER
    ensures Holds(Marked(l, k, free), i, p, n)
  {
    MarkedStart(l, k, free, i);
  }

  lemma MarkedSafe(keep: map<nat, nat>, l: seq<Chunk>, k: nat, free: bool)
    requires Safe(keep, l) && k < |l| && Start(l, k) + HEADER !in keep
    ensures Safe(keep, Marked(l, k, free)) && End(Marked(l, k, free)) == End(l)
  {
    hide Start, Holds;
    var m := Marked(l, k, free);
    MarkedStart(l, k, free, |l|);
    forall p | p in keep
      ensures exists i :: 0 <= i < |m| && Holds(m, i, p, keep[p])
    {
      var i :| 0 <= i < |l| && Holds(l, i, p, keep[p]);
      MarkedHolds(l, k, free, i, p, keep[p]);
    }
  }

  /** The tiling after a split that gives the rest to a free successor. */
  ghost function SplitTo(l: seq<Chunk>, k: nat, size: nat): seq<Chunk>
    requires k < |l| && size <= l[k].size
  {
    if l[k].size - size < HEADER + ALIGNMENT then l
    else if k + 1 < |l| && l[k + 1].free then JoinAt(SplitAt(l, k, size), k + 1)
    else SplitAt(l, k, size)
  }

  class KernelHeap {
    var ready: bool
    var blocks: map<nat, Block>
    var first: nat
    var last: nat
    var mapped: nat
    var bytes: seq<byte>
    ghost var layout: seq<Chunk>

    /** The blocks tile the mapped range and the list links them in order. */
    ghost predicate Wired()
      reads this
    {
      && Sized(layout) && Linked(blocks, layout) && End(layout) == BASE + mapped && |bytes| == mapped
      && mapped % PAGE == 0 && mapped <= LIMIT && Ends(layout, first, last)
    }

    ghost predicate Valid()
      reads this
    {
      Wired() && Coalesced(layout) && (ready ==> layout != [])
    }

    constructor ()
      ensures Valid() && !ready && layout == []
    {
      ready, blocks, first, last, mapped, bytes, layout := false, map[], NULL, NULL, 0, [], [];
    }

    /** Store a header; the bytes under it change. */
    method PutHeader(a: nat, b: Block, ghost l: seq<Chunk>, ghost j: nat, ghost keep: map<nat, nat>)
      requires j < |l| && a == Start(l, j) && End(l) == BASE + |bytes| && Safe(keep, l)
      modifies this`blocks, this`bytes
      ensures blocks == old(blocks)[a := b] && |bytes| == |old(bytes)| && Kept(keep, old(bytes), bytes)
    {
      hide Start, Safe, Kept;
      StampKeeps(keep, l, bytes, j, Stamp(b));
      blocks := blocks[a := b];
      bytes := Stamped(bytes, a - BASE, Stamp(b));
    }

    /** Cut the block to `size` if the rest can hold a block of its own, and give the rest
        to a free successor. */
    method Split(a: nat, size: nat, ghost k: nat, ghost keep: map<nat, nat>)
      requires Wired() && k < |layout| && a == Start(layout, k) && size % ALIGNMENT == 0
      requires ALIGNMENT <= size <= layout[k].size
      requires Safe(keep, layout) && (a + HEADER in keep ==> keep[a + HEADER] <= size)
      modifies this`blocks, this`bytes, this`last, this`layout
      ensures Wired() && layout == SplitTo(old(layout), k, size) && Safe(keep, layout) && Kept(keep, old(bytes), bytes)
    {
      hide Start, Safe, Kept, Linked, Sized, Ends, SplitAt, JoinAt;
      ghost var l := layout;
      LinkAt(blocks, l, k);
      NextAddress(l, k);
      var b := BlockAt(blocks, a);
      if b.size - size < HEADER + ALIGNMENT {
        KeptSelf(keep, layout, bytes);
        return;
      }
      SplitToKeeps(l, k, size);
      var rest := CutBlock(a, size, k, keep);
      if BlockAt(blocks, rest).next != NULL && BlockAt(blocks, BlockAt(blocks, rest).next).free {
        ghost var mid := bytes;
        SplitNext(blocks, l, k, size);
        SplitStart(l, k, size, k);
        JoinNext(rest, k + 1, keep);
        KeptTwice(keep, old(bytes), mid, bytes);
      } else {
        SplitNext(blocks, l, k, size);
      }
    }

    /** Write the rest's header and link it in. */
    method CutBlock(a: nat, size: nat, ghost k: nat, ghost keep: map<nat, nat>) returns (rest: nat)
      requires Wired() && k < |layout| && a == Start(layout, k) && size % ALIGNMENT == 0 && ALIGNMENT <= size
      requires size + HEADER + ALIGNMENT <= layout[k].size
      requires Safe(keep, layout) && (a + HEADER in keep ==> keep[a + HEADER] <= size)
      modifies this`blocks, this`bytes, this`last, this`layout
      ensures Wired() && layout == SplitAt(old(layout), k, size) && rest == a + HEADER + size
      ensures Safe(keep, layout) && Kept(keep, old(bytes), bytes)
    {
      hide Start, Safe, Kept, Linked, Sized, Ends, SplitAt;
      ghost var l, m := layout, SplitAt(layout, k, size);
      LinkAt(blocks, l, k);
      NextAddress(l, k);
      SplitSafe(keep, l, k, size);
      SplitLength(l, k, size);
      SplitHeader(l, k, size, k);
      SplitHeader(l, k, size, k + 1);
      var b := BlockAt(blocks, a);
      rest := a + HEADER + size;
      PutHeader(rest, Block(b.size - size - HEADER, a, b.next, true), m, k + 1, keep);
      if b.next != NULL {
        ghost var mid := bytes;
        SplitHeader(l, k, size, k + 2);
        PutHeader(b.next, BlockAt(blocks, b.next).(previous := rest), m, k + 2, keep);
        KeptTwice(keep, old(bytes), mid, bytes);
      } else {
        last := rest;
      }
      ghost var mid := bytes;
      PutHeader(a, Block(size, b.previous, rest, b.free), m, k, keep);
      KeptTwice(keep, old(bytes), mid, bytes);
      SplitWritten(old(blocks), blocks, l, k, size);
      SplitLinked(old(blocks), l, k, size, blocks);
      SplitEnds(l, k, size, first, old(last), last);
      SplitSized(l, k, size);
      layout := m;
    }

    /** Set the free flag of a block. */
    method SetFree(a: nat, free: bool, ghost k: nat, ghost keep: map<nat, nat>)
      requires Wired() && k < |layout| && a == Start(layout, k) && Safe(keep, layout) && a + HEADER !in keep
      modifies this`blocks, this`bytes, this`layout
      ensures Wired() && layout == Marked(old(layout), k, free) && Safe(keep, layout) && Kept(keep, old(bytes), bytes)
    {
      hide Start, Safe, Kept, Linked;
      MarkedSafe(keep, layout, k, free);
      MarkedStart(layout, k, free, k);
      MarkedStart(layout, k, free, 0);
      MarkedStart(layout, k, free, |layout| - 1);
      MarkedLinked(blocks, layout, k, free);
      PutHeader(a, BlockAt(blocks, a).(free := free), Marked(layout, k, free), k, keep);
      layout := Marked(layout, k, free);
    }

    /** The live block whose payload starts at `pointer`, or nothing. */
    method Find(pointer: nat) returns (a: nat, ghost k: nat)
      requires Wired()
      ensures a == NULL ==> forall n :: !LiveAt(layout, pointer, n)
      ensures a != NULL ==> k < |layout| && a == Start(layout, k) && !layout[k].free && pointer == a + HEADER
    {
      hide Start, Linked;
      if layout != [] { HeaderNotNull(layout, 0); }
      a, k := first, 0;
      while a != NULL
        invariant k <= |layout| && (a == NULL <==> k == |layout|) && (k < |layout| ==> a == Start(layout, k))
        invariant forall i, n :: 0 <= i < k ==> !IsLive(layout, i, pointer, n)
        decreases |layout| - k
      {
        LinkAt(blocks, layout, k);
        NextAddress(layout, k);
        if a + HEADER == pointer && !BlockAt(blocks, a).free { return; }
        a := BlockAt(blocks, a).next;
        k := k + 1;
      }
    }

    /** The first free block of at least `size` bytes, or nothing. */
    method FirstFit(size: nat) returns (a: nat, ghost k: nat)
      requires Wired()
      ensures a == NULL ==> forall i :: 0 <= i < |layout| ==> !Fits(layout[i], size)
      ensures a != NULL ==>
        && k < |layout| && a == Start(layout, k) && Fits(layout[k], size)
        && forall i :: 0 <= i < k ==> !Fits(layout[i], size)
    {
      hide Start, Linked;
      if layout != [] { HeaderNotNull(layout, 0); }
      a, k := first, 0;
      while a != NULL
        invariant k <= |layout| && (a == NULL <==> k == |layout|) && (k < |layout| ==> a == Start(layout, k))
        invariant forall i :: 0 <= i < k ==> !Fits(layout[i], size)
        decreases |layout| - k
      {
        LinkAt(blocks, layout, k);
        NextAddress(layout, k);
        if BlockAt(blocks, a).free && BlockAt(blocks, a).size >= size { return; }
        a := BlockAt(blocks, a).next;
        k := k + 1;
      }
    }

    /** Take a fitting block, growing the heap if there is none. */
    method Allocate(size: nat, available: nat) returns (pointer: nat, left: nat)
      requires Valid()
      modifies this`blocks, this`bytes, this`first, this`last, this`mapped, this`layout
      ensures Valid()
      ensures pointer != NULL <==> CanAllocate(old(layout), ready, old(mapped), size, available)
      ensures pointer == NULL ==> left == available && layout == old(layout) && bytes == old(bytes)
      ensures Paid(old(mapped), mapped, available, left, pointer != NULL, old(layout), size)
      ensures pointer != NULL ==> Served(old(layout), old(bytes), layout, bytes, pointer, size)
    {
      hide Start, Linked, Safe, Kept, Coalesced, Sized, Served, Lives, Grown, Header, BlockAt;
      pointer, left := NULL, available;
      var wanted := Aligned(size);
      if !ready || wanted == 0 { return; }
      ghost var keep := Lives(layout);
      LivesSafe(layout);
      KeptSelf(keep, layout, bytes);
      var a;
      ghost var k;
      a, k := FirstFit(wanted);
      if a == NULL {
        LastFree(blocks, layout, first, last);
        NextAddress(layout, |layout| - 1);
        var needed := if BlockAt(blocks, last).free then wanted - BlockAt(blocks, last).size else wanted + HEADER;
        var ok;
        ok, left := Grow(needed, available, keep);
        if !ok { return; }
        GrownStarts(old(layout), Pages(needed) * PAGE);
        GrownFits(old(layout), wanted, Pages(needed) * PAGE);
        GrownCoalesced(old(layout), Pages(needed) * PAGE);
        GrownLives(old(layout), Pages(needed) * PAGE);
        a, k := last, |layout| - 1;
      }
      pointer := TakeBlock(a, wanted, k, keep, old(bytes));
      ServedBy(old(layout), old(bytes), layout, bytes, pointer, size, Lives(layout)[pointer]);
    }

    /** Split off what is not needed and mark the block as taken. */
    method TakeBlock(a: nat, size: nat, ghost k: nat, ghost keep: map<nat, nat>, ghost bytes0: seq<byte>)
      returns (pointer: nat)
      requires Valid() && k < |layout| && a == Start(layout, k) && Fits(layout[k], size) && size % ALIGNMENT == 0
      requires size >= ALIGNMENT
      requires keep == Lives(layout) && Safe(keep, layout) && Kept(keep, bytes0, bytes)
      modifies this`blocks, this`bytes, this`last, this`layout
      ensures Valid() && pointer == a + HEADER && pointer !in keep && Kept(keep, bytes0, bytes)
      ensures Lives(layout) ==
        keep[pointer := if old(layout)[k].size - size < HEADER + ALIGNMENT then old(layout)[k].size else size]
    {
      hide Start, Linked, Safe, Kept, Coalesced, Sized, Lives, SplitTo, Marked;
      ghost var l := layout;
      FreeNotLive(l, k);
      Split(a, size, k, keep);
      ghost var mid := bytes;
      SplitToFirst(l, k, size);
      SetFree(a, false, k, keep);
      KeptTwice(keep, bytes0, old(bytes), mid);
      KeptTwice(keep, bytes0, mid, bytes);
      TakenLives(l, k, size);
      TakenCoalesced(l, k, size);
      pointer := a + HEADER;
    }

    /** Free a live block and join it with free neighbours. */
    method Release(a: nat, ghost k: nat, ghost keep: map<nat, nat>)
      requires Valid() && k < |layout| && a == Start(layout, k) && !layout[k].free && Safe(keep, layout)
      requires a + HEADER !in keep
      modifies this`blocks, this`bytes, this`last, this`layout
      ensures Valid() && Safe(keep, layout) && Kept(keep, old(bytes), bytes)
      ensures Lives(layout) == Lives(old(layout)) - {a + HEADER}
    {
      hide Start, Linked, Safe, Kept, Coalesced, Sized, Lives, Marked, JoinAt;
      ghost var l := layout;
      SetFree(a, true, k, keep);
      MarkedIs(l, k, true);
      ghost var m := layout;
      NeighbourBlocks(blocks, m, k);
      var next := BlockAt(blocks, a).next;
      if next != NULL && BlockAt(blocks, next).free {
        ghost var mid := bytes;
        JoinNext(a, k, keep);
        KeptTwice(keep, old(bytes), mid, bytes);
        JoinedIs(m, k);
      }
      ghost var n := layout;
      NeighbourBlocks(blocks, n, k);
      var previous := BlockAt(blocks, a).previous;
      if previous != NULL && BlockAt(blocks, previous).free {
        ghost var mid := bytes;
        JoinNext(previous, k - 1, keep);
        KeptTwice(keep, old(bytes), mid, bytes);
      }
      ReleasedLives(l, k);
      ReleasedCoalesced(l, k);
    }

    /** Set up the first page. */
    method Initialize(available: nat) returns (ok: bool, left: nat)
      requires Valid() && (!ready ==> layout == [])
      modifies this
      ensures Valid() && ready == (old(ready) || ok)
      ensures ok <==> !old(ready) && available > 0
      ensures !ok ==> left == available && layout == old(layout) && bytes == old(bytes)
      ensures ok ==> left == available - 1 && Lives(layout) == map[]
    {
      ok, left := false, available;
      if ready { return; }
      ok, left := Grow(PAGE, available, map[]);
      if ok {
        GrownCoalesced([], PAGE);
        GrownLives([], PAGE);
        ready := true;
      }
    }

    /** Allocate `size` bytes. */
    method Kmalloc(size: nat, available: nat) returns (pointer: nat, left: nat)
      requires Valid()
      modifies this`blocks, this`bytes, this`first, this`last, this`mapped, this`layout
      ensures Valid()
      ensures pointer != NULL <==> CanAllocate(old(layout), ready, old(mapped), size, available)
      ensures pointer == NULL ==> left == available && layout == old(layout) && bytes == old(bytes)
      ensures Paid(old(mapped), mapped, available, left, pointer != NULL, old(layout), size)
      ensures pointer != NULL ==> Served(old(layout), old(bytes), layout, bytes, pointer, size)
    {
      pointer, left := Allocate(size, available);
    }

    /** Allocate `count` times `size` zero bytes, refusing a product that overflows. */
    method Kcalloc(count: nat, size: nat, available: nat) returns (pointer: nat, left: nat)
      requires Valid() && count <= SIZE_MAX && size <= SIZE_MAX
      modifies this`blocks, this`bytes, this`first, this`last, this`mapped, this`layout
      ensures Valid()
      ensures pointer != NULL <==>
        count * size <= SIZE_MAX && CanAllocate(old(layout), ready, old(mapped), count * size, available)
      ensures pointer == NULL ==> left == available && layout == old(layout) && bytes == old(bytes)
      ensures Paid(old(mapped), mapped, available, left, pointer != NULL, old(layout), count * size)
      ensures pointer != NULL ==> Served(old(layout), old(bytes), layout, bytes, pointer, count * size)
      ensures pointer != NULL ==> forall x :: 0 <= x < count * size ==> Filled(bytes, pointer, x)
    {
      hide Served, Lives, Kept, Coalesced, Linked, Start, Sized;
      pointer, left := NULL, available;
      if count == 0 || size == 0 {
        ZeroProduct(count, size);
        return;
      }
      OverflowTest(count, size);
      if count > SIZE_MAX / size { return; }
      pointer, left := Kmalloc(count * size, available);
      if pointer != NULL {
        ServedInside(old(layout), old(bytes), layout, bytes, pointer, count * size, mapped);
        ghost var mid := bytes;
        bytes := Stamped(bytes, pointer - BASE, Zeros(count * size));
        ServedFilled(old(layout), old(bytes), layout, mid, bytes, pointer, count * size);
      }
    }

    /** Free a pointer: succeeds exactly on NULL and on a live payload. */
    method Kfree(pointer: nat) returns (ok: bool)
      requires Valid()
      modifies this`blocks, this`bytes, this`last, this`layout
      ensures Valid()
      ensures ok <==> pointer == NULL || pointer in Lives(old(layout))
      ensures Lives(layout) == Lives(old(layout)) - {pointer} && Kept(Lives(layout), old(bytes), bytes)
      ensures pointer == NULL || !ok ==> layout == old(layout) && bytes == old(bytes)
    {
      hide Start, Linked, Safe, Kept, Coalesced, Sized, Lives;
      LivesSafe(layout);
      KeptSelf(Lives(layout), layout, bytes);
      NullNotLive(layout);
      if pointer == NULL { return true; }
      var a;
      ghost var k;
      a, k := Find(pointer);
      FoundIsLive(layout, pointer, a, k);
      ok := a != NULL;
      if a != NULL {
        ghost var keep := Lives(layout) - {pointer};
        SafeLess(Lives(layout), layout, pointer);
        Release(a, k, keep);
      }
    }

    /** Resize a payload in place or move it. A refused resize leaves it as it was. */
    method Krealloc(pointer: nat, size: nat, available: nat) returns (result: nat, left: nat)
      requires Valid()
      modifies this`blocks, this`bytes, this`first, this`last, this`mapped, this`layout
      ensures Valid()
      ensures pointer == NULL ==> (result != NULL <==> CanAllocate(old(layout), ready, old(mapped), size, available))
      ensures pointer != NULL && size > 0 ==>
        (result != NULL <==> CanResize(old(layout), ready, old(mapped), pointer, size, available))
      ensures pointer == NULL && result != NULL ==> Served(old(layout), old(bytes), layout, bytes, result, size)
      ensures pointer != NULL && size == 0 ==>
        && result == NULL && Lives(layout) == Lives(old(layout)) - {pointer}
        && Kept(Lives(layout), old(bytes), bytes)
      ensures Paid(old(mapped), mapped, available, left, result != NULL && Moves(old(layout), pointer, size),
                   old(layout), size)
      ensures size > 0 && result == NULL ==> left == available && layout == old(layout) && bytes == old(bytes)
      ensures pointer != NULL && result != NULL ==>
        Resized(old(layout), old(bytes), layout, bytes, pointer, result, size)
      ensures pointer != NULL && pointer in Lives(old(layout)) && 0 < size <= Lives(old(layout))[pointer] ==>
        result == pointer
    {
      hide Start, Linked, Safe, Kept, Coalesced, Sized, Lives, Served, Resized, CanAllocate, FitsInPlace;
      left := available;
      if pointer == NULL {
        result, left := Kmalloc(size, available);
        return;
      }
      if size == 0 {
        var _ := Kfree(pointer);
        return NULL, left;
      }
      var a;
      ghost var k;
      a, k := Find(pointer);
      FoundIsLive(layout, pointer, a, k);
      var wanted := Aligned(size);
      result := NULL;
      if a == NULL || wanted == 0 {
        LiveBound(layout, pointer, mapped);
        return;
      }
      InPlaceAt(layout, k, pointer, wanted);
      LinkAt(blocks, layout, k);
      NextAddress(layout, k);
      NeighbourBlocks(blocks, layout, k);
      if k + 1 < |layout| { LinkAt(blocks, layout, k + 1); }
      var b := BlockAt(blocks, a);
      var next := BlockAt(blocks, b.next);
      if wanted <= b.size {
        ShrinkBlock(a, wanted, k, size);
        result := pointer;
      } else if b.next != NULL && next.free && b.size + HEADER + next.size >= wanted {
        AbsorbNext(a, wanted, k, size);
        result := pointer;
      } else {
        SizedAt(layout, k, size, wanted);
        result, left := MoveBlock(a, k, pointer, size, available);
      }
    }

    method ShrinkBlock(a: nat, wanted: nat, ghost k: nat, ghost size: nat)
      requires Valid() && k < |layout| && a == Start(layout, k) && !layout[k].free && wanted % ALIGNMENT == 0
      requires ALIGNMENT <= wanted <= layout[k].size
      requires 0 < size <= wanted
      modifies this`blocks, this`bytes, this`last, this`layout
      ensures Valid() && Resized(old(layout), old(bytes), layout, bytes, a + HEADER, a + HEADER, size)
    {
      hide Start, Linked, Safe, Kept, Coalesced, Sized, Lives, Resized, SplitTo, Marked;
      ghost var l, keep := layout, Lives(layout)[a + HEADER := wanted];
      LivesSafe(l);
      HeaderNotNull(l, k);
      FoundIsLive(l, a + HEADER, a, k);
      SafeShorter(Lives(l), l, a + HEADER, wanted);
      Split(a, wanted, k, keep);
      LiveCoalesced(l, k, wanted);
      InPlaceLives(l, k, wanted);
      ResizedInPlace(l, old(bytes), layout, bytes, a + HEADER, size, wanted, keep);
    }

    method AbsorbNext(a: nat, wanted: nat, ghost k: nat, ghost size: nat)
      requires Valid() && k + 1 < |layout| && a == Start(layout, k) && !layout[k].free && layout[k + 1].free
      requires wanted % ALIGNMENT == 0 && ALIGNMENT <= wanted
      requires layout[k].size < wanted <= layout[k].size + HEADER + layout[k + 1].size
      requires 0 < size <= wanted
      modifies this`blocks, this`bytes, this`last, this`layout
      ensures Valid() && Resized(old(layout), old(bytes), layout, bytes, a + HEADER, a + HEADER, size)
    {
      hide Start, Linked, Safe, Kept, Coalesced, Sized, Lives, Resized, SplitTo, Marked, JoinAt;
      ghost var l, keep := layout, Lives(layout);
      LivesSafe(l);
      HeaderNotNull(l, k);
      FoundIsLive(l, a + HEADER, a, k);
      JoinNext(a, k, keep);
      ghost var m, mid := layout, bytes;
      JoinedSize(l, k);
      Split(a, wanted, k, keep);
      KeptTwice(keep, old(bytes), mid, bytes);
      JoinCoalesced(l, k);
      LiveCoalesced(m, k, wanted);
      JoinLives(l, k);
      InPlaceLives(m, k, wanted);
      assert keep == keep[a + HEADER := l[k].size];
      assert Lives(layout) == keep[a + HEADER := Lives(layout)[a + HEADER]];
      ResizedInPlace(l, old(bytes), layout, bytes, a + HEADER, size, l[k].size, keep);
    }

    /** Allocate anew, copy the payload, free the old block. */
    method MoveBlock(a: nat, ghost k: nat, pointer: nat, size: nat, available: nat) returns (result: nat, left: nat)
      requires Valid() && k < |layout| && a == Start(layout, k) && !layout[k].free && pointer == a + HEADER
      requires layout[k].size < size
      modifies this`blocks, this`bytes, this`first, this`last, this`mapped, this`layout
      ensures Valid()
      ensures result != NULL <==> CanAllocate(old(layout), ready, old(mapped), size, available)
      ensures result == NULL ==> left == available && layout == old(layout) && bytes == old(bytes)
      ensures Paid(old(mapped), mapped, available, left, result != NULL, old(layout), size)
      ensures result != NULL ==> Resized(old(layout), old(bytes), layout, bytes, pointer, result, size)
    {
      hide Start, Linked, Safe, Kept, Coalesced, Sized, Lives, Resized, Served, CanAllocate;
      ghost var l := layout;
      LinkAt(blocks, layout, k);
      NextAddress(layout, k);
      HeaderNotNull(l, k);
      FoundIsLive(l, pointer, a, k);
      var count := BlockAt(blocks, a).size;
      result, left := Allocate(size, available);
      if result == NULL { return; }
      ghost var m, mid := layout, bytes;
      ServedRanges(l, old(bytes), m, mid, pointer, result, size, mapped);
      bytes := Stamped(bytes, result - BASE, bytes[pointer - BASE..pointer - BASE + count]);
      ghost var i := StillLive(l, old(bytes), m, mid, pointer, result, size);
      ghost var keep := Lives(m) - {pointer};
      LivesSafe(m);
      SafeLess(Lives(m), m, pointer);
      ghost var copied := bytes;
      LiveIs(m, i, pointer, Lives(l)[pointer]);
      SameStart(l, k, m, i);
      Release(a, i, keep);
      Moved(l, old(bytes), m, mid, copied, layout, bytes, pointer, result, size, count);
    }

    /** Map more pages at the end; all of them, or none stays. `available` pages can be had. */
    method Grow(amount: nat, available: nat, ghost keep: map<nat, nat>) returns (ok: bool, left: nat)
      requires Wired() && amount <= LIMIT && Safe(keep, layout)
      modifies this`blocks, this`bytes, this`first, this`last, this`mapped, this`layout
      ensures Wired() && Safe(keep, layout) && Kept(keep, old(bytes), bytes)
      ensures ok <==> 0 < Pages(amount) <= available && Pages(amount) * PAGE <= LIMIT - old(mapped)
      ensures ok ==> left == available - Pages(amount) && layout == Grown(old(layout), Pages(amount) * PAGE)
      ensures ok ==> mapped == old(mapped) + Pages(amount) * PAGE
      ensures !ok ==> left == available && layout == old(layout) && bytes == old(bytes) && mapped == old(mapped)
    {
      hide Start, Safe, Kept, Linked;
      var growth := (amount + PAGE - 1) / PAGE * PAGE;
      left := available;
      KeptSelf(keep, layout, bytes);
      if growth == 0 || growth > LIMIT - mapped { return false, left; }
      var added := 0;
      while added < growth && left > 0
        invariant added % PAGE == 0 && added <= growth && left == available - added / PAGE
      {
        left := left - 1;
        added := added + PAGE;
      }
      if added != growth {
        assert available < Pages(amount);
        while added > 0
          invariant added >= 0 && added % PAGE == 0 && left == available - added / PAGE
        {
          added := added - PAGE;
          left := left + 1;
        }
        return false, left;
      }
      Extend(growth, keep);
      ok := true;
    }

    /** Give new memory to a free last block, or make it a block of its own. */
    method Extend(growth: nat, ghost keep: map<nat, nat>)
      requires Wired() && growth % PAGE == 0 && 0 < growth <= LIMIT - mapped && Safe(keep, layout)
      modifies this`blocks, this`bytes, this`first, this`last, this`mapped, this`layout
      ensures Wired() && Safe(keep, layout) && Kept(keep, old(bytes), bytes) && layout == Grown(old(layout), growth)
      ensures mapped == old(mapped) + growth
    {
      hide Start, Safe, Kept, Linked, Sized, Tailed, Grown, Header, BlockAt;
      assert |Zeros(growth)| == growth;
      var junk: seq<byte> :| |junk| == growth;
      ghost var l, m := layout, Grown(layout, growth);
      GrownSafe(keep, l, growth);
      GrownStarts(l, growth);
      KeptMore(keep, l, bytes, junk);
      bytes := bytes + junk;
      ghost var mid := bytes;
      LastFree(blocks, l, first, last);
      AddTail(growth, l, m, keep);
      KeptTwice(keep, old(bytes), mid, bytes);
      GrownLinked(old(blocks), l, growth, old(first), old(last), blocks);
      PagesAligned(growth);
      GrownSized(l, growth);
      mapped := mapped + growth;
      layout := m;
    }

    /** Write the headers the new memory needs. */
    method AddTail(growth: nat, ghost l: seq<Chunk>, ghost m: seq<Chunk>, ghost keep: map<nat, nat>)
      requires growth >= HEADER && m == Grown(l, growth) && |m| > 0 && End(l) == BASE + mapped
      requires End(m) == BASE + |bytes| && Safe(keep, m)
      requires forall i :: 0 <= i <= |l| && i < |m| ==> Start(m, i) == Start(l, i)
      requires last == NULL <==> l == []
      requires l != [] ==> last == Start(l, |l| - 1) && BlockAt(blocks, last) == Header(l, |l| - 1)
      modifies this`blocks, this`bytes, this`first, this`last
      ensures Tailed(old(blocks), growth, End(l), old(last), blocks)
      ensures |bytes| == |old(bytes)| && Kept(keep, old(bytes), bytes)
      ensures first == if l == [] then End(l) else old(first)
      ensures last == if old(last) != NULL && BlockAt(old(blocks), old(last)).free then old(last) else End(l)
    {
      hide Start, Safe, Kept;
      if last != NULL && BlockAt(blocks, last).free {
        PutHeader(last, BlockAt(blocks, last).(size := BlockAt(blocks, last).size + growth), m, |m| - 1, keep);
      } else {
        var a := BASE + mapped;
        PutHeader(a, Block(growth - HEADER, last, NULL, true), m, |m| - 1, keep);
        if last != NULL {
          ghost var after := bytes;
          PutHeader(last, BlockAt(blocks, last).(next := a), m, |m| - 2, keep);
          KeptTwice(keep, old(bytes), after, bytes);
        } else {
          first := a;
        }
        last := a;
      }
    }

    /** Absorb the free block that follows. */
    method JoinNext(a: nat, ghost k: nat, ghost keep: map<nat, nat>)
      requires Wired() && k + 1 < |layout| && a == Start(layout, k) && layout[k + 1].free && Safe(keep, layout)
      modifies this`blocks, this`bytes, this`last, this`layout
      ensures Wired() && layout == JoinAt(old(layout), k) && Safe(keep, layout) && Kept(keep, old(bytes), bytes)
    {
      hide Start, Safe, Kept, Linked, JoinAt, Sized, Ends;
      ghost var l, m := layout, JoinAt(layout, k);
      JoinSafe(keep, l, k);
      LinkAt(blocks, l, k);
      LinkAt(blocks, l, k + 1);
      NextAddress(l, k);
      NextAddress(l, k + 1);
      JoinHeader(l, k, k);
      var b := BlockAt(blocks, a);
      var n := BlockAt(blocks, b.next);
      PutHeader(a, Block(b.size + HEADER + n.size, b.previous, n.next, b.free), m, k, keep);
      if n.next != NULL {
        ghost var mid := bytes;
        JoinHeader(l, k, k + 1);
        PutHeader(n.next, BlockAt(blocks, n.next).(previous := a), m, k + 1, keep);
        KeptTwice(keep, old(bytes), mid, bytes);
      } else {
        last := a;
      }
      JoinedBlocks(old(blocks), blocks, l, k);
      JoinLinked(old(blocks), l, k, blocks);
      JoinedEnds(l, k, first, old(last), last);
      JoinedSized(l, k);
      layout := m;
    }
  }

  lemma SplitSized(l: seq<Chunk>, k: nat, size: nat)
    requires Sized(l) && k < |l| && size % ALIGNMENT == 0 && size >= ALIGNMENT && size + HEADER + ALIGNMENT <= l[k].size
    ensures Sized(SplitAt(l, k, size))
  {
  }

  lemma SplitEnds(l: seq<Chunk>, k: nat, size: nat, first: nat, last: nat, last': nat)
    requires k < |l| && size + HEADER <= l[k].size && Ends(l, first, last)
    requires last' == if k + 1 < |l| then last else Start(l, k) + HEADER + size
    ensures Ends(SplitAt(l, k, size), first, last')
  {
    SplitStart(l, k, size, 0);
    SplitStart(l, k, size, |l| - 1);
    SplitStart(l, k, size, k);
  }

  lemma SplitWritten(blocks: map<nat, Block>, blocks': map<nat, Block>, l: seq<Chunk>, k: nat, size: nat)
    requires Linked(blocks, l) && k < |l| && size + HEADER <= l[k].size
    requires var a := Start(l, k); var b := BlockAt(blocks, a); var rest := a + HEADER + size;
      b.size >= size + HEADER && var put := blocks[rest := Block(b.size - size - HEADER, a, b.next, true)];
      var relinked := if b.next != NULL then put[b.next := BlockAt(put, b.next).(previous := rest)] else put;
      blocks' == relinked[a := Block(size, b.previous, rest, b.free)]
    ensures SplitBlocks(blocks, blocks', Start(l, k), size)
  {
    hide Start, Linked;
    LinkAt(blocks, l, k);
    NextAddress(l, k);
    if k + 1 < |l| {
      Apart(l, k, k + 1);
      Within(l, k, size, k + 1);
    }
    Within(l, k, size, k);
  }

  lemma SplitToKeeps(l: seq<Chunk>, k: nat, size: nat)
    requires k < |l| && size <= l[k].size && l[k].size - size >= HEADER + ALIGNMENT
    ensures var m := SplitAt(l, k, size); |m| == |l| + 1 && m[k + 1].free && (k + 1 < |l| ==> m[k + 2] == l[k + 1])
  {
  }

  /** A request rounded up to the alignment; zero for one that can never be met. */
  function Aligned(size: nat): (r: nat)
    ensures r == 0 <==> size == 0 || size > LIMIT - HEADER
    ensures r > 0 ==> size <= r < size + ALIGNMENT && r % ALIGNMENT == 0 && ALIGNMENT <= r <= LIMIT - HEADER
  {
    if size == 0 || size > LIMIT - HEADER then 0 else (size + ALIGNMENT - 1) / ALIGNMENT * ALIGNMENT
  }

  /** What a request for `size` bytes still lacks at the end of the heap. */
  ghost function Lacking(l: seq<Chunk>, wanted: nat): int
    requires l != []
  {
    if l[|l| - 1].free then wanted - l[|l| - 1].size else wanted + HEADER
  }

  /** When an allocation succeeds: some free block fits, or the missing pages can be had. */
  ghost predicate CanAllocate(l: seq<Chunk>, ready: bool, mapped: nat, size: nat, available: nat) {
    var wanted := Aligned(size);
    && ready && wanted > 0 && l != []
    && (|| (exists i :: 0 <= i < |l| && Fits(l[i], wanted))
        || (&& Lacking(l, wanted) > 0 && Pages(Lacking(l, wanted)) <= available
            && Pages(Lacking(l, wanted)) * PAGE <= LIMIT - mapped))
  }

  /** The pages a request for `size` bytes takes: none if a free block fits, otherwise what is lacking. */
  ghost function Cost(l: seq<Chunk>, size: nat): nat {
    if l == [] || (exists i :: 0 <= i < |l| && Fits(l[i], Aligned(size))) then 0
    else if Lacking(l, Aligned(size)) > 0 then Pages(Lacking(l, Aligned(size))) else 0
  }

  /** Exactly the pages of the request were taken, and all of them were mapped. */
  ghost predicate Paid(before: nat, after: nat, available: nat, left: nat, served: bool, l: seq<Chunk>, size: nat) {
    var cost := if served then Cost(l, size) else 0;
    cost <= available && left == available - cost && after == before + cost * PAGE
  }

  /** The block of `pointer` holds `wanted` bytes, alone or with its free successor. */
  ghost predicate FitsInPlace(l: seq<Chunk>, pointer: nat, wanted: nat) {
    exists k :: 0 <= k < |l| && Start(l, k) + HEADER == pointer && !l[k].free &&
      (wanted <= l[k].size || (k + 1 < |l| && l[k + 1].free && wanted <= l[k].size + HEADER + l[k + 1].size))
  }

  lemma InPlaceAt(l: seq<Chunk>, k: nat, pointer: nat, wanted: nat)
    requires k < |l| && Start(l, k) + HEADER == pointer && !l[k].free
    ensures FitsInPlace(l, pointer, wanted) <==>
      wanted <= l[k].size || (k + 1 < |l| && l[k + 1].free && wanted <= l[k].size + HEADER + l[k + 1].size)
  {
    hide Start;
    if FitsInPlace(l, pointer, wanted) {
      var j :| 0 <= j < |l| && Start(l, j) + HEADER == pointer && !l[j].free &&
        (wanted <= l[j].size || (j + 1 < |l| && l[j + 1].free && wanted <= l[j].size + HEADER + l[j + 1].size));
      Apart(l, j, k);
    }
  }

  /** A request that is not met where the payload is. */
  ghost predicate Moves(l: seq<Chunk>, pointer: nat, size: nat) {
    pointer == NULL || !FitsInPlace(l, pointer, Aligned(size))
  }

  /** When a live payload can be resized: in place, or by moving it. */
  ghost predicate CanResize(l: seq<Chunk>, ready: bool, mapped: nat, pointer: nat, size: nat, available: nat) {
    && pointer in Lives(l) && Aligned(size) > 0
    && (FitsInPlace(l, pointer, Aligned(size)) || CanAllocate(l, ready, mapped, size, available))
  }

  /** The request was served by a payload that was not live before, large enough; every
      payload that was live still is, with the same bytes. */
  ghost predicate Served(l: seq<Chunk>, bytes: seq<byte>, l': seq<Chunk>, bytes': seq<byte>, pointer: nat, size: nat) {
    && pointer !in Lives(l) && pointer in Lives(l') && size <= Lives(l')[pointer] && pointer % ALIGNMENT == 0
    && Lives(l') == Lives(l)[pointer := Lives(l')[pointer]] && Kept(Lives(l), bytes, bytes')
  }

  lemma ServedBy(l: seq<Chunk>, bytes: seq<byte>, l': seq<Chunk>, bytes': seq<byte>, pointer: nat, size: nat, n: nat)
    requires Sized(l') && pointer !in Lives(l) && Kept(Lives(l), bytes, bytes') && size <= n
    requires Lives(l') == Lives(l)[pointer := n]
    ensures Served(l, bytes, l', bytes', pointer, size)
  {
    LivesAre(l', pointer, n);
    LiveDisjoint(l', pointer, n, pointer, n);
  }

  /** A free block's payload is not live. */
  lemma FreeNotLive(l: seq<Chunk>, k: nat)
    requires k < |l| && l[k].free
    ensures Start(l, k) + HEADER !in Lives(l)
  {
    if Start(l, k) + HEADER in Lives(l) {
      var i := LivesToFrom(l, |l|, Start(l, k) + HEADER);
      Apart(l, i, k);
      assert false;
    }
  }

  lemma SplitToFirst(l: seq<Chunk>, k: nat, size: nat)
    requires k < |l| && size <= l[k].size
    ensures k < |SplitTo(l, k, size)| && Start(SplitTo(l, k, size), k) == Start(l, k)
    ensures SplitTo(l, k, size)[k].free == l[k].free
    ensures SplitTo(l, k, size)[k].size == if l[k].size - size < HEADER + ALIGNMENT then l[k].size else size
  {
    if l[k].size - size >= HEADER + ALIGNMENT {
      SplitStart(l, k, size, k);
      SplitToKeeps(l, k, size);
      if k + 1 < |l| && l[k + 1].free { JoinStart(SplitAt(l, k, size), k + 1, k); }
    }
  }

  /** A split leaves every payload but the block's own. */
  lemma SplitToLive(l: seq<Chunk>, k: nat, size: nat, p: nat, n: nat)
    requires k < |l| && size <= l[k].size
    ensures LiveAt(SplitTo(l, k, size), p, n) <==>
      if !l[k].free && p == Start(l, k) + HEADER then n == SplitTo(l, k, size)[k].size else LiveAt(l, p, n)
  {
    SplitToFirst(l, k, size);
    hide Start, LiveAt, JoinAt;
    if l[k].size - size < HEADER + ALIGNMENT {
      if !l[k].free { LiveSize(l, k, n); }
    } else {
      SplitLive(l, k, size, p, n);
      SplitToKeeps(l, k, size);
      if k + 1 < |l| && l[k + 1].free { JoinLive(SplitAt(l, k, size), k + 1, p, n); }
    }
  }

  lemma LiveSize(l: seq<Chunk>, k: nat, n: nat)
    requires k < |l| && !l[k].free
    ensures LiveAt(l, Start(l, k) + HEADER, n) <==> n == l[k].size
  {
    assert IsLive(l, k, Start(l, k) + HEADER, l[k].size);
    if LiveAt(l, Start(l, k) + HEADER, n) { OneSize(l, Start(l, k) + HEADER, n, l[k].size); }
  }

  /** Taking a free block adds its payload to the live ones. */
  lemma TakenLives(l: seq<Chunk>, k: nat, size: nat)
    requires k < |l| && Fits(l[k], size)
    ensures k < |SplitTo(l, k, size)| && Lives(Marked(SplitTo(l, k, size), k, false)) ==
      Lives(l)[Start(l, k) + HEADER := if l[k].size - size < HEADER + ALIGNMENT then l[k].size else size]
  {
    SplitToFirst(l, k, size);
    var m, q := SplitTo(l, k, size), Start(l, k) + HEADER;
    var map' := Lives(l)[q := m[k].size];
    hide Start, LiveAt, Lives, SplitTo, Marked;
    forall p, n
      ensures LiveAt(Marked(m, k, false), p, n) <==> p in map' && map'[p] == n
    {
      MarkedLive(m, k, false, p, n);
      SplitToLive(l, k, size, p, n);
      LivesAre(l, p, n);
    }
    LivesIs(Marked(m, k, false), map');
  }

  /** Once the block is taken, no two neighbours are free. */
  lemma TakenCoalesced(l: seq<Chunk>, k: nat, size: nat)
    requires k < |l| && size <= l[k].size && (Coalesced(l) || Coalesced(Marked(l, k, false)))
    ensures k < |SplitTo(l, k, size)| && Coalesced(Marked(SplitTo(l, k, size), k, false))
    ensures Marked(SplitTo(l, k, size), k, false) != []
  {
    SplitToFirst(l, k, size);
    CoalescedParts(l, k);
    if l[k].size - size >= HEADER + ALIGNMENT {
      TakenIs(l, k, size);
      hide SplitTo, Marked, Coalesced;
      var rest := l[k].size - size - HEADER;
      if k + 1 < |l| && l[k + 1].free {
        CoalescedAround(l[..k], size, rest + HEADER + l[k + 1].size, l[k + 2..]);
      } else {
        CoalescedAround(l[..k], size, rest, l[k + 1..]);
      }
    }
  }

  lemma TakenIs(l: seq<Chunk>, k: nat, size: nat)
    requires k < |l| && size <= l[k].size && l[k].size - size >= HEADER + ALIGNMENT
    ensures k < |SplitTo(l, k, size)| && var rest := l[k].size - size - HEADER;
      Marked(SplitTo(l, k, size), k, false) ==
        if k + 1 < |l| && l[k + 1].free
        then l[..k] + [Chunk(size, false), Chunk(rest + HEADER + l[k + 1].size, true)] + l[k + 2..]
        else l[..k] + [Chunk(size, false), Chunk(rest, true)] + l[k + 1..]
  {
    var a, b := Chunk(size, l[k].free), Chunk(l[k].size - size - HEADER, true);
    if k + 1 < |l| && l[k + 1].free {
      assert l[..k] + [a, b] + l[k + 1..] == l[..k] + [a, b, l[k + 1]] + l[k + 2..];
      JoinMiddle(l[..k], a, b, l[k + 1], l[k + 2..]);
    } else {
      MarkMiddle(l[..k], a, b, l[k + 1..]);
    }
  }

  lemma MarkMiddle(p: seq<Chunk>, a: Chunk, b: Chunk, q: seq<Chunk>)
    ensures Marked(p + [a, b] + q, |p|, false) == p + [Chunk(a.size, false), b] + q
  {
  }

  lemma JoinMiddle(p: seq<Chunk>, a: Chunk, b: Chunk, c: Chunk, q: seq<Chunk>)
    ensures var l := p + [a, b, c] + q; var joined := Chunk(b.size + HEADER + c.size, b.free);
      |p| + 2 < |l| && JoinAt(l, |p| + 1) == p + [a, joined] + q
    ensures Marked(JoinAt(p + [a, b, c] + q, |p| + 1), |p|, false) ==
      p + [Chunk(a.size, false), Chunk(b.size + HEADER + c.size, b.free)] + q
  {
    var l := p + [a, b, c] + q;
    assert l[..|p| + 1] == p + [a] && l[|p| + 3..] == q;
    assert JoinAt(l, |p| + 1) == p + [a, Chunk(b.size + HEADER + c.size, b.free)] + q;
  }

  /** The blocks before and after one of them, and that one taken. */
  lemma CoalescedParts(l: seq<Chunk>, k: nat)
    requires k < |l| && (Coalesced(l) || Coalesced(Marked(l, k, false)))
    ensures Coalesced(l[..k]) && Coalesced(l[k + 1..]) && Coalesced(Marked(l, k, false))
    ensures k + 2 <= |l| ==> Coalesced(l[k + 2..]) && (l[k + 1].free && k + 2 < |l| ==> !l[k + 2].free)
  {
    var m := if Coalesced(l) then l else Marked(l, k, false);
    assert forall i :: 0 <= i < |l| && i != k ==> m[i] == l[i];
    forall i | 0 <= i < |l| - 1 && i != k && i + 1 != k
      ensures !(l[i].free && l[i + 1].free)
    {
      assert !(m[i].free && m[i + 1].free);
    }
  }

  lemma CoalescedAround(before: seq<Chunk>, size: nat, rest: nat, after: seq<Chunk>)
    requires Coalesced(before) && Coalesced(after) && (after == [] || !after[0].free)
    ensures Coalesced(before + [Chunk(size, false), Chunk(rest, true)] + after)
  {
    var r := before + [Chunk(size, false), Chunk(rest, true)] + after;
    forall i | 0 <= i < |r| - 1
      ensures !(r[i].free && r[i + 1].free)
    {
      var j := i - |before| - 2;
      if j >= 0 { assert r[i] == after[j] && r[i + 1] == after[j + 1]; }
      if i + 1 < |before| { assert r[i] == before[i] && r[i + 1] == before[i + 1]; }
    }
  }

  /** The tiling after a block is freed: joined with the next, then with the previous. */
  ghost function FreedNext(l: seq<Chunk>, k: nat): seq<Chunk>
    requires k < |l|
  {
    if k + 1 < |l| && l[k + 1].free then JoinAt(Marked(l, k, true), k) else Marked(l, k, true)
  }

  ghost function Freed(l: seq<Chunk>, k: nat): seq<Chunk>
    requires k < |l|
  {
    if k > 0 && l[k - 1].free then JoinAt(FreedNext(l, k), k - 1) else FreedNext(l, k)
  }

  lemma MarkedIs(l: seq<Chunk>, k: nat, free: bool)
    requires k < |l|
    ensures |Marked(l, k, free)| == |l| && Marked(l, k, free)[k] == Chunk(l[k].size, free)
    ensures Start(Marked(l, k, free), k) == Start(l, k)
    ensures forall i :: 0 <= i < |l| && i != k ==> Marked(l, k, free)[i] == l[i]
  {
    MarkedStart(l, k, free, k);
  }

  lemma JoinedIs(l: seq<Chunk>, k: nat)
    requires k + 1 < |l| && l[k + 1].free
    ensures |JoinAt(l, k)| == |l| - 1 && JoinAt(l, k)[k].free == l[k].free && Start(JoinAt(l, k), k) == Start(l, k)
    ensures forall i :: 0 <= i < k ==> JoinAt(l, k)[i] == l[i]
    ensures forall i :: k < i < |l| - 1 ==> JoinAt(l, k)[i] == l[i + 1]
  {
    JoinStart(l, k, k);
  }

  /** The blocks a header links to. */
  lemma NeighbourBlocks(blocks: map<nat, Block>, l: seq<Chunk>, k: nat)
    requires Linked(blocks, l) && k < |l|
    ensures var b := BlockAt(blocks, Start(l, k));
      && (b.next != NULL <==> k + 1 < |l|) && (b.next != NULL ==> BlockAt(blocks, b.next).free == l[k + 1].free)
      && (b.previous != NULL <==> k > 0)
      && (b.previous != NULL ==> b.previous == Start(l, k - 1) && BlockAt(blocks, b.previous).free == l[k - 1].free)
  {
    hide Linked;
    LinkAt(blocks, l, k);
    if k + 1 < |l| {
      LinkAt(blocks, l, k + 1);
      HeaderNotNull(l, k + 1);
    }
    if k > 0 {
      LinkAt(blocks, l, k - 1);
      HeaderNotNull(l, k - 1);
    }
  }

  lemma FreedNextIs(l: seq<Chunk>, k: nat)
    requires k < |l|
    ensures var n := FreedNext(l, k); var to := if k + 1 < |l| && l[k + 1].free then k + 2 else k + 1;
      && |n| == |l| - (to - k) + 1 && n[k].free && Start(n, k) == Start(l, k)
      && (forall i :: 0 <= i < k ==> n[i] == l[i])
      && (forall i :: k < i < |n| ==> n[i] == l[to + i - k - 1])
  {
    MarkedIs(l, k, true);
    if k + 1 < |l| && l[k + 1].free { JoinedIs(Marked(l, k, true), k); }
    hide Start, Marked, JoinAt;
  }

  lemma FreedNextLive(l: seq<Chunk>, k: nat, p: nat, x: nat)
    requires k < |l|
    ensures LiveAt(FreedNext(l, k), p, x) <==> p != Start(l, k) + HEADER && LiveAt(l, p, x)
  {
    hide Start, LiveAt, Marked, JoinAt;
    MarkedIs(l, k, true);
    MarkedLive(l, k, true, p, x);
    if k + 1 < |l| && l[k + 1].free { JoinLive(Marked(l, k, true), k, p, x); }
  }

  lemma ReleasedLive(l: seq<Chunk>, k: nat, p: nat, x: nat)
    requires k < |l|
    ensures LiveAt(Freed(l, k), p, x) <==> p != Start(l, k) + HEADER && LiveAt(l, p, x)
  {
    hide Start, LiveAt, FreedNext, JoinAt;
    FreedNextIs(l, k);
    FreedNextLive(l, k, p, x);
    if k > 0 && l[k - 1].free { JoinLive(FreedNext(l, k), k - 1, p, x); }
  }

  lemma ReleasedLives(l: seq<Chunk>, k: nat)
    requires k < |l|
    ensures Lives(Freed(l, k)) == Lives(l) - {Start(l, k) + HEADER}
  {
    hide Start, LiveAt, Lives, Freed;
    var rest := Lives(l) - {Start(l, k) + HEADER};
    forall p: nat, x: nat
      ensures LiveAt(Freed(l, k), p, x) <==> p in rest && rest[p] == x
    {
      LivesAre(l, p, x);
      ReleasedLive(l, k, p, x);
    }
    LivesIs(Freed(l, k), rest);
  }

  lemma ReleasedCoalesced(l: seq<Chunk>, k: nat)
    requires k < |l| && Coalesced(l)
    ensures Coalesced(Freed(l, k)) && Freed(l, k) != []
  {
    FreedNextIs(l, k);
    var n := FreedNext(l, k);
    hide FreedNext, Start;
    forall i | 0 <= i < |n| - 1 && i != k - 1
      ensures !(n[i].free && n[i + 1].free)
    {
      if i + 1 < k { assert !(l[i].free && l[i + 1].free); }
    }
    if k > 0 && l[k - 1].free {
      JoinedIs(n, k - 1);
      var r := JoinAt(n, k - 1);
      hide JoinAt;
      forall i | 0 <= i < |r| - 1
        ensures !(r[i].free && r[i + 1].free)
      {
        if i + 1 == k - 1 { assert l[i + 1].free && !l[i].free; }
        if i + 1 > k - 1 { assert r[i + 1] == n[i + 2]; }
      }
    }
  }

  predicate Filled(bytes: seq<byte>, p: nat, x: nat) {
    p >= BASE && p - BASE + x < |bytes| && bytes[p - BASE + x] == 0
  }

  lemma ZeroProduct(count: nat, size: nat)
    requires count == 0 || size == 0
    ensures count * size == 0
  {
  }

  /** The overflow test is exact. */
  lemma OverflowTest(count: nat, size: nat)
    requires size > 0
    ensures count > SIZE_MAX / size <==> count * size > SIZE_MAX
  {
    var q := SIZE_MAX / size;
    Layout.DivisionBounds(SIZE_MAX, size);
    if count <= q {
      Layout.MulMonotone(count, q, size);
    } else {
      Layout.MulMonotone(q + 1, count, size);
    }
  }

  lemma ServedInside(l: seq<Chunk>, bytes: seq<byte>, l': seq<Chunk>, bytes': seq<byte>, pointer: nat, size: nat,
                     mapped: nat)
    requires Served(l, bytes, l', bytes', pointer, size) && Sized(l') && End(l') == BASE + mapped
    ensures BASE <= pointer && pointer + size <= BASE + mapped
  {
    LivesAre(l', pointer, Lives(l')[pointer]);
    LiveDisjoint(l', pointer, Lives(l')[pointer], pointer, Lives(l')[pointer]);
  }

  /** Filling the new payload leaves the others alone. */
  lemma ServedFilled(l: seq<Chunk>, bytes: seq<byte>, l': seq<Chunk>, mid: seq<byte>, bytes': seq<byte>, pointer: nat,
                     size: nat)
    requires Served(l, bytes, l', mid, pointer, size) && Sized(l') && pointer >= BASE && pointer - BASE + size <= |mid|
    requires bytes' == Stamped(mid, pointer - BASE, Zeros(size))
    ensures Served(l, bytes, l', bytes', pointer, size) && forall x :: 0 <= x < size ==> Filled(bytes', pointer, x)
  {
    hide Lives, Start;
    forall p, x | p in Lives(l) && 0 <= x < Lives(l)[p]
      ensures Same(bytes, bytes', p, x)
    {
      assert Same(bytes, mid, p, x);
      LivesAre(l', p, Lives(l)[p]);
      LivesAre(l', pointer, Lives(l')[pointer]);
      LiveDisjoint(l', p, Lives(l)[p], pointer, Lives(l')[pointer]);
    }
  }

  lemma NullNotLive(l: seq<Chunk>)
    ensures NULL !in Lives(l)
  {
    if NULL in Lives(l) {
      var k := LivesToFrom(l, |l|, NULL);
      assert false;
    }
  }

  lemma FoundIsLive(l: seq<Chunk>, pointer: nat, a: nat, k: nat)
    requires a == NULL ==> forall n :: !LiveAt(l, pointer, n)
    requires a != NULL ==> k < |l| && a == Start(l, k) && !l[k].free && pointer == a + HEADER
    ensures a != NULL <==> pointer in Lives(l)
    ensures a != NULL ==> Lives(l)[pointer] == l[k].size
  {
    hide Lives;
    if pointer in Lives(l) { LivesAre(l, pointer, Lives(l)[pointer]); }
    if a != NULL {
      assert IsLive(l, k, pointer, l[k].size);
      LivesAre(l, pointer, l[k].size);
    }
  }

  lemma SafeLess(keep: map<nat, nat>, l: seq<Chunk>, p: nat)
    requires Safe(keep, l)
    ensures Safe(keep - {p}, l)
  {
    forall q | q in keep - {p}
      ensures exists k :: 0 <= k < |l| && Holds(l, k, q, (keep - {p})[q])
    {
      var k :| 0 <= k < |l| && Holds(l, k, q, keep[q]);
      assert Holds(l, k, q, (keep - {p})[q]);
    }
  }

  /** The payload at `pointer` is now at `result` with at least `size` bytes, starting with the
      old contents as far as both sizes go; every other live payload is untouched. */
  ghost predicate Resized(l: seq<Chunk>, bytes: seq<byte>, l': seq<Chunk>, bytes': seq<byte>, pointer: nat, result: nat,
                          size: nat) {
    && pointer in Lives(l) && result in Lives(l') && size <= Lives(l')[result]
    && Lives(l') == (Lives(l) - {pointer})[result := Lives(l')[result]]
    && (result == pointer || result !in Lives(l))
    && Kept(Lives(l) - {pointer}, bytes, bytes')
    && forall x :: 0 <= x < Lives(l)[pointer] && x < size ==> Carried(bytes, bytes', pointer, result, x)
  }

  predicate Carried(bytes: seq<byte>, bytes': seq<byte>, p: nat, q: nat, x: nat) {
    && p >= BASE && q >= BASE && p - BASE + x < |bytes| && q - BASE + x < |bytes'|
    && bytes'[q - BASE + x] == bytes[p - BASE + x]
  }

  lemma SizedAt(l: seq<Chunk>, k: nat, size: nat, wanted: nat)
    requires Sized(l) && k < |l| && l[k].size < wanted && wanted < size + ALIGNMENT && wanted % ALIGNMENT == 0
    ensures l[k].size < size
  {
  }

  lemma LiveBound(l: seq<Chunk>, p: nat, mapped: nat)
    requires Sized(l) && End(l) == BASE + mapped && mapped <= LIMIT
    ensures p in Lives(l) ==> Lives(l)[p] <= LIMIT - HEADER
  {
    if p in Lives(l) {
      LivesAre(l, p, Lives(l)[p]);
      LiveDisjoint(l, p, Lives(l)[p], p, Lives(l)[p]);
    }
  }

  lemma SafeShorter(keep: map<nat, nat>, l: seq<Chunk>, p: nat, n: nat)
    requires Safe(keep, l) && p in keep && n <= keep[p]
    ensures Safe(keep[p := n], l)
  {
    var shorter := keep[p := n];
    forall q | q in shorter
      ensures exists k :: 0 <= k < |l| && Holds(l, k, q, shorter[q])
    {
      var k :| 0 <= k < |l| && Holds(l, k, q, keep[q]);
      assert Holds(l, k, q, shorter[q]);
    }
  }

  /** Splitting a live block keeps neighbours apart. */
  lemma LiveCoalesced(l: seq<Chunk>, k: nat, size: nat)
    requires k < |l| && !l[k].free && size <= l[k].size && Coalesced(l)
    ensures Coalesced(SplitTo(l, k, size)) && SplitTo(l, k, size) != []
  {
    TakenCoalesced(l, k, size);
    SplitToFirst(l, k, size);
    assert Marked(SplitTo(l, k, size), k, false) == SplitTo(l, k, size);
  }

  lemma InPlaceLives(l: seq<Chunk>, k: nat, size: nat)
    requires k < |l| && !l[k].free && size <= l[k].size
    ensures k < |SplitTo(l, k, size)|
    ensures Lives(SplitTo(l, k, size)) == Lives(l)[Start(l, k) + HEADER := SplitTo(l, k, size)[k].size]
    ensures SplitTo(l, k, size)[k].size >= size && Start(l, k) + HEADER in Lives(l)
  {
    hide Start, LiveAt, Lives, SplitTo;
    SplitToFirst(l, k, size);
    LiveSize(l, k, l[k].size);
    LivesAre(l, Start(l, k) + HEADER, l[k].size);
    var m, q := SplitTo(l, k, size), Start(l, k) + HEADER;
    var map' := Lives(l)[q := m[k].size];
    forall p: nat, n: nat
      ensures LiveAt(m, p, n) <==> p in map' && map'[p] == n
    {
      SplitToLive(l, k, size, p, n);
      LivesAre(l, p, n);
    }
    LivesIs(m, map');
  }

  lemma ResizedInPlace(l: seq<Chunk>, bytes: seq<byte>, l': seq<Chunk>, bytes': seq<byte>, p: nat, size: nat, n: nat,
                       keep: map<nat, nat>)
    requires p in Lives(l) && p in Lives(l') && size <= Lives(l')[p] && Lives(l') == Lives(l)[p := Lives(l')[p]]
    requires keep == Lives(l)[p := n] && Kept(keep, bytes, bytes') && (size <= n || Lives(l)[p] <= n)
    ensures Resized(l, bytes, l', bytes', p, p, size)
  {
    hide Lives;
    assert Lives(l') == (Lives(l) - {p})[p := Lives(l')[p]];
    forall q, x | q in Lives(l) - {p} && 0 <= x < (Lives(l) - {p})[q]
      ensures Same(bytes, bytes', q, x)
    {
      assert q in keep && keep[q] == Lives(l)[q];
    }
    forall x | 0 <= x < Lives(l)[p] && x < size
      ensures Carried(bytes, bytes', p, p, x)
    {
      assert p in keep && x < keep[p];
      assert Same(bytes, bytes', p, x);
    }
  }

  lemma JoinedSize(l: seq<Chunk>, k: nat)
    requires k + 1 < |l| && l[k + 1].free
    ensures k < |JoinAt(l, k)| && JoinAt(l, k)[k] == Chunk(l[k].size + HEADER + l[k + 1].size, l[k].free)
    ensures Start(JoinAt(l, k), k) == Start(l, k)
  {
    JoinStart(l, k, k);
  }

  lemma JoinCoalesced(l: seq<Chunk>, k: nat)
    requires k + 1 < |l| && l[k + 1].free && !l[k].free && Coalesced(l)
    ensures Coalesced(JoinAt(l, k))
  {
    JoinedIs(l, k);
    var m := JoinAt(l, k);
    hide JoinAt;
    forall i | 0 <= i < |m| - 1
      ensures !(m[i].free && m[i + 1].free)
    {
      if i > k { assert m[i] == l[i + 1] && m[i + 1] == l[i + 2]; }
    }
  }

  lemma JoinLives(l: seq<Chunk>, k: nat)
    requires k + 1 < |l| && l[k + 1].free && !l[k].free
    ensures Lives(JoinAt(l, k)) == Lives(l)[Start(l, k) + HEADER := l[k].size + HEADER + l[k + 1].size]
  {
    var map' := Lives(l)[Start(l, k) + HEADER := l[k].size + HEADER + l[k + 1].size];
    hide Start, LiveAt, Lives, JoinAt;
    forall p: nat, n: nat
      ensures LiveAt(JoinAt(l, k), p, n) <==> p in map' && map'[p] == n
    {
      JoinLive(l, k, p, n);
      LivesAre(l, p, n);
    }
    LivesIs(JoinAt(l, k), map');
  }

  /** Old and new payload both lie in the range. */
  lemma ServedRanges(l: seq<Chunk>, bytes: seq<byte>, m: seq<Chunk>, mid: seq<byte>, pointer: nat, result: nat,
                     size: nat, mapped: nat)
    requires Served(l, bytes, m, mid, result, size) && pointer in Lives(l) && Lives(l)[pointer] < size && Sized(m)
    requires End(m) == BASE + mapped
    ensures BASE <= pointer && pointer + Lives(l)[pointer] <= BASE + mapped && BASE <= result
    ensures result + size <= BASE + mapped
  {
    ServedInside(l, bytes, m, mid, result, size, mapped);
    LivesAre(m, pointer, Lives(m)[pointer]);
    LiveDisjoint(m, pointer, Lives(m)[pointer], pointer, Lives(m)[pointer]);
  }

  lemma StillLive(l: seq<Chunk>, bytes: seq<byte>, m: seq<Chunk>, mid: seq<byte>, pointer: nat, result: nat, size: nat)
    returns (i: nat)
    requires Served(l, bytes, m, mid, result, size) && pointer in Lives(l)
    ensures i < |m| && IsLive(m, i, pointer, Lives(l)[pointer]) && pointer in Lives(m)
    ensures Lives(m)[pointer] == Lives(l)[pointer]
  {
    i := LivesToFrom(m, |m|, pointer);
  }

  lemma SameStart(l: seq<Chunk>, k: nat, m: seq<Chunk>, i: nat)
    requires k < |l| && i < |m| && IsLive(m, i, Start(l, k) + HEADER, m[i].size)
    ensures Start(m, i) == Start(l, k) && !m[i].free
  {
  }

  lemma Moved(l: seq<Chunk>, bytes: seq<byte>, m: seq<Chunk>, mid: seq<byte>, copied: seq<byte>, l': seq<Chunk>,
              bytes': seq<byte>, pointer: nat, result: nat, size: nat, count: nat)
    requires Sized(m) && Served(l, bytes, m, mid, result, size) && pointer in Lives(l)
    requires count == Lives(l)[pointer] < size
    requires BASE <= pointer && pointer - BASE + count <= |mid| && BASE <= result && result - BASE + size <= |mid|
    requires copied == Stamped(mid, result - BASE, mid[pointer - BASE..pointer - BASE + count])
    requires Lives(l') == Lives(m) - {pointer} && Kept(Lives(m) - {pointer}, copied, bytes')
    ensures Resized(l, bytes, l', bytes', pointer, result, size)
  {
    hide Lives, Start;
    assert Lives(l') == (Lives(l) - {pointer})[result := Lives(m)[result]];
    forall q, x | q in Lives(l) - {pointer} && 0 <= x < (Lives(l) - {pointer})[q]
      ensures Same(bytes, bytes', q, x)
    {
      assert Same(bytes, mid, q, x);
      LivesAre(m, q, Lives(l)[q]);
      LivesAre(m, result, Lives(m)[result]);
      LiveDisjoint(m, q, Lives(l)[q], result, Lives(m)[result]);
      assert q in Lives(m) - {pointer};
      assert Same(copied, bytes', q, x);
    }
    forall x | 0 <= x < Lives(l)[pointer] && x < size
      ensures Carried(bytes, bytes', pointer, result, x)
    {
      assert Same(bytes, mid, pointer, x);
      assert result in Lives(m) - {pointer};
      assert Same(copied, bytes', result, x);
    }
  }

  lemma GrownFits(l: seq<Chunk>, wanted: nat, growth: nat)
    requires l != [] && growth >= Lacking(l, wanted) && growth >= HEADER
    ensures var m := Grown(l, growth); Fits(m[|m| - 1], wanted)
  {
  }

  lemma GrownCoalesced(l: seq<Chunk>, growth: nat)
    requires Coalesced(l) && growth >= HEADER
    ensures Coalesced(Grown(l, growth))
  {
  }

  lemma GrownLives(l: seq<Chunk>, growth: nat)
    requires growth >= HEADER
    ensures Lives(Grown(l, growth)) == Lives(l)
  {
    var m := Grown(l, growth);
    GrownStarts(l, growth);
    forall p, n
      ensures LiveAt(m, p, n) <==> p in Lives(l) && Lives(l)[p] == n
    {
      LivesAre(l, p, n);
      assert forall k :: 0 <= k < |l| ==> (IsLive(m, k, p, n) <==> IsLive(l, k, p, n));
      assert |m| > |l| ==> !IsLive(m, |m| - 1, p, n);
    }
    LivesIs(m, Lives(l));
  }

  predicate Fits(c: Chunk, size: nat) { c.free && c.size >= size }

  function Pages(amount: nat): nat { (amount + PAGE - 1) / PAGE }

  /** The tiling with `growth` more bytes at the end. */
  ghost function Grown(l: seq<Chunk>, growth: nat): seq<Chunk>
    requires growth >= HEADER
  {
    if l != [] && l[|l| - 1].free then l[|l| - 1 := Chunk(l[|l| - 1].size + growth, true)]
    else l + [Chunk(growth - HEADER, true)]
  }

  lemma GrownStarts(l: seq<Chunk>, growth: nat)
    requires growth >= HEADER
    ensures var m := Grown(l, growth);
      && |m| > 0 && |m| >= |l| && End(m) == End(l) + growth
      && (forall i :: 0 <= i <= |l| && i < |m| ==> Start(m, i) == Start(l, i))
  {
    var m := Grown(l, growth);
    forall i | 0 <= i <= |l| && i < |m|
      ensures Start(m, i) == Start(l, i)
    {
      assert l[..i] == m[..i];
      StartPrefix(l, m, i);
    }
    assert Start(m, |m|) == Start(m, |m| - 1) + HEADER + m[|m| - 1].size;
  }

  lemma GrownSized(l: seq<Chunk>, growth: nat)
    requires Sized(l) && growth % ALIGNMENT == 0 && growth >= PAGE
    ensures Sized(Grown(l, growth))
  {
  }

  lemma PagesAligned(growth: nat)
    requires growth % PAGE == 0 && growth > 0
    ensures growth % ALIGNMENT == 0 && growth >= PAGE
  {
    assert growth == (growth / PAGE) * (PAGE / ALIGNMENT) * ALIGNMENT;
  }

  lemma GrownSafe(keep: map<nat, nat>, l: seq<Chunk>, growth: nat)
    requires Safe(keep, l) && growth >= HEADER
    ensures Safe(keep, Grown(l, growth))
  {
    var m := Grown(l, growth);
    GrownStarts(l, growth);
    hide Start;
    forall p | p in keep
      ensures exists k :: 0 <= k < |m| && Holds(m, k, p, keep[p])
    {
      var k :| 0 <= k < |l| && Holds(l, k, p, keep[p]);
      assert m[k] == l[k];
      assert Holds(m, k, p, keep[p]);
    }
  }

  lemma KeptMore(keep: map<nat, nat>, l: seq<Chunk>, bytes: seq<byte>, more: seq<byte>)
    requires Safe(keep, l) && End(l) == BASE + |bytes|
    ensures Kept(keep, bytes, bytes + more)
  {
    KeptSelf(keep, l, bytes);
    var longer := bytes + more;
    forall p, x | p in keep && 0 <= x < keep[p]
      ensures Same(bytes, longer, p, x)
    {
      assert Same(bytes, bytes, p, x);
    }
  }

  lemma LastFree(blocks: map<nat, Block>, l: seq<Chunk>, first: nat, last: nat)
    requires Linked(blocks, l) && Ends(l, first, last)
    ensures last == NULL <==> l == []
    ensures l != [] ==> last == Start(l, |l| - 1) && BlockAt(blocks, last) == Header(l, |l| - 1)
  {
    if l != [] {
      LinkAt(blocks, l, |l| - 1);
      HeaderNotNull(l, |l| - 1);
    }
  }

  /** The free last block takes the new memory; otherwise it becomes a block at `a`. */
  ghost predicate Tailed(blocks: map<nat, Block>, growth: nat, a: nat, last: nat, blocks': map<nat, Block>)
    requires growth >= HEADER
  {
    if last != NULL && BlockAt(blocks, last).free
    then blocks' == blocks[last := BlockAt(blocks, last).(size := BlockAt(blocks, last).size + growth)]
    else
      var put := blocks[a := Block(growth - HEADER, last, NULL, true)];
      blocks' == if last != NULL then put[last := BlockAt(put, last).(next := a)] else put
  }

  lemma GrownLinked(blocks: map<nat, Block>, l: seq<Chunk>, growth: nat, first: nat, last: nat,
                    blocks': map<nat, Block>)
    requires Linked(blocks, l) && growth >= HEADER && Ends(l, first, last)
    requires Tailed(blocks, growth, End(l), last, blocks')
    ensures Linked(blocks', Grown(l, growth))
    ensures Ends(Grown(l, growth), if l == [] then End(l) else first,
                 if last != NULL && BlockAt(blocks, last).free then last else End(l))
  {
    var m := Grown(l, growth);
    GrownStarts(l, growth);
    LastFree(blocks, l, first, last);
    forall i | 0 <= i < |m|
      ensures LinkOk(blocks', m, i)
    {
      GrownLink(blocks, l, growth, first, last, blocks', i);
    }
  }

  lemma GrownLink(blocks: map<nat, Block>, l: seq<Chunk>, growth: nat, first: nat, last: nat, blocks': map<nat, Block>,
                  i: nat)
    requires Linked(blocks, l) && growth >= HEADER && Ends(l, first, last) && i < |Grown(l, growth)|
    requires Tailed(blocks, growth, End(l), last, blocks')
    ensures LinkOk(blocks', Grown(l, growth), i)
  {
    var m := Grown(l, growth);
    GrownStarts(l, growth);
    LastFree(blocks, l, first, last);
    hide Start, Linked;
    if i < |l| {
      LinkAt(blocks, l, i);
      Apart(l, i, |l| - 1);
      StartGrowsEnd(l, i);
    }
  }

  lemma StartGrowsEnd(l: seq<Chunk>, i: nat)
    requires i < |l|
    ensures Start(l, i) < Start(l, |l|)
  {
    StartGrows(l, i, |l|);
  }

  /** Where the list begins and ends. */
  ghost predicate Ends(l: seq<Chunk>, first: nat, last: nat) {
    if l == [] then first == NULL && last == NULL else first == Start(l, 0) && last == Start(l, |l| - 1)
  }

  lemma JoinedSized(l: seq<Chunk>, k: nat)
    requires Sized(l) && k + 1 < |l|
    ensures Sized(JoinAt(l, k))
  {
  }

  lemma JoinedEnds(l: seq<Chunk>, k: nat, first: nat, last: nat, last': nat)
    requires k + 1 < |l| && l[k + 1].free && Ends(l, first, last) && last' == if k + 2 < |l| then last else Start(l, k)
    ensures Ends(JoinAt(l, k), first, last')
  {
    JoinStart(l, k, 0);
    JoinStart(l, k, k);
    JoinStart(l, k, |l| - 1);
  }

  lemma JoinedBlocks(blocks: map<nat, Block>, blocks': map<nat, Block>, l: seq<Chunk>, k: nat)
    requires Linked(blocks, l) && k + 1 < |l|
    requires var a := Start(l, k); var b := BlockAt(blocks, a); var n := BlockAt(blocks, b.next);
      var put := blocks[a := Block(b.size + HEADER + n.size, b.previous, n.next, b.free)];
      blocks' == if n.next != NULL then put[n.next := BlockAt(put, n.next).(previous := a)] else put
    ensures JoinBlocks(blocks, blocks', Start(l, k))
  {
    hide Start, Linked;
    LinkAt(blocks, l, k);
    LinkAt(blocks, l, k + 1);
    NextAddress(l, k);
    NextAddress(l, k + 1);
    if k + 2 < |l| { Apart(l, k, k + 2); }
    HeaderNotNull(l, k);
  }

  /** What the rest links to after a cut. */
  lemma SplitNext(blocks: map<nat, Block>, l: seq<Chunk>, k: nat, size: nat)
    requires k < |l| && size + HEADER <= l[k].size && Linked(blocks, SplitAt(l, k, size))
    ensures var r := BlockAt(blocks, Start(l, k) + HEADER + size);
      && (k + 1 < |l| ==> r.next != NULL && BlockAt(blocks, r.next).free == l[k + 1].free)
      && (k + 1 == |l| ==> r.next == NULL)
  {
    var m := SplitAt(l, k, size);
    hide Linked, Start, Header;
    SplitStart(l, k, size, k);
    LinkAt(blocks, m, k + 1);
    NextAddress(m, k + 1);
    if k + 1 < |l| {
      LinkAt(blocks, m, k + 2);
      NextAddress(m, k + 2);
    }
  }

  // ----- Live payloads as a map -------------------------------------------------------------------------------

  ghost function LivesTo(l: seq<Chunk>, n: nat): map<nat, nat>
    requires n <= |l|
  {
    if n == 0 then map[]
    else if l[n - 1].free then LivesTo(l, n - 1)
    else LivesTo(l, n - 1)[Start(l, n - 1) + HEADER := l[n - 1].size]
  }

  /** The live payloads: address to size. */
  ghost function Lives(l: seq<Chunk>): map<nat, nat> { LivesTo(l, |l|) }

  lemma {:induction false} LivesToAt(l: seq<Chunk>, n: nat, k: nat)
    requires k < n <= |l|
    ensures !l[k].free ==> Start(l, k) + HEADER in LivesTo(l, n) && LivesTo(l, n)[Start(l, k) + HEADER] == l[k].size
    decreases n
  {
    if k < n - 1 {
      LivesToAt(l, n - 1, k);
      Apart(l, k, n - 1);
    }
  }

  lemma {:induction false} LivesToFrom(l: seq<Chunk>, n: nat, p: nat) returns (k: nat)
    requires n <= |l| && p in LivesTo(l, n)
    ensures k < n && IsLive(l, k, p, LivesTo(l, n)[p])
    decreases n
  {
    if !l[n - 1].free && p == Start(l, n - 1) + HEADER {
      k := n - 1;
    } else {
      k := LivesToFrom(l, n - 1, p);
    }
  }

  /** The map holds exactly the live payloads. */
  lemma LivesAre(l: seq<Chunk>, p: nat, n: nat)
    ensures LiveAt(l, p, n) <==> p in Lives(l) && Lives(l)[p] == n
  {
    if LiveAt(l, p, n) {
      var k :| 0 <= k < |l| && IsLive(l, k, p, n);
      LivesToAt(l, |l|, k);
    }
    if p in Lives(l) {
      var k := LivesToFrom(l, |l|, p);
    }
  }

  lemma LivesIs(l: seq<Chunk>, m: map<nat, nat>)
    requires forall p, n :: LiveAt(l, p, n) <==> p in m && m[p] == n
    ensures Lives(l) == m
  {
    hide LiveAt, Lives;
    forall p
      ensures p in Lives(l) <==> p in m
      ensures p in m && p in Lives(l) ==> Lives(l)[p] == m[p]
    {
      if p in m {
        assert LiveAt(l, p, m[p]);
        LivesAre(l, p, m[p]);
      }
      if p in Lives(l) { LivesAre(l, p, Lives(l)[p]); }
    }
  }

  lemma LivesSafe(l: seq<Chunk>)
    ensures Safe(Lives(l), l)
  {
    forall p | p in Lives(l)
      ensures exists k :: 0 <= k < |l| && Holds(l, k, p, Lives(l)[p])
    {
      var k := LivesToFrom(l, |l|, p);
      assert Holds(l, k, p, Lives(l)[p]);
    }
  }

  /** Blocks other than the split one are the same blocks. */
  lemma SplitSameLive(l: seq<Chunk>, k: nat, size: nat, j: nat, p: nat, n: nat)
    requires k < |l| && j < |l| && size + HEADER <= l[k].size && j != k
    ensures |SplitAt(l, k, size)| == |l| + 1
    ensures (IsLive(l, j, p, n) <==> IsLive(SplitAt(l, k, size), if j < k then j else j + 1, p, n))
    ensures IsLive(l, j, p, n) ==> p != Start(l, k) + HEADER
  {
    SplitStart(l, k, size, j);
    hide Start;
    Apart(l, j, k);
  }

  lemma SplitOwnLive(l: seq<Chunk>, k: nat, size: nat, p: nat, n: nat)
    requires k < |l| && size + HEADER <= l[k].size
    ensures |SplitAt(l, k, size)| == |l| + 1 && !IsLive(SplitAt(l, k, size), k + 1, p, n)
    ensures IsLive(SplitAt(l, k, size), k, p, n) <==> !l[k].free && p == Start(l, k) + HEADER && n == size
  {
    SplitStart(l, k, size, k);
    hide Start;
  }

  /** Splitting a block changes at most its own payload. */
  lemma SplitLive(l: seq<Chunk>, k: nat, size: nat, p: nat, n: nat)
    requires k < |l| && size + HEADER <= l[k].size
    ensures LiveAt(SplitAt(l, k, size), p, n) <==>
      if !l[k].free && p == Start(l, k) + HEADER then n == size else LiveAt(l, p, n)
  {
    hide Start, SplitAt, IsLive;
    var m := SplitAt(l, k, size);
    SplitOwnLive(l, k, size, p, n);
    if LiveAt(m, p, n) {
      var i :| 0 <= i < |m| && IsLive(m, i, p, n);
      if i != k { SplitSameLive(l, k, size, if i < k then i else i - 1, p, n); }
    }
    if LiveAt(l, p, n) {
      var j :| 0 <= j < |l| && IsLive(l, j, p, n);
      if j != k { SplitSameLive(l, k, size, j, p, n); } else { LiveIs(l, k, p, n); }
    }
  }

  lemma LiveIs(l: seq<Chunk>, k: nat, p: nat, n: nat)
    requires k < |l| && IsLive(l, k, p, n)
    ensures !l[k].free && p == Start(l, k) + HEADER && n == l[k].size
  {
  }

  /** Joining a free block to its predecessor changes at most the latter's payload. */
  lemma JoinLive(l: seq<Chunk>, k: nat, p: nat, n: nat)
    requires k + 1 < |l| && l[k + 1].free
    ensures LiveAt(JoinAt(l, k), p, n) <==>
      if !l[k].free && p == Start(l, k) + HEADER then n == l[k].size + HEADER + l[k + 1].size else LiveAt(l, p, n)
  {
    var m := JoinAt(l, k);
    JoinIsUnsplit(l, k);
    JoinStart(l, k, k);
    SplitLive(m, k, l[k].size, p, n);
    if !l[k].free && p == Start(l, k) + HEADER {
      assert IsLive(m, k, p, m[k].size);
      if LiveAt(m, p, n) { OneSize(m, p, n, m[k].size); }
    }
  }

  lemma OneSize(l: seq<Chunk>, p: nat, n: nat, m: nat)
    requires LiveAt(l, p, n) && LiveAt(l, p, m)
    ensures n == m
  {
    LivesAre(l, p, n);
    LivesAre(l, p, m);
  }

  /** Freeing or taking a block removes or adds its payload. */
  lemma MarkedLive(l: seq<Chunk>, k: nat, free: bool, p: nat, n: nat)
    requires k < |l|
    ensures LiveAt(Marked(l, k, free), p, n) <==>
      if p == Start(l, k) + HEADER then !free && n == l[k].size else LiveAt(l, p, n)
  {
    var m := Marked(l, k, free);
    MarkedStart(l, k, free, k);
    assert IsLive(m, k, p, n) <==> !free && p == Start(l, k) + HEADER && n == l[k].size;
    hide Start, IsLive;
    if LiveAt(m, p, n) {
      var i :| 0 <= i < |m| && IsLive(m, i, p, n);
      if i != k { MarkedSameLive(l, k, free, i, p, n); }
    }
    if LiveAt(l, p, n) {
      var i :| 0 <= i < |l| && IsLive(l, i, p, n);
      if i != k { MarkedSameLive(l, k, free, i, p, n); } else { LiveIs(l, k, p, n); }
    }
  }

  lemma MarkedSameLive(l: seq<Chunk>, k: nat, free: bool, i: nat, p: nat, n: nat)
    requires k < |l| && i < |l| && i != k
    ensures IsLive(l, i, p, n) <==> IsLive(Marked(l, k, free), i, p, n)
    ensures IsLive(l, i, p, n) ==> p != Start(l, k) + HEADER
  {
    MarkedStart(l, k, free, i);
    hide Start;
    Apart(l, i, k);
  }
}
