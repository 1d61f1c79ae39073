/** The physical frame allocator: two bitmaps, a free count and a rotating cursor.
    Addresses are bytes; a bitmap index is a page number. */
module Frames {

  const PAGE := 4096
  const PAGE_COUNT := 0x4_0000 // one gibibyte of identity-mapped memory
  const LOW_RESERVED := 0x100  // pages of the first mebibyte
  const ADDRESS_END := 0x1_0000_0000
  const WORD64 := 0x1_0000_0000_0000_0000

  /** A range of the boot loader's memory map; type 1 is available memory. */
  datatype Region = Region(address: nat, length: nat, kind: nat)

  /** Something the boot loader left in memory: one of its structures, which must lie in
      the 32-bit address space, or the framebuffer, which may lie anywhere. */
  datatype BootData = Structure(address: nat, length: nat) | Framebuffer(address: nat, length: nat)

  predicate Reservable(b: BootData) {
    match b
    case Structure(address, length) => address < ADDRESS_END && length <= ADDRESS_END - address
    case Framebuffer(address, length) => length <= WORD64 - 1 - address
  }

  predicate AllReservable(boot: seq<BootData>) {
    forall i :: 0 <= i < |boot| ==> Reservable(boot[i])
  }

  /** Some boot data touches the page. */
  ghost predicate Occupied(boot: seq<BootData>, page: nat) {
    exists i :: 0 <= i < |boot| && boot[i].length > 0
      && Covers(boot[i].address, boot[i].address + boot[i].length, false, page)
  }

  lemma OccupiedStep(boot: seq<BootData>, k: nat, page: nat)
    requires k < |boot|
    ensures Occupied(boot[..k + 1], page) <==>
      Occupied(boot[..k], page)
        || (boot[k].length > 0 && Covers(boot[k].address, boot[k].address + boot[k].length, false, page))
  {
    hide Covers;
    if Occupied(boot[..k], page) {
      var i :| 0 <= i < k && boot[..k][i].length > 0
        && Covers(boot[..k][i].address, boot[..k][i].address + boot[..k][i].length, false, page);
      assert boot[..k + 1][i] == boot[..k][i];
    }
    assert boot[..k + 1][k] == boot[k];
    assert forall i :: 0 <= i < k ==> boot[..k + 1][i] == boot[..k][i];
  }

  /** Whole pages of an available range; every touched page of a reserved one. */
  function FirstPage(start: nat, usable: bool): nat { if usable then (start + PAGE - 1) / PAGE else start / PAGE }
  function EndPage(end: nat, usable: bool): nat { if usable then end / PAGE else (end + PAGE - 1) / PAGE }

  predicate Covers(start: nat, end: nat, usable: bool, page: nat) {
    FirstPage(start, usable) <= page < EndPage(end, usable)
  }

  /** Some listed range of the wanted kind covers the page. */
  ghost predicate Listed(regions: seq<Region>, available: bool, page: nat) {
    exists i :: 0 <= i < |regions| && regions[i].length > 0 && (regions[i].kind == 1) == available
      && Covers(regions[i].address, regions[i].address + regions[i].length, available, page)
  }

  predicate Fits(regions: seq<Region>) {
    forall i :: 0 <= i < |regions| ==> regions[i].address + regions[i].length < WORD64
  }

  /** Available and not reserved: reserved ranges win. */
  ghost predicate Usable(regions: seq<Region>, page: nat) {
    Listed(regions, true, page) && !Listed(regions, false, page)
  }

  /** The map is well formed, offers some page, and holds the whole kernel image. */
  ghost predicate Bootable(regions: seq<Region>, start: nat, end: nat) {
    Fits(regions) && KernelPresent(regions, start, end) && exists p :: 0 <= p < PAGE_COUNT && Usable(regions, p)
  }

  ghost predicate KernelPresent(regions: seq<Region>, start: nat, end: nat) {
    forall p: nat :: start / PAGE <= p < (end + PAGE - 1) / PAGE ==> Usable(regions, p)
  }

  predicate IsFree(managed: seq<bool>, taken: seq<bool>, p: nat) {
    p < |managed| && p < |taken| && managed[p] && !taken[p]
  }

  ghost function FreeSet(managed: seq<bool>, taken: seq<bool>): set<nat> {
    set p: nat | p < |managed| && IsFree(managed, taken, p)
  }

  /** Bitmaps where only managed pages are taken, none of them low or beyond the limit. */
  ghost predicate BitmapsOk(managed: seq<bool>, taken: seq<bool>, limit: nat) {
    && |managed| == |taken| == PAGE_COUNT && limit <= PAGE_COUNT
    && forall p :: 0 <= p < PAGE_COUNT ==> (managed[p] ==> LOW_RESERVED <= p < limit) && (taken[p] ==> managed[p])
  }

  class Pmm {
    var ready: bool
    var managed: seq<bool>
    var taken: seq<bool>
    var limit: nat
    var free: nat
    var next: nat

    ghost predicate Valid()
      reads this
    {
      ready ==>
        && BitmapsOk(managed, taken, limit)
        && free == |FreeSet(managed, taken)|
        && (next < limit || forall p :: 0 <= p < PAGE_COUNT ==> !managed[p])
    }

    /** Pages handed out and not yet returned. */
    predicate Held(p: nat)
      reads this
    {
      ready && p < |taken| && taken[p]
    }

    method SetRange(start: nat, end_: nat, usable: bool)
      requires |managed| == PAGE_COUNT
      modifies this`managed
      ensures |managed| == PAGE_COUNT
      ensures forall p :: 0 <= p < PAGE_COUNT ==>
        managed[p] == if Covers(start, end_, usable, p) then usable else old(managed)[p]
    {
      if start >= PAGE_COUNT * PAGE { return; }
      var end := if end_ > PAGE_COUNT * PAGE then PAGE_COUNT * PAGE else end_;
      var page := FirstPage(start, usable);
      ghost var first := page;
      var last := EndPage(end, usable);
      while page < last
        invariant first <= page && (page <= last || page == first) && |managed| == PAGE_COUNT
        invariant forall p :: 0 <= p < PAGE_COUNT ==>
          managed[p] == if first <= p < page then usable else old(managed)[p]
      {
        managed := managed[page := usable];
        page := page + 1;
      }
    }

    /** Mark the ranges of one kind; fails on a range whose end overflows 64 bits. */
    method MapPass(regions: seq<Region>, available: bool) returns (ok: bool)
      requires |managed| == PAGE_COUNT
      modifies this`managed
      ensures |managed| == PAGE_COUNT
      ensures ok <==> Fits(regions)
      ensures ok ==>
        forall p :: 0 <= p < PAGE_COUNT ==>
          managed[p] == if Listed(regions, available, p) then available else old(managed)[p]
    {
      for k := 0 to |regions|
        invariant |managed| == PAGE_COUNT
        invariant forall i :: 0 <= i < k ==> regions[i].address + regions[i].length < WORD64
        invariant forall p :: 0 <= p < PAGE_COUNT ==>
          managed[p] == if Listed(regions[..k], available, p) then available else old(managed)[p]
      {
        var r := regions[k];
        if r.length > WORD64 - 1 - r.address { return false; }
        label Before:
        if r.length > 0 && (r.kind == 1) == available {
          SetRange(r.address, r.address + r.length, available);
        }
        forall p | 0 <= p < PAGE_COUNT
          ensures managed[p] == if Listed(regions[..k + 1], available, p) then available else old(managed)[p]
        {
          ListedStep(regions, k, available, p);
        }
      }
      assert regions[..|regions|] == regions;
      ok := true;
    }

    /** Take the memory map, then withdraw low memory, the kernel image and boot data.
        Reserved ranges win over available ones whatever the order they are listed in. */
    method Initialize(regions: seq<Region>, kernelStart: nat, kernelEnd: nat, boot: seq<BootData>) returns (ok: bool)
      requires kernelStart < ADDRESS_END && kernelEnd < ADDRESS_END
      modifies this
      ensures Valid() && ready == ok
      ensures ok <==>
        && kernelStart <= kernelEnd <= PAGE_COUNT * PAGE && Bootable(regions, kernelStart, kernelEnd)
        && AllReservable(boot)
      ensures ok ==> forall p :: 0 <= p < PAGE_COUNT ==> (managed[p] <==>
          Usable(regions, p) && p >= LOW_RESERVED
          && !(kernelStart < kernelEnd && Covers(kernelStart, kernelEnd, false, p)) && !Occupied(boot, p))
      ensures ok ==> forall p: nat :: !Held(p)
    {
      ready, limit := false, 0;
      managed, taken := seq(PAGE_COUNT, i => false), seq(PAGE_COUNT, i => false);
      ok := false;
      if kernelEnd < kernelStart || kernelEnd > PAGE_COUNT * PAGE { return; }
      hide Listed, Covers;
      var good := TakeMap(regions);
      if !good { return; }
      var present := WholeKernel(kernelStart / PAGE, (kernelEnd + PAGE - 1) / PAGE);
      if !present { return; }
      limit := FindLimit();
      if limit == 0 { return; }
      good := Reserve(kernelStart, kernelEnd, boot);
      if !good { return; }
      free := CountManaged();
      next := LOW_RESERVED;
      ready := true;
      ok := true;
    }

    /** Take the first megabyte, the kernel and the boot data out of the map. */
    method Reserve(kernelStart: nat, kernelEnd: nat, boot: seq<BootData>) returns (good: bool)
      requires |managed| == PAGE_COUNT
      modifies this`managed
      ensures |managed| == PAGE_COUNT && (good <==> AllReservable(boot))
      ensures good ==> forall p :: 0 <= p < PAGE_COUNT ==> (managed[p] <==>
          old(managed)[p] && p >= LOW_RESERVED
          && !(kernelStart < kernelEnd && Covers(kernelStart, kernelEnd, false, p)) && !Occupied(boot, p))
    {
      SetRange(0, LOW_RESERVED * PAGE, false);
      assert forall p :: 0 <= p < PAGE_COUNT ==> (Covers(0, LOW_RESERVED * PAGE, false, p) <==> p < LOW_RESERVED);
      hide Occupied, Covers;
      if kernelStart < kernelEnd { SetRange(kernelStart, kernelEnd, false); }
      good := ReserveBootData(boot);
    }

    /** Reserve each structure in turn, up to the first that cannot be. */
    method ReserveBootData(boot: seq<BootData>) returns (ok: bool)
      requires |managed| == PAGE_COUNT
      modifies this`managed
      ensures |managed| == PAGE_COUNT && (ok <==> AllReservable(boot))
      ensures ok ==> forall p :: 0 <= p < PAGE_COUNT ==> (managed[p] <==> old(managed)[p] && !Occupied(boot, p))
    {
      assert forall p :: 0 <= p < PAGE_COUNT ==> !Occupied(boot[..0], p);
      hide Covers, Occupied;
      for k := 0 to |boot|
        invariant |managed| == PAGE_COUNT && forall i :: 0 <= i < k ==> Reservable(boot[i])
        invariant forall p :: 0 <= p < PAGE_COUNT ==> (managed[p] <==> old(managed)[p] && !Occupied(boot[..k], p))
      {
        if !Reservable(boot[k]) { return false; }
        if boot[k].length > 0 { SetRange(boot[k].address, boot[k].address + boot[k].length, false); }
        forall p | 0 <= p < PAGE_COUNT
          ensures managed[p] <==> old(managed)[p] && !Occupied(boot[..k + 1], p)
        {
          OccupiedStep(boot, k, p);
        }
      }
      assert boot[..|boot|] == boot;
      ok := true;
    }

    method TakeMap(regions: seq<Region>) returns (ok: bool)
      requires |managed| == PAGE_COUNT && forall p :: 0 <= p < PAGE_COUNT ==> !managed[p]
      modifies this`managed
      ensures |managed| == PAGE_COUNT && (ok <==> Fits(regions))
      ensures ok ==> forall p :: 0 <= p < PAGE_COUNT ==> managed[p] == Usable(regions, p)
    {
      hide Listed;
      ok := MapPass(regions, true);
      if ok { ok := MapPass(regions, false); }
    }

    method WholeKernel(first: nat, last: nat) returns (ok: bool)
      requires |managed| == PAGE_COUNT && last <= PAGE_COUNT
      ensures ok <==> forall p :: first <= p < last ==> managed[p]
    {
      var page := first;
      while page < last
        invariant first <= page && forall p :: first <= p < page && p < last ==> managed[p]
      {
        if !managed[page] { return false; }
        page := page + 1;
      }
      ok := true;
    }

    /** One past the last managed page. */
    method FindLimit() returns (n: nat)
      requires |managed| == PAGE_COUNT
      ensures n <= PAGE_COUNT && forall p :: 0 <= p < PAGE_COUNT && managed[p] ==> p < n
      ensures n > 0 ==> managed[n - 1]
    {
      n := 0;
      for page := 0 to PAGE_COUNT
        invariant n <= page && (n > 0 ==> managed[n - 1]) && forall p :: 0 <= p < page && managed[p] ==> p < n
      {
        if managed[page] { n := page + 1; }
      }
    }

    method CountManaged() returns (n: nat)
      requires |managed| == |taken| == PAGE_COUNT && limit <= PAGE_COUNT
      requires forall p :: 0 <= p < PAGE_COUNT ==> !taken[p] && (managed[p] ==> p < limit)
      ensures n == |FreeSet(managed, taken)|
    {
      n := 0;
      ghost var seen: set<nat> := {};
      for page := 0 to limit
        invariant n == |seen| && forall p: nat :: p in seen <==> p < page && IsFree(managed, taken, p)
      {
        if managed[page] {
          n := n + 1;
          seen := seen + {page};
        }
      }
      assert seen == FreeSet(managed, taken);
    }

    /** Hand out the first free page at or after the cursor, going round once;
        zero exactly when no page is free. */
    method AllocatePage() returns (physical: nat)
      requires Valid()
      modifies this`taken, this`free, this`next
      ensures Valid()
      ensures physical == 0 <==> !ready || FreeSet(old(managed), old(taken)) == {}
      ensures physical == 0 ==> taken == old(taken) && free == old(free)
      ensures physical != 0 ==> physical % PAGE == 0 && Handed(managed, old(taken), taken, physical / PAGE)
      ensures physical != 0 ==> FirstFrom(managed, old(taken), old(next), limit, physical / PAGE)
    {
      physical := 0;
      if !ready || free == 0 { return; }
      ghost var start := next;
      SomeFree(managed, taken, limit);
      assert start < limit;
      hide FreeSet;
      var scanned := 0;
      while scanned < limit
        invariant scanned <= limit && taken == old(taken) && free == old(free)
        invariant next == Round(start, scanned, limit)
        invariant NoneBefore(managed, taken, start, limit, scanned)
      {
        var page := next;
        next := (next + 1) % limit;
        NextRound(start, scanned, limit);
        if managed[page] && !taken[page] {
          TakenCount(managed, taken, page);
          taken := taken[page := true];
          free := free - 1;
          physical := page * PAGE;
          return;
        }
        scanned := scanned + 1;
      }
      NoneLeft(managed, taken, start, limit);
    }

    predicate IsManaged(physical: nat)
      requires Valid()
      reads this
    {
      ready && physical % PAGE == 0 && physical < limit * PAGE && managed[physical / PAGE]
    }

    predicate IsAllocated(physical: nat)
      requires Valid()
      reads this
      ensures IsAllocated(physical) <==> physical % PAGE == 0 && Held(physical / PAGE)
    {
      IsManaged(physical) && taken[physical / PAGE]
    }

    /** Return a page; refuses anything that is not a page it handed out. */
    method FreePage(physical: nat) returns (ok: bool)
      requires Valid()
      modifies this`taken, this`free, this`next
      ensures Valid()
      ensures ok <==> physical % PAGE == 0 && old(Held(physical / PAGE))
      ensures ok ==> taken == old(taken)[physical / PAGE := false]
      ensures !ok ==> taken == old(taken) && free == old(free) && next == old(next)
    {
      ok := IsAllocated(physical);
      if !ok { return; }
      var page := physical / PAGE;
      TakenCount(managed, taken[page := false], page);
      assert taken[page := false][page := true] == taken;
      taken := taken[page := false];
      free := free + 1;
      if page < next { next := page; }
    }

    /** A run of adjacent free pages above low memory, all marked at once; zero
        exactly when there is no such run. */
    method AllocateContiguous(count: nat) returns (physical: nat)
      requires Valid()
      modifies this`taken, this`free
      ensures Valid()
      ensures physical == 0 <==> !ready || count == 0 || forall p: nat :: !FreeRun(managed, old(taken), p, count)
      ensures physical == 0 ==> taken == old(taken)
      ensures physical != 0 ==> physical % PAGE == 0 && FreeRun(managed, old(taken), physical / PAGE, count)
      ensures physical != 0 ==>
        physical / PAGE + count <= |old(taken)| && Marked(old(taken), taken, physical / PAGE, count, true)
    {
      physical := 0;
      if !ready || count == 0 { return; }
      if count > free {
        forall p: nat
          ensures !FreeRun(managed, taken, p, count)
        {
          if FreeRun(managed, taken, p, count) { RunFits(managed, taken, p, count); }
        }
        return;
      }
      var run, page := 0, LOW_RESERVED;
      while page < limit
        invariant taken == old(taken) && free == old(free) && run < count && run <= page - LOW_RESERVED
        invariant (page <= limit || page == LOW_RESERVED)
        invariant FreeRun(managed, taken, page - run, run)
        invariant page - run > LOW_RESERVED ==> !IsFree(managed, taken, page - run - 1)
        invariant forall p: nat :: LOW_RESERVED <= p && p + count <= page ==> !FreeRun(managed, taken, p, count)
      {
        if managed[page] && !taken[page] { run := run + 1; } else { run := 0; }
        if run == count {
          var first := page + 1 - count;
          forall p | first <= p < first + count
            ensures !taken[p] && managed[p]
          {
            assert IsFree(managed, taken, p);
          }
          assert FreeRun(managed, taken, first, count);
          Mark(first, count, true);
          MarkedCount(managed, old(taken), taken, first, count);
          free := free - count;
          physical := first * PAGE;
          assert physical / PAGE == first;
          return;
        }
        RunStops(managed, taken, page + 1 - run, page + 1, count);
        page := page + 1;
      }
      forall p: nat
        ensures !FreeRun(managed, taken, p, count)
      {
        RunInside(managed, taken, limit, p, count);
      }
    }

    /** Set or clear the bits of a run whose pages are all the other way. */
    method Mark(first: nat, count: nat, value: bool)
      requires first + count <= |taken|
      requires forall p :: first <= p < first + count ==> taken[p] != value
      modifies this`taken
      ensures Marked(old(taken), taken, first, count, value)
    {
      for i := first to first + count
        invariant Marked(old(taken), taken, first, i - first, value)
      {
        taken := taken[i := value];
      }
    }

    /** Return a run; nothing happens unless every page of it was handed out. */
    method FreeContiguous(physical: nat, count: nat) returns (ok: bool)
      requires Valid()
      modifies this`taken, this`free, this`next
      ensures Valid()
      ensures ok <==>
        ready && count > 0 && physical % PAGE == 0 &&
        forall p :: physical / PAGE <= p < physical / PAGE + count ==> old(Held(p))
      ensures ok ==> physical / PAGE + count <= |old(taken)| && Marked(old(taken), taken, physical / PAGE, count, false)
      ensures !ok ==> taken == old(taken) && free == old(free) && next == old(next)
    {
      ok :=
        && ready && count > 0 && physical % PAGE == 0 && physical < limit * PAGE
        && count <= (limit * PAGE - physical) / PAGE;
      var first := physical / PAGE;
      if !ok {
        if ready && count > 0 && physical % PAGE == 0 { assert !Held(first) || !Held(first + count - 1); }
        return;
      }
      var i := 0;
      while i < count
        invariant taken == old(taken) && free == old(free) && next == old(next)
        invariant i <= count && forall p :: first <= p < first + i ==> Held(p)
      {
        if !managed[first + i] || !taken[first + i] {
          ok := false;
          assert !Held(first + i);
          return;
        }
        i := i + 1;
      }
      forall p | first <= p < first + count
        ensures taken[p]
      {
        assert Held(p);
      }
      Mark(first, count, false);
      MarkedBack(old(taken), taken, first, count);
      MarkedCount(managed, taken, old(taken), first, count);
      free := free + count;
      if first < next { next := first; }
    }
  }

  /** Page `p` was free and is the only one whose state changed. */
  ghost predicate Handed(managed: seq<bool>, before: seq<bool>, after: seq<bool>, p: nat) {
    IsFree(managed, before, p) && p >= LOW_RESERVED && after == before[p := true]
  }

  /** Going up from `start` and round, `p` is the first free page. */
  ghost predicate FirstFrom(managed: seq<bool>, taken: seq<bool>, start: nat, limit: nat, p: nat) {
    exists k: nat :: k < limit && p == Round(start, k, limit) && NoneBefore(managed, taken, start, limit, k)
  }

  /** `k` pages past `start`, starting over at the limit. */
  function Round(start: nat, k: nat, limit: nat): nat {
    if start + k < limit then start + k else if start + k < 2 * limit then start + k - limit else 0
  }

  ghost predicate NoneBefore(managed: seq<bool>, taken: seq<bool>, start: nat, limit: nat, k: nat) {
    forall d: nat :: d < k ==> !IsFree(managed, taken, Round(start, d, limit))
  }

  ghost predicate FreeRun(managed: seq<bool>, taken: seq<bool>, first: nat, count: nat) {
    forall p :: first <= p < first + count ==> IsFree(managed, taken, p)
  }

  ghost predicate Marked(before: seq<bool>, after: seq<bool>, first: nat, count: nat, value: bool)
    requires first + count <= |before|
  {
    && |after| == |before|
    && forall p :: 0 <= p < |before| ==> after[p] == if first <= p < first + count then value else before[p]
  }

  lemma SomeFree(managed: seq<bool>, taken: seq<bool>, limit: nat)
    requires BitmapsOk(managed, taken, limit) && |FreeSet(managed, taken)| > 0
    ensures limit > 0 && exists p: nat :: p < |managed| && managed[p]
  {
    var p :| p in FreeSet(managed, taken);
  }

  lemma NoneLeft(managed: seq<bool>, taken: seq<bool>, start: nat, limit: nat)
    requires BitmapsOk(managed, taken, limit) && start < limit && NoneBefore(managed, taken, start, limit, limit)
    ensures FreeSet(managed, taken) == {}
  {
    forall p: nat | p < |managed|
      ensures !IsFree(managed, taken, p)
    {
      if p < limit {
        var d := if p >= start then p - start else p + limit - start;
        assert Round(start, d, limit) == p;
      }
    }
  }

  /** Marking a run of free pages takes exactly that many from the free set. */
  lemma {:induction false} MarkedCount(managed: seq<bool>, before: seq<bool>, after: seq<bool>, first: nat, count: nat)
    requires first + count <= |before| && FreeRun(managed, before, first, count)
    requires Marked(before, after, first, count, true)
    ensures count <= |FreeSet(managed, before)| && |FreeSet(managed, after)| == |FreeSet(managed, before)| - count
    decreases count
  {
    if count == 0 {
      assert after == before;
    } else {
      var last := first + count - 1;
      var mid := after[last := before[last]];
      MarkedCount(managed, before, mid, first, count - 1);
      assert mid[last] == before[last] && IsFree(managed, before, last);
      TakenCount(managed, mid, last);
      assert after == mid[last := true];
    }
  }

  lemma MarkedBack(before: seq<bool>, after: seq<bool>, first: nat, count: nat)
    requires first + count <= |before| && Marked(before, after, first, count, false)
    requires forall p :: first <= p < first + count ==> before[p]
    ensures |after| == |before| && Marked(after, before, first, count, true)
    ensures forall p :: first <= p < first + count ==> !after[p]
  {
  }

  /** No long enough run ends where the current short run does. */
  lemma RunStops(managed: seq<bool>, taken: seq<bool>, first: nat, end: nat, count: nat)
    requires first <= end < first + count && (first > LOW_RESERVED ==> !IsFree(managed, taken, first - 1))
    ensures end >= count + LOW_RESERVED ==> !FreeRun(managed, taken, end - count, count)
  {
    if end >= count + LOW_RESERVED { assert end - count <= first - 1 < end; }
  }

  lemma RunInside(managed: seq<bool>, taken: seq<bool>, limit: nat, first: nat, count: nat)
    requires BitmapsOk(managed, taken, limit) && count > 0
    ensures FreeRun(managed, taken, first, count) ==> LOW_RESERVED <= first && first + count <= limit
  {
    var last := first + count - 1;
    assert FreeRun(managed, taken, first, count) ==> IsFree(managed, taken, first) && IsFree(managed, taken, last);
  }

  lemma RunFits(managed: seq<bool>, taken: seq<bool>, first: nat, count: nat)
    requires |managed| == |taken| && FreeRun(managed, taken, first, count) && count > 0
    ensures count <= |FreeSet(managed, taken)|
  {
    assert IsFree(managed, taken, first + count - 1);
    var marked := seq(|taken|, p requires 0 <= p < |taken| => if first <= p < first + count then true else taken[p]);
    MarkedCount(managed, taken, marked, first, count);
  }

  lemma NextRound(start: nat, k: nat, limit: nat)
    requires start < limit && k < limit
    ensures Round(start, k, limit) < limit && (Round(start, k, limit) + 1) % limit == Round(start, k + 1, limit)
  {
    var n := Round(start, k, limit) + 1;
    if n == limit {
      assert n % limit == 0;
    } else {
      assert n < limit && n % limit == n;
    }
  }

  lemma TakenCount(managed: seq<bool>, taken: seq<bool>, p: nat)
    requires IsFree(managed, taken, p)
    ensures |FreeSet(managed, taken[p := true])| == |FreeSet(managed, taken)| - 1
  {
    assert FreeSet(managed, taken[p := true]) == FreeSet(managed, taken) - {p};
  }

  lemma ListedStep(regions: seq<Region>, k: nat, available: bool, p: nat)
    requires k < |regions|
    ensures Listed(regions[..k + 1], available, p) <==>
      Listed(regions[..k], available, p)
      || (regions[k].length > 0 && (regions[k].kind == 1) == available
          && Covers(regions[k].address, regions[k].address + regions[k].length, available, p))
  {
    var shorter, longer := regions[..k], regions[..k + 1];
    assert forall i :: 0 <= i < k ==> shorter[i] == longer[i];
    assert longer[k] == regions[k];
  }
}
