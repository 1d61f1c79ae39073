/** The block device under the FAT16 volume: sectors, the trace of writes and
    flushes a mutation issues, and what a power loss may leave behind. */
module Disk {

  type byte = x: int | 0 <= x < 256

  const SECTOR := 512

  function Zeros(n: nat): (s: seq<byte>)
    ensures |s| == n && forall i :: 0 <= i < n ==> s[i] == 0
  {
    seq(n, i => 0)
  }

  type Sector = s: seq<byte> | |s| == 512 witness Zeros(512)

  function U16(s: seq<byte>, at: nat): (n: nat)
    requires at + 2 <= |s|
    ensures n < 0x1_0000
  {
    (s[at] as int) + 256 * (s[at + 1] as int)
  }

  function U32(s: seq<byte>, at: nat): (n: nat)
    requires at + 4 <= |s|
    ensures n < 0x1_0000_0000
  {
    U16(s, at) + 0x1_0000 * U16(s, at + 2)
  }

  function Put16(s: seq<byte>, at: nat, n: nat): (r: seq<byte>)
    requires at + 2 <= |s| && n < 0x1_0000
    ensures |r| == |s| && U16(r, at) == n
    ensures forall i :: 0 <= i < |s| && i != at && i != at + 1 ==> r[i] == s[i]
  {
    s[at := n % 256][at + 1 := n / 256]
  }

  function Put32(s: seq<byte>, at: nat, n: nat): (r: seq<byte>)
    requires at + 4 <= |s| && n < 0x1_0000_0000
    ensures |r| == |s| && U32(r, at) == n
    ensures forall i :: 0 <= i < |s| && !(at <= i < at + 4) ==> r[i] == s[i]
  {
    Put16(Put16(s, at, n % 0x1_0000), at + 2, n / 0x1_0000)
  }

  /** A sector by region. `Layout.Lba` maps these one to one to the sector
      numbers the driver uses. */
  datatype Addr =
    | Table(copy: nat, index: nat)
    | Root(index: nat)
    | Data(cluster: nat, index: nat)

  type Disk = map<Addr, Sector>

  function At(d: Disk, a: Addr): Sector {
    if a in d then d[a] else Zeros(SECTOR)
  }

  datatype Event = Write(addr: Addr, data: Sector) | Flush

  /** The device after every event took effect in order. */
  function Apply(d: Disk, run: seq<Event>): Disk
    decreases |run|
  {
    if run == [] then d
    else
      var before := Apply(d, run[..|run| - 1]);
      match run[|run| - 1]
      case Write(a, data) => before[a := data]
      case Flush => before
  }

  /** Contents a completed flush has made durable. */
  function Durable(d: Disk, run: seq<Event>): Disk
    decreases |run|
  {
    if run == [] then d
    else if run[|run| - 1].Flush? then Apply(d, run)
    else Durable(d, run[..|run| - 1])
  }

  /** Writes issued after the last completed flush. */
  function Pending(run: seq<Event>): seq<Event>
    decreases |run|
  {
    if run == [] || run[|run| - 1].Flush? then []
    else Pending(run[..|run| - 1]) + [run[|run| - 1]]
  }

  /** Every sector holds what `base` held, or some value written by `writes`. */
  ghost predicate Between(base: Disk, writes: seq<Event>, d: Disk) {
    forall a: Addr :: At(d, a) == At(base, a) || Write(a, At(d, a)) in writes
  }

  /** Power fails after the events of `run`: durable sectors survive, and each
      sector written since the last flush independently has its durable value or
      any value written to it since, in any order. */
  ghost predicate CrashState(d0: Disk, run: seq<Event>, d: Disk) {
    Between(Durable(d0, run), Pending(run), d)
  }

  /** The same contents everywhere. */
  ghost predicate Alike(d: Disk, d': Disk) {
    forall a: Addr :: At(d', a) == At(d, a)
  }

  predicate AllWrites(run: seq<Event>) {
    forall i :: 0 <= i < |run| ==> run[i].Write?
  }

  /** Nothing is pending: the run is empty or its last event is a flush. */
  predicate Settled(run: seq<Event>) {
    run == [] || run[|run| - 1].Flush?
  }

  lemma ApplyNothing(d: Disk)
    ensures Apply(d, []) == d
  {
  }

  lemma {:induction false} ApplyConcat(d: Disk, a: seq<Event>, b: seq<Event>)
    ensures Apply(d, a + b) == Apply(Apply(d, a), b)
    decreases |b|
  {
    if b == [] {
      assert a + b == a;
    } else {
      ApplyConcat(d, a, b[..|b| - 1]);
      assert (a + b)[..|a + b| - 1] == a + b[..|b| - 1];
    }
  }

  lemma {:induction false} PendingAfterSettled(d: Disk, settled: seq<Event>, writes: seq<Event>)
    requires Settled(settled) && AllWrites(writes)
    ensures Durable(d, settled + writes) == Apply(d, settled)
    ensures Pending(settled + writes) == writes
    decreases |writes|
  {
    if writes == [] {
      assert settled + writes == settled;
    } else {
      var shorter := writes[..|writes| - 1];
      PendingAfterSettled(d, settled, shorter);
      assert (settled + writes)[..|settled + writes| - 1] == settled + shorter;
      assert writes == shorter + [writes[|writes| - 1]];
    }
  }

  /** A crash inside one flush-delimited batch of writes, cut anywhere. */
  lemma CrashInBatch(d0: Disk, settled: seq<Event>, writes: seq<Event>, n: nat, d: Disk)
    requires Settled(settled) && AllWrites(writes) && n <= |writes|
    requires CrashState(d0, settled + writes[..n], d)
    ensures Between(Apply(d0, settled), writes, d)
  {
    PendingAfterSettled(d0, settled, writes[..n]);
    forall a: Addr
      ensures At(d, a) == At(Apply(d0, settled), a) || Write(a, At(d, a)) in writes
    {
      if Write(a, At(d, a)) in writes[..n] {
        assert Write(a, At(d, a)) in writes;
      }
    }
  }

  /** Once flushed, only the applied contents can be found. */
  lemma CrashWhenSettled(d0: Disk, settled: seq<Event>, d: Disk)
    requires Settled(settled) && CrashState(d0, settled, d)
    ensures Between(Apply(d0, settled), [], d)
  {
    var none: seq<Event> := [];
    assert settled + none[..0] == settled;
    CrashInBatch(d0, settled, none, 0, d);
  }

  /** Writes to sectors outside `a` leave `a` alone. */
  lemma {:induction false} ApplyElsewhere(d: Disk, run: seq<Event>, a: Addr)
    requires forall i :: 0 <= i < |run| && run[i].Write? ==> run[i].addr != a
    ensures At(Apply(d, run), a) == At(d, a)
    decreases |run|
  {
    if run != [] {
      ApplyElsewhere(d, run[..|run| - 1], a);
    }
  }

  /** A sector written exactly once holds what was written. */
  lemma {:induction false} ApplyOnce(d: Disk, run: seq<Event>, i: nat)
    requires i < |run| && run[i].Write?
    requires forall j :: i < j < |run| && run[j].Write? ==> run[j].addr != run[i].addr
    ensures At(Apply(d, run), run[i].addr) == run[i].data
    decreases |run|
  {
    if i < |run| - 1 {
      ApplyOnce(d, run[..|run| - 1], i);
    }
  }

  // ----- Runs made of flushed batches --------------------------------------------

  /** Nothing at all, or some writes closed by a flush. */
  predicate IsBatch(b: seq<Event>) {
    b == [] || (b[|b| - 1].Flush? && AllWrites(b[..|b| - 1]))
  }

  function Writes(b: seq<Event>): seq<Event> {
    if b == [] then [] else b[..|b| - 1]
  }

  function Joined(batches: seq<seq<Event>>): seq<Event> {
    if batches == [] then [] else Joined(batches[..|batches| - 1]) + batches[|batches| - 1]
  }

  lemma {:induction false} JoinedSettled(batches: seq<seq<Event>>)
    requires forall i :: 0 <= i < |batches| ==> IsBatch(batches[i])
    ensures Settled(Joined(batches))
    decreases |batches|
  {
    if batches != [] {
      var b := batches[|batches| - 1];
      JoinedSettled(batches[..|batches| - 1]);
      var before := Joined(batches[..|batches| - 1]);
      if b == [] {
        assert before + b == before;
      }
    }
  }

  /** However many events were issued, the crash falls inside one batch, with
      every earlier batch durable. `i == |batches|` means all are durable. */
  lemma {:induction false} CrashInSomeBatch(d0: Disk, batches: seq<seq<Event>>, n: nat, d: Disk) returns (i: nat)
    requires forall i :: 0 <= i < |batches| ==> IsBatch(batches[i])
    requires n <= |Joined(batches)| && CrashState(d0, Joined(batches)[..n], d)
    ensures i <= |batches| && (i < |batches| ==> n < |Joined(batches[..i + 1])|)
    ensures (n < |Joined(batches)| ==> i < |batches|)
    ensures Between(Apply(d0, Joined(batches[..i])), if i < |batches| then Writes(batches[i]) else [], d)
    decreases |batches|
  {
    hide Apply, Between, Durable, Pending, AllWrites;
    JoinedSettled(batches);
    if n == |Joined(batches)| {
      assert Joined(batches)[..n] == Joined(batches) && batches[..|batches|] == batches;
      CrashWhenSettled(d0, Joined(batches), d);
      i := |batches|;
    } else {
      var front, b := batches[..|batches| - 1], batches[|batches| - 1];
      var before := Joined(front);
      JoinedSettled(front);
      if n < |before| {
        assert Joined(batches)[..n] == before[..n];
        i := CrashInSomeBatch(d0, front, n, d);
        assert front[..i] == batches[..i];
        assert front[..i + 1] == batches[..i + 1];
      } else {
        var m := n - |before|;
        assert Joined(batches)[..n] == before + Writes(b)[..m];
        CrashInBatch(d0, before, Writes(b), m, d);
        i := |batches| - 1;
        assert batches[..i + 1] == batches;
      }
    }
  }

  /** A completed batch is one of the states its crash may leave. */
  lemma {:induction false} ApplyIsBetween(base: Disk, run: seq<Event>)
    ensures Between(base, run, Apply(base, run))
    decreases |run|
  {
    if run != [] {
      var front := run[..|run| - 1];
      ApplyIsBetween(base, front);
      var d := Apply(base, run);
      forall a: Addr
        ensures At(d, a) == At(base, a) || Write(a, At(d, a)) in run
      {
        assert forall e :: e in front ==> e in run;
        if run[|run| - 1].Write? && run[|run| - 1].addr == a {
          assert run[|run| - 1] in run;
        } else {
          assert At(d, a) == At(Apply(base, front), a);
        }
      }
    }
  }

  lemma BatchIsBetween(base: Disk, b: seq<Event>)
    requires IsBatch(b)
    ensures Between(base, Writes(b), Apply(base, b))
  {
    if b != [] {
      assert Apply(base, b) == Apply(base, Writes(b));
    }
    ApplyIsBetween(base, Writes(b));
  }
}
