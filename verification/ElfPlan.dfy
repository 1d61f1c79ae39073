/** Reading an executable's headers into a load plan. */
module ElfPlan {
  import opened Common
  import opened Disk

  const PAGE := 4096
  const IMAGE_LIMIT := 65536
  const HEADER_BYTES := 52
  const PROGRAM_BYTES := 32
  const PROGRAM_LIMIT := 16
  const PT_NULL := 0
  const PT_LOAD := 1
  const PT_GNU_STACK := 0x6474_E551
  const USER_BASE := 0x8000_0000
  const PROGRAM_END := 0xBFC0_0000
  const PAGE_BUDGET := 4096
  const STACK_PAGES := 16
  const WORD := 0x1_0000_0000

  datatype Program = Program(kind: nat, offset: nat, address: nat, fileBytes: nat, memoryBytes: nat, flags: nat,
                             alignment: nat)

  datatype Segment = Segment(program: Program, start: nat, pages: nat)

  datatype Plan = Plan(entry: nat, segments: seq<Segment>)

  predicate CanExecute(flags: nat) { flags % 2 == 1 }
  predicate CanWrite(flags: nat) { (flags / 2) % 2 == 1 }
  predicate CanRead(flags: nat) { (flags / 4) % 2 == 1 }

  function ReadProgram(image: seq<byte>, at: nat): Program
    requires at + PROGRAM_BYTES <= |image|
  {
    Program(U32(image, at), U32(image, at + 4), U32(image, at + 8), U32(image, at + 16),
            U32(image, at + 20), U32(image, at + 24), U32(image, at + 28))
  }

  /** The magic number, 32-bit little-endian class, version 1, no ABI. */
  const IDENT: seq<byte> := [0x7F, 0x45, 0x4C, 0x46, 1, 1, 1, 0, 0]

  predicate HeaderOk(image: seq<byte>) {
    && HEADER_BYTES <= |image| <= IMAGE_LIMIT && image[..9] == IDENT
    && U16(image, 16) == 2 && U16(image, 18) == 3 && U32(image, 20) == 1 && U32(image, 36) == 0
    && U16(image, 40) == HEADER_BYTES && U16(image, 42) == PROGRAM_BYTES
    && 0 < U16(image, 44) <= PROGRAM_LIMIT
    && HEADER_BYTES <= U32(image, 28) && U32(image, 28) + U16(image, 44) * PROGRAM_BYTES <= |image|
  }

  /** The program headers. */
  function Programs(image: seq<byte>): seq<Program>
    requires HeaderOk(image)
  {
    seq(U16(image, 44), i requires 0 <= i < U16(image, 44) => ReadProgram(image, U32(image, 28) + i * PROGRAM_BYTES))
  }

  predicate PowerOfTwo(n: nat) {
    n == 1 || (n > 0 && n % 2 == 0 && PowerOfTwo(n / 2))
  }

  /** A program header the loader takes, wherever it stands. */
  predicate Allowed(p: Program, bytes: nat) {
    || p.kind == PT_NULL
    || (p.kind == PT_GNU_STACK && p.flags == 6 && p.fileBytes == 0 && p.memoryBytes == 0)
    || (p.kind == PT_LOAD && p.fileBytes <= p.memoryBytes && p.offset + p.fileBytes <= bytes
        && CanRead(p.flags) && p.flags < 8 && !(CanWrite(p.flags) && CanExecute(p.flags))
        && (p.memoryBytes > 0 ==> Placed(p)))
  }

  /** Aligned with the file and inside the program window. */
  predicate Placed(p: Program) {
    && (p.alignment > 1 ==> PowerOfTwo(p.alignment) && Congruent(p))
    && p.address % PAGE == p.offset % PAGE
    && USER_BASE <= p.address < PROGRAM_END && p.address + p.memoryBytes <= PROGRAM_END
  }

  predicate Congruent(p: Program)
    requires p.alignment > 1
  {
    p.address % p.alignment == p.offset % p.alignment
  }

  predicate Loads(p: Program) { p.kind == PT_LOAD && p.memoryBytes > 0 }

  /** The whole pages a program covers. */
  function SegmentOf(p: Program): Segment {
    Segment(p, p.address / PAGE * PAGE, (p.address + p.memoryBytes + PAGE - 1) / PAGE - p.address / PAGE)
  }

  function SegmentsOf(ps: seq<Program>): seq<Segment> {
    if ps == [] then []
    else SegmentsOf(ps[..|ps| - 1]) + if Loads(ps[|ps| - 1]) then [SegmentOf(ps[|ps| - 1])] else []
  }

  function SegmentEnd(s: Segment): nat { s.start + s.pages * PAGE }

  function Total(segments: seq<Segment>): nat {
    if segments == [] then 0 else Total(segments[..|segments| - 1]) + segments[|segments| - 1].pages
  }

  /** Each segment starts at or after the end of the one before. */
  predicate Ascending(segments: seq<Segment>) {
    forall i :: 0 <= i < |segments| ==> StartsAfter(segments, i)
  }

  predicate StartsAfter(segments: seq<Segment>, i: nat)
    requires i < |segments|
  {
    segments[i].start >= PreviousEnd(segments, i)
  }

  function PreviousEnd(segments: seq<Segment>, i: nat): nat
    requires i <= |segments|
  {
    if i == 0 then USER_BASE else SegmentEnd(segments[i - 1])
  }

  function Stacks(ps: seq<Program>): nat {
    if ps == [] then 0 else Stacks(ps[..|ps| - 1]) + if ps[|ps| - 1].kind == PT_GNU_STACK then 1 else 0
  }

  /** The entry point lies in the file-backed part of an executable segment. */
  predicate Enters(entry: nat, segments: seq<Segment>) {
    exists i :: 0 <= i < |segments| && EntersAt(entry, segments[i])
  }

  predicate EntersAt(entry: nat, s: Segment) {
    CanExecute(s.program.flags) && s.program.address <= entry < s.program.address + s.program.fileBytes
  }

  /** Images the loader accepts. */
  predicate Loadable(image: seq<byte>) {
    HeaderOk(image) && var ps := Programs(image);
    Acceptable(ps, |image|) && Stacks(ps) == 1 && Enters(U32(image, 24), SegmentsOf(ps))
  }

  /** Rounding a segment's end up cannot wrap around 32 bits. */
  lemma EndFits(p: Program)
    requires Placed(p) && p.memoryBytes > 0
    ensures p.address + p.memoryBytes + PAGE - 1 < WORD
    ensures SegmentEnd(SegmentOf(p)) == (p.address + p.memoryBytes + PAGE - 1) / PAGE * PAGE <= PROGRAM_END
    ensures SegmentOf(p).pages > 0 && SegmentOf(p).start <= p.address
    ensures p.address + p.memoryBytes <= SegmentEnd(SegmentOf(p)) && USER_BASE <= SegmentOf(p).start
  {
  }

  method PlanImage(image: seq<byte>) returns (r: Option<Plan>)
    ensures r.Some? <==> Loadable(image)
    ensures r.Some? ==> r.value == Plan(U32(image, 24), SegmentsOf(Programs(image)))
  {
    r := None;
    if |image| < HEADER_BYTES || |image| > IMAGE_LIMIT { return; }
    var phoff, phnum := U32(image, 28), U16(image, 44);
    if image[..9] != IDENT || U16(image, 16) != 2 || U16(image, 18) != 3 || U32(image, 20) != 1 || U32(image, 36) != 0 {
      return;
    }
    if U16(image, 40) != HEADER_BYTES || U16(image, 42) != PROGRAM_BYTES || phnum == 0 || phnum > PROGRAM_LIMIT {
      return;
    }
    if phoff < HEADER_BYTES || phoff > |image| || phnum * PROGRAM_BYTES > |image| - phoff { return; }
    r := PlanPrograms(image, phoff, phnum);
  }

  method PlanPrograms(image: seq<byte>, phoff: nat, phnum: nat) returns (r: Option<Plan>)
    requires HeaderOk(image) && phoff == U32(image, 28) && phnum == U16(image, 44)
    ensures r.Some? <==> Loadable(image)
    ensures r.Some? ==> r.value == Plan(U32(image, 24), SegmentsOf(Programs(image)))
  {
    r := None;
    var start := U32(image, 24);
    ghost var ps := Programs(image);
    ProgramsLength(image);
    NothingYet(ps, start);
    hide HeaderOk, U32, U16, Programs, ReadProgram, SegmentsOf, Stacks, Total, Ascending, Enters, Scanned, Allowed;
    var state := Scan([], USER_BASE, STACK_PAGES, false, false);
    for i := 0 to phnum
      invariant Scanned(state, ps[..i], |image|, start)
    {
      ProgramAt(image, i);
      var p := ReadProgram(image, phoff + i * PROGRAM_BYTES);
      ScanStep(ps, i, start);
      var next := TakeProgram(state, p, |image|, start, ps[..i]);
      assert ps[..i + 1] == ps[..i] + [p];
      if next.None? {
        Rejected(ps, i, |image|, start);
        return;
      }
      state := next.value;
    }
    assert ps[..phnum] == ps;
    ScannedAll(state, ps, |image|, start);
    if state.entry && state.stack { r := Some(Plan(start, state.segments)); }
  }

  /** What the scan of the headers carries along. */
  datatype Scan = Scan(segments: seq<Segment>, previousEnd: nat, pages: nat, stack: bool, entry: bool)

  /** The scan has taken all the headers `ps`. */
  predicate Scanned(state: Scan, ps: seq<Program>, bytes: nat, start: nat) {
    && Acceptable(ps, bytes) && state.segments == SegmentsOf(ps)
    && state.previousEnd == PreviousEnd(SegmentsOf(ps), |SegmentsOf(ps)|)
    && state.pages == STACK_PAGES + Total(SegmentsOf(ps)) && state.stack == (Stacks(ps) == 1)
    && state.entry == Enters(start, SegmentsOf(ps))
  }

  /** Headers that can still be part of a loadable image. */
  predicate Acceptable(ps: seq<Program>, bytes: nat) {
    && (forall j :: 0 <= j < |ps| ==> Allowed(ps[j], bytes)) && Stacks(ps) <= 1
    && Ascending(SegmentsOf(ps)) && Total(SegmentsOf(ps)) + STACK_PAGES <= PAGE_BUDGET
  }

  lemma ScannedAll(state: Scan, ps: seq<Program>, bytes: nat, start: nat)
    requires Scanned(state, ps, bytes, start)
    ensures state.segments == SegmentsOf(ps) && Acceptable(ps, bytes) && state.stack == (Stacks(ps) == 1)
    ensures state.entry == Enters(start, SegmentsOf(ps))
  {
  }

  /** A prefix that is not acceptable rules the whole list out. */
  lemma Rejected(ps: seq<Program>, i: nat, bytes: nat, start: nat)
    requires i < |ps| && !Acceptable(ps[..i + 1], bytes)
    ensures !Acceptable(ps, bytes)
  {
    ScanStep(ps, i, start);
    hide SegmentsOf, Stacks, Total, Ascending, Allowed;
    var shorter := ps[..i + 1];
    assert forall j :: 0 <= j < |shorter| ==> shorter[j] == ps[j];
  }

  /** Take the next header, or refuse. */
  method TakeProgram(state: Scan, p: Program, bytes: nat, start: nat, ghost ps: seq<Program>) returns (r: Option<Scan>)
    requires Scanned(state, ps, bytes, start)
    ensures r.Some? <==> Acceptable(ps + [p], bytes)
    ensures r.Some? ==> Scanned(r.value, ps + [p], bytes, start)
  {
    OneMore(ps, p, bytes);
    hide SegmentsOf, Stacks, Total, Ascending, Enters, PreviousEnd, SegmentOf, Placed, CanRead, CanWrite, PowerOfTwo;
    if p.kind == PT_NULL { return Some(state); }
    if p.kind == PT_GNU_STACK {
      if state.stack || p.flags != 6 || p.fileBytes != 0 || p.memoryBytes != 0 { return None; }
      return Some(state.(stack := true));
    }
    var fine, low, end := CheckLoad(p, bytes);
    if !fine { return None; }
    if p.memoryBytes == 0 { return Some(state); }
    var count := (end - low) / PAGE;
    AppendSegment(state.segments, SegmentOf(p), start);
    if low < state.previousEnd || count > PAGE_BUDGET - state.pages { return None; }
    var enters := CanExecute(p.flags) && start >= p.address && start - p.address < p.fileBytes;
    r := Some(Scan(state.segments + [Segment(p, low, count)], end, state.pages + count, state.stack,
                   state.entry || enters));
  }

  lemma OneMore(ps: seq<Program>, p: Program, bytes: nat)
    ensures SegmentsOf(ps + [p]) == if Loads(p) then SegmentsOf(ps) + [SegmentOf(p)] else SegmentsOf(ps)
    ensures Stacks(ps + [p]) == Stacks(ps) + if p.kind == PT_GNU_STACK then 1 else 0
    ensures (forall j :: 0 <= j < |ps + [p]| ==> Allowed((ps + [p])[j], bytes)) <==>
      (forall j :: 0 <= j < |ps| ==> Allowed(ps[j], bytes)) && Allowed(p, bytes)
  {
    var longer := ps + [p];
    assert longer[..|ps|] == ps && longer[|ps|] == p;
    hide Allowed;
    assert forall j :: 0 <= j < |ps| ==> longer[j] == ps[j];
  }

  lemma NothingYet(ps: seq<Program>, start: nat)
    ensures forall bytes :: Scanned(Scan([], USER_BASE, STACK_PAGES, false, false), ps[..0], bytes, start)
  {
  }

  /** Test a load header; its page bounds if it takes memory. */
  method CheckLoad(p: Program, bytes: nat) returns (ok: bool, low: nat, end: nat)
    requires p.kind != PT_NULL && p.kind != PT_GNU_STACK
    ensures ok <==> Allowed(p, bytes)
    ensures ok ==> p.kind == PT_LOAD
    ensures ok && p.memoryBytes > 0 ==>
      low <= end && SegmentOf(p) == Segment(p, low, (end - low) / PAGE) && SegmentEnd(SegmentOf(p)) == end
  {
    hide Congruent, PowerOfTwo;
    ok, low, end := false, 0, 0;
    if p.kind != PT_LOAD || p.fileBytes > p.memoryBytes || p.offset > bytes || p.fileBytes > bytes - p.offset {
      return;
    }
    if !CanRead(p.flags) || p.flags >= 8 || (CanWrite(p.flags) && CanExecute(p.flags)) { return; }
    ok := true;
    if p.memoryBytes == 0 { return; }
    ok := false;
    if p.alignment > 1 && (!PowerOfTwo(p.alignment) || !Congruent(p)) { return; }
    if p.address % PAGE != p.offset % PAGE || p.address < USER_BASE || p.address >= PROGRAM_END { return; }
    if p.memoryBytes > PROGRAM_END - p.address { return; }
    EndFits(p);
    low, end := p.address / PAGE * PAGE, (p.address + p.memoryBytes + PAGE - 1) % WORD / PAGE * PAGE;
    ok := true;
  }

  lemma ProgramsLength(image: seq<byte>)
    requires HeaderOk(image)
    ensures |Programs(image)| == U16(image, 44)
  {
  }

  lemma ProgramAt(image: seq<byte>, i: nat)
    requires HeaderOk(image) && i < U16(image, 44)
    ensures U32(image, 28) + i * PROGRAM_BYTES + PROGRAM_BYTES <= |image|
    ensures i < |Programs(image)| && Programs(image)[i] == ReadProgram(image, U32(image, 28) + i * PROGRAM_BYTES)
  {
  }

  /** One more header, and what the whole list owes to it. */
  lemma ScanStep(ps: seq<Program>, i: nat, entry: nat)
    requires i < |ps|
    ensures SegmentsOf(ps[..i + 1]) == SegmentsOf(ps[..i]) + if Loads(ps[i]) then [SegmentOf(ps[i])] else []
    ensures Stacks(ps[..i + 1]) == Stacks(ps[..i]) + if ps[i].kind == PT_GNU_STACK then 1 else 0
    ensures SegmentsOf(ps[..i + 1]) <= SegmentsOf(ps) && Stacks(ps[..i + 1]) <= Stacks(ps)
    ensures Total(SegmentsOf(ps[..i + 1])) <= Total(SegmentsOf(ps))
    ensures !Ascending(SegmentsOf(ps[..i + 1])) ==> !Ascending(SegmentsOf(ps))
  {
    assert ps[..i + 1][..i] == ps[..i];
    Prefixes(ps, i + 1);
    TotalPrefix(SegmentsOf(ps[..i + 1]), SegmentsOf(ps));
    if Ascending(SegmentsOf(ps)) { AscendingPrefix(SegmentsOf(ps[..i + 1]), SegmentsOf(ps)); }
  }

  lemma AscendingPrefix(a: seq<Segment>, b: seq<Segment>)
    requires a <= b && Ascending(b)
    ensures Ascending(a)
  {
    forall i | 0 <= i < |a|
      ensures StartsAfter(a, i)
    {
      assert StartsAfter(b, i);
    }
  }

  lemma {:induction false} Prefixes(ps: seq<Program>, n: nat)
    requires n <= |ps|
    ensures SegmentsOf(ps[..n]) <= SegmentsOf(ps) && Stacks(ps[..n]) <= Stacks(ps)
    decreases |ps|
  {
    if n < |ps| {
      var init := ps[..|ps| - 1];
      assert init[..n] == ps[..n];
      Prefixes(init, n);
    } else {
      assert ps[..n] == ps;
    }
  }

  lemma {:induction false} TotalPrefix(a: seq<Segment>, b: seq<Segment>)
    requires a <= b
    ensures Total(a) <= Total(b)
    decreases |b|
  {
    if |a| < |b| { TotalPrefix(a, b[..|b| - 1]); } else { assert a == b; }
  }

  lemma AppendSegment(segments: seq<Segment>, s: Segment, entry: nat)
    ensures Total(segments + [s]) == Total(segments) + s.pages
    ensures PreviousEnd(segments + [s], |segments| + 1) == SegmentEnd(s)
    ensures Enters(entry, segments + [s]) <==> Enters(entry, segments) || EntersAt(entry, s)
    ensures Ascending(segments + [s]) <==> Ascending(segments) && s.start >= PreviousEnd(segments, |segments|)
  {
    var longer := segments + [s];
    assert longer[..|segments|] == segments;
    assert longer[|segments|] == s;
    AppendEnters(segments, s, entry);
    AppendAscending(segments, s);
  }

  lemma AppendEnters(segments: seq<Segment>, s: Segment, entry: nat)
    ensures Enters(entry, segments + [s]) <==> Enters(entry, segments) || EntersAt(entry, s)
  {
    var longer := segments + [s];
    if Enters(entry, segments) {
      var i :| 0 <= i < |segments| && EntersAt(entry, segments[i]);
      assert longer[i] == segments[i];
    }
    assert longer[|segments|] == s;
  }

  lemma AppendAscending(segments: seq<Segment>, s: Segment)
    ensures Ascending(segments + [s]) <==> Ascending(segments) && s.start >= PreviousEnd(segments, |segments|)
  {
    var longer := segments + [s];
    assert forall i :: 0 <= i < |segments| ==> StartsAfter(longer, i) == StartsAfter(segments, i);
    assert StartsAfter(longer, |segments|) == (s.start >= PreviousEnd(segments, |segments|));
    if Ascending(longer) {
      AscendingPrefix(segments, longer);
      assert StartsAfter(longer, |segments|);
    }
  }

  // ----- What an accepted plan promises ---------------------------------------------------------------

  /** A segment of whole pages inside the program window, backed by bytes of the image. */
  predicate SegmentOk(s: Segment, bytes: nat) {
    && s.start % PAGE == 0 && s.pages > 0 && USER_BASE <= s.start && SegmentEnd(s) <= PROGRAM_END
    && s.start <= s.program.address && s.program.address + s.program.memoryBytes <= SegmentEnd(s)
    && s.program.fileBytes <= s.program.memoryBytes && s.program.offset + s.program.fileBytes <= bytes
    && !(CanWrite(s.program.flags) && CanExecute(s.program.flags))
  }

  lemma {:induction false} AllSegmentsOk(ps: seq<Program>, bytes: nat)
    requires forall j :: 0 <= j < |ps| ==> Allowed(ps[j], bytes)
    ensures forall i :: 0 <= i < |SegmentsOf(ps)| ==> SegmentOk(SegmentsOf(ps)[i], bytes)
    decreases |ps|
  {
    if ps != [] {
      var last := ps[|ps| - 1];
      AllSegmentsOk(ps[..|ps| - 1], bytes);
      assert Allowed(last, bytes);
      if Loads(last) { EndFits(last); }
    }
  }

  /** Segments further on start after this one ends. */
  lemma {:induction false} SegmentsApart(segments: seq<Segment>, i: nat, j: nat)
    requires Ascending(segments) && i < j < |segments|
    requires forall k :: 0 <= k < |segments| ==> segments[k].pages > 0
    ensures SegmentEnd(segments[i]) <= segments[j].start
    decreases j
  {
    assert StartsAfter(segments, j);
    if i < j - 1 { SegmentsApart(segments, i, j - 1); }
  }

  /** A plan for a loadable image: page-disjoint segments inside the window, within the page
      budget with the stack, and an entry point in executable file bytes. */
  lemma PlanPromises(image: seq<byte>, i: nat, j: nat)
    requires Loadable(image)
    ensures var segments := SegmentsOf(Programs(image));
      && (i < |segments| ==> SegmentOk(segments[i], |image|))
      && (i < j < |segments| ==> SegmentEnd(segments[i]) <= segments[j].start)
      && Total(segments) + STACK_PAGES <= PAGE_BUDGET && Enters(U32(image, 24), segments)
  {
    hide HeaderOk, U32, U16, Programs;
    var ps := Programs(image);
    AllSegmentsOk(ps, |image|);
    if i < j < |SegmentsOf(ps)| { SegmentsApart(SegmentsOf(ps), i, j); }
  }
}
