/** The argument packet of a launch: strings packed one after the other. */
module Arguments {
  import opened Disk

  const ARGUMENT_LIMIT := 32
  const ARGUMENT_BYTES := 4096

  datatype Packet = Packet(argc: nat, stringBytes: nat, offsets: seq<nat>, strings: seq<byte>)

  /** The fixed sizes of the packet's arrays. */
  predicate Shaped(p: Packet) {
    |p.offsets| == ARGUMENT_LIMIT && |p.strings| == ARGUMENT_BYTES
  }

  /** Strings with a terminator after each. */
  function Pack(strs: seq<seq<byte>>): seq<byte> {
    if strs == [] then [] else Pack(strs[..|strs| - 1]) + strs[|strs| - 1] + [0]
  }

  /** The packet holds exactly these strings, none containing a zero byte, in order. */
  ghost predicate Packs(p: Packet, strs: seq<seq<byte>>)
    requires Shaped(p) && p.argc <= ARGUMENT_LIMIT && p.stringBytes <= ARGUMENT_BYTES
  {
    && |strs| == p.argc && (forall i :: 0 <= i < |strs| ==> 0 !in strs[i])
    && p.strings[..p.stringBytes] == Pack(strs) && (forall i :: 0 <= i < |strs| ==> p.offsets[i] == |Pack(strs[..i])|)
  }

  ghost predicate WellPacked(p: Packet) {
    && Shaped(p) && 0 < p.argc <= ARGUMENT_LIMIT && 0 < p.stringBytes <= ARGUMENT_BYTES && exists strs :: Packs(p, strs)
  }

  lemma {:induction false} PackPrefix(strs: seq<seq<byte>>, i: nat)
    requires i <= |strs|
    ensures Pack(strs[..i]) <= Pack(strs)
    decreases |strs|
  {
    if i < |strs| {
      var init := strs[..|strs| - 1];
      assert init[..i] == strs[..i];
      PackPrefix(init, i);
      assert Pack(init) <= Pack(strs);
    } else {
      assert strs[..i] == strs;
    }
  }

  /** The next string stands where the earlier ones end. */
  lemma PackNext(strs: seq<seq<byte>>, i: nat)
    requires i < |strs|
    ensures Pack(strs[..i + 1]) == Pack(strs[..i]) + strs[i] + [0] && Pack(strs[..i + 1]) <= Pack(strs)
  {
    assert strs[..i + 1][..i] == strs[..i];
    PackPrefix(strs, i + 1);
  }

  /** Accept exactly the packets that hold strings; they are then determined. */
  method ArgumentsValid(p: Packet) returns (ok: bool, ghost strs: seq<seq<byte>>)
    requires Shaped(p)
    ensures ok <==> WellPacked(p)
    ensures ok ==> Packs(p, strs)
  {
    hide Packs, Taken;
    strs := [];
    if p.argc == 0 || p.argc > ARGUMENT_LIMIT || p.stringBytes == 0 || p.stringBytes > ARGUMENT_BYTES {
      return false, [];
    }
    var cursor := 0;
    TakenNone(p);
    for i := 0 to p.argc
      invariant cursor <= p.stringBytes && Taken(p, i, strs, cursor)
    {
      var found, end := TakeString(p, i, strs, cursor);
      if !found { return false, []; }
      TakenNext(p, i, strs, cursor, end);
      strs := strs + [p.strings[cursor..end]];
      cursor := end + 1;
    }
    TakenAll(p, strs, cursor);
    ok := cursor == p.stringBytes;
  }

  /** The first `i` strings are `strs` and end at `cursor`; no reading of the packet has
      other ones. */
  ghost predicate Taken(p: Packet, i: nat, strs: seq<seq<byte>>, cursor: nat)
    requires Shaped(p) && p.argc <= ARGUMENT_LIMIT && p.stringBytes <= ARGUMENT_BYTES
  {
    Prefix(p, i, strs, cursor) && forall s :: Packs(p, s) ==> s[..i] == strs
  }

  ghost predicate Prefix(p: Packet, i: nat, strs: seq<seq<byte>>, cursor: nat)
    requires Shaped(p) && p.argc <= ARGUMENT_LIMIT && p.stringBytes <= ARGUMENT_BYTES
  {
    && |strs| == i <= p.argc && cursor == |Pack(strs)| <= p.stringBytes && p.strings[..cursor] == Pack(strs)
    && (forall j :: 0 <= j < i ==> 0 !in strs[j]) && (forall j :: 0 <= j < i ==> p.offsets[j] == |Pack(strs[..j])|)
  }

  lemma TakenNone(p: Packet)
    requires Shaped(p) && p.argc <= ARGUMENT_LIMIT && p.stringBytes <= ARGUMENT_BYTES
    ensures Taken(p, 0, [], 0)
  {
  }

  /** The string at the cursor, up to the first zero byte. */
  method TakeString(p: Packet, i: nat, ghost strs: seq<seq<byte>>, cursor: nat) returns (ok: bool, end: nat)
    requires Shaped(p) && i < p.argc <= ARGUMENT_LIMIT && p.stringBytes <= ARGUMENT_BYTES && Taken(p, i, strs, cursor)
    ensures ok ==>
      && cursor <= end < p.stringBytes && p.strings[end] == 0 && p.offsets[i] == cursor
      && forall x :: cursor <= x < end ==> p.strings[x] != 0
    ensures !ok ==> forall s :: !Packs(p, s)
  {
    hide Packs, Taken;
    end := cursor;
    forall s | Packs(p, s)
      ensures p.offsets[i] == cursor && NextString(p, s, i, cursor)
    {
      TakenString(p, i, strs, cursor, s);
    }
    if p.offsets[i] != cursor { return false, end; }
    assert cursor <= p.stringBytes by { TakenBound(p, i, strs, cursor); }
    while end < p.stringBytes && p.strings[end] != 0
      invariant cursor <= end <= p.stringBytes && forall x :: cursor <= x < end ==> p.strings[x] != 0
    {
      end := end + 1;
    }
    ok := end < p.stringBytes;
    forall s | Packs(p, s)
      ensures ok
    {
      assert NextString(p, s, i, cursor);
      StringEnds(p, s[i], cursor, end);
    }
  }

  lemma TakenBound(p: Packet, i: nat, strs: seq<seq<byte>>, cursor: nat)
    requires Shaped(p) && p.argc <= ARGUMENT_LIMIT && p.stringBytes <= ARGUMENT_BYTES && Taken(p, i, strs, cursor)
    ensures cursor <= p.stringBytes
  {
  }

  lemma TakenString(p: Packet, i: nat, strs: seq<seq<byte>>, cursor: nat, s: seq<seq<byte>>)
    requires Shaped(p) && i < p.argc <= ARGUMENT_LIMIT && p.stringBytes <= ARGUMENT_BYTES && Taken(p, i, strs, cursor)
    requires Packs(p, s)
    ensures |s| == p.argc && s[..i] == strs && p.offsets[i] == cursor && NextString(p, s, i, cursor)
  {
    assert s[..i] == strs;
    NextIs(p, s, i, cursor);
  }

  lemma TakenNext(p: Packet, i: nat, strs: seq<seq<byte>>, cursor: nat, end: nat)
    requires Shaped(p) && i < p.argc <= ARGUMENT_LIMIT && p.stringBytes <= ARGUMENT_BYTES && Taken(p, i, strs, cursor)
    requires cursor <= end < p.stringBytes && p.strings[end] == 0 && p.offsets[i] == cursor
    requires forall x :: cursor <= x < end ==>
      p.strings[x] != 0
    ensures Taken(p, i + 1, strs + [p.strings[cursor..end]], end + 1)
  {
    hide Pack, Prefix;
    var more := strs + [p.strings[cursor..end]];
    PrefixNext(p, i, strs, cursor, end);
    forall s | Packs(p, s)
      ensures s[..i + 1] == more
    {
      TakenUnique(p, i, strs, cursor, end, s);
    }
  }

  lemma PrefixNext(p: Packet, i: nat, strs: seq<seq<byte>>, cursor: nat, end: nat)
    requires Shaped(p) && i < p.argc <= ARGUMENT_LIMIT && p.stringBytes <= ARGUMENT_BYTES && Prefix(p, i, strs, cursor)
    requires cursor <= end < p.stringBytes && p.strings[end] == 0 && p.offsets[i] == cursor
    requires forall x :: cursor <= x < end ==>
      p.strings[x] != 0
    ensures Prefix(p, i + 1, strs + [p.strings[cursor..end]], end + 1)
  {
    var more := strs + [p.strings[cursor..end]];
    PackMore(p, strs, cursor, end);
    hide Pack;
    forall j | 0 <= j < i + 1
      ensures 0 !in more[j] && p.offsets[j] == |Pack(more[..j])|
    {
      if j < i {
        assert more[..j] == strs[..j] && more[j] == strs[j];
      } else {
        assert more[..i] == strs;
      }
    }
  }

  lemma PackMore(p: Packet, strs: seq<seq<byte>>, cursor: nat, end: nat)
    requires Shaped(p) && cursor <= end < ARGUMENT_BYTES && p.strings[..cursor] == Pack(strs) && p.strings[end] == 0
    ensures Pack(strs + [p.strings[cursor..end]]) == p.strings[..end + 1]
  {
    var more := strs + [p.strings[cursor..end]];
    assert more[..|strs|] == strs;
    assert p.strings[..end + 1] == p.strings[..cursor] + p.strings[cursor..end] + [0];
  }

  lemma TakenUnique(p: Packet, i: nat, strs: seq<seq<byte>>, cursor: nat, end: nat, s: seq<seq<byte>>)
    requires Shaped(p) && i < p.argc <= ARGUMENT_LIMIT && p.stringBytes <= ARGUMENT_BYTES && Taken(p, i, strs, cursor)
    requires Packs(p, s)
    requires cursor <= end < p.stringBytes && p.strings[end] == 0 && forall x :: cursor <= x < end ==> p.strings[x] != 0
    ensures |s| == p.argc && s[..i + 1] == strs + [p.strings[cursor..end]]
  {
    TakenString(p, i, strs, cursor, s);
    hide Packs, Taken, Pack;
    StringEnds(p, s[i], cursor, end);
    assert s[..i + 1] == s[..i] + [s[i]];
  }

  lemma TakenAll(p: Packet, strs: seq<seq<byte>>, cursor: nat)
    requires Shaped(p) && p.argc <= ARGUMENT_LIMIT && p.stringBytes <= ARGUMENT_BYTES && Taken(p, p.argc, strs, cursor)
    ensures cursor == p.stringBytes ==> Packs(p, strs)
    ensures (exists s :: Packs(p, s)) ==> cursor == p.stringBytes
  {
    forall s | Packs(p, s)
      ensures cursor == p.stringBytes
    {
      assert s[..p.argc] == s;
    }
  }

  /** String `i` of `s` and its terminator lie at `at` in the packet. */
  ghost predicate NextString(p: Packet, s: seq<seq<byte>>, i: nat, at: nat) {
    Shaped(p) && i < |s| && at + |s[i]| < p.stringBytes <= ARGUMENT_BYTES &&
    p.strings[at..at + |s[i]|] == s[i] && p.strings[at + |s[i]|] == 0 && 0 !in s[i]
  }

  lemma NextIs(p: Packet, s: seq<seq<byte>>, i: nat, at: nat)
    requires Shaped(p) && p.argc <= ARGUMENT_LIMIT && p.stringBytes <= ARGUMENT_BYTES && Packs(p, s) && i < |s|
    requires at == |Pack(s[..i])|
    ensures NextString(p, s, i, at)
  {
    PackNext(s, i);
    var whole, piece := Pack(s), Pack(s[..i + 1]);
    assert piece == Pack(s[..i]) + s[i] + [0];
    assert forall x :: 0 <= x < |piece| ==> p.strings[x] == p.strings[..p.stringBytes][x] == whole[x] == piece[x];
    assert forall x :: 0 <= x < |s[i]| ==> piece[at + x] == s[i][x];
  }

  lemma StringEnds(p: Packet, str: seq<byte>, at: nat, end: nat)
    requires Shaped(p) && p.stringBytes <= ARGUMENT_BYTES && at + |str| < p.stringBytes
    requires p.strings[at..at + |str|] == str && p.strings[at + |str|] == 0 && 0 !in str
    requires at <= end <= p.stringBytes && (forall x :: at <= x < end ==> p.strings[x] != 0)
    requires (end < p.stringBytes ==> p.strings[end] == 0)
    ensures end == at + |str|
  {
    assert forall x :: at <= x < at + |str| ==> p.strings[x] == str[x - at];
  }
}
