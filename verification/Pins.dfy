/** The backend's table of retained identities. No identity is the root. */
module Pins {
  import opened Common
  import opened Errors
  import opened Layout

  const OBJECT_LIMIT := 128
  const COUNT_LIMIT := 0xffff_ffff

  datatype Pin = Pin(id: Option<Slot>, count: nat)

  class PinTable {
    var pins: seq<Pin>

    /** Held identities are distinct. */
    ghost predicate Valid()
      reads this
    {
      && |pins| == OBJECT_LIMIT
      && (forall i, j :: 0 <= i < j < |pins| && pins[i].count > 0 && pins[j].count > 0 ==> pins[i].id != pins[j].id)
    }

    constructor ()
      ensures Valid() && forall id :: Count(id) == 0
    {
      pins := seq(OBJECT_LIMIT, _ => Pin(None, 0));
      new;
      forall id
        ensures Count(id) == 0
      {
        CountNone(pins, id);
      }
    }

    /** How often an identity is retained. */
    ghost function Count(id: Option<Slot>): nat
      reads this
    {
      CountIn(pins, id)
    }

    /** The identities held. */
    ghost function Held(): set<Option<Slot>>
      reads this
    {
      set p | p in pins && p.count > 0 :: p.id
    }

    method Pinned(id: Option<Slot>) returns (held: bool)
      requires Valid()
      ensures held <==> Count(id) > 0
    {
      for i := 0 to |pins|
        invariant forall j :: 0 <= j < i ==> pins[j].count == 0 || pins[j].id != id
      {
        if pins[i].count > 0 && pins[i].id == id {
          CountIs(pins, id, i);
          return true;
        }
      }
      CountNone(pins, id);
      held := false;
    }

    /** One more retention. Refused only if the table is full of other identities or
        the counter is at its limit. */
    method Retain(id: Option<Slot>) returns (error: FsError)
      requires Valid()
      modifies this
      ensures Valid() && error in {Ok, NoSpace}
      ensures error == Ok ==> forall x :: CountIn(pins, x) == CountIn(old(pins), x) + (if x == id then 1 else 0)
      ensures error != Ok ==> pins == old(pins)
      ensures error != Ok <==>
        old(Count(id)) == COUNT_LIMIT || (old(Count(id)) == 0 && forall p :: p in old(pins) ==> p.count > 0)
    {
      hide CountIn;
      var empty: nat := |pins|;
      for i := 0 to |pins|
        invariant forall j :: 0 <= j < i ==> pins[j].count == 0 || pins[j].id != id
        invariant empty <= |pins| && (empty < |pins| ==> empty < i && pins[empty].count == 0)
        invariant empty == |pins| ==> forall j :: 0 <= j < i ==> pins[j].count > 0
      {
        if pins[i].count == 0 {
          if empty == |pins| { empty := i; }
        } else if pins[i].id == id {
          CountIs(pins, id, i);
          if pins[i].count == COUNT_LIMIT { return NoSpace; }
          ghost var before := pins;
          pins := pins[i := pins[i].(count := pins[i].count + 1)];
          CountUpdated(before, i, pins[i]);
          return Ok;
        }
      }
      CountNone(pins, id);
      if empty == |pins| { return NoSpace; }
      ghost var before := pins;
      assert pins[empty] in pins;
      pins := pins[empty := Pin(id, 1)];
      CountUpdated(before, empty, pins[empty]);
      error := Ok;
    }

    /** Undo one retention; harmless if there is none. */
    method Release(id: Option<Slot>)
      requires Valid()
      modifies this
      ensures Valid()
      ensures forall x ::
        CountIn(pins, x) == CountIn(old(pins), x) - (if x == id && CountIn(old(pins), x) > 0 then 1 else 0)
    {
      for i := 0 to |pins|
        invariant forall j :: 0 <= j < i ==> pins[j].count == 0 || pins[j].id != id
      {
        if pins[i].count > 0 && pins[i].id == id {
          CountIs(pins, id, i);
          ghost var before := pins;
          pins := pins[i := pins[i].(count := pins[i].count - 1)];
          CountUpdated(before, i, pins[i]);
          return;
        }
      }
      CountNone(pins, id);
    }
  }

  function CountOf(p: Pin, id: Option<Slot>): nat { if p.id == id then p.count else 0 }

  ghost function CountIn(pins: seq<Pin>, id: Option<Slot>): nat {
    if pins == [] then 0
    else CountIn(pins[..|pins| - 1], id) + CountOf(pins[|pins| - 1], id)
  }

  lemma {:induction false} CountNone(pins: seq<Pin>, id: Option<Slot>)
    requires forall j :: 0 <= j < |pins| ==> pins[j].count == 0 || pins[j].id != id
    ensures CountIn(pins, id) == 0
    decreases |pins|
  {
    if pins != [] { CountNone(pins[..|pins| - 1], id); }
  }

  /** With distinct identities the count is the one matching entry's. */
  lemma {:induction false} CountIs(pins: seq<Pin>, id: Option<Slot>, i: nat)
    requires forall i, j :: 0 <= i < j < |pins| && pins[i].count > 0 && pins[j].count > 0 ==> pins[i].id != pins[j].id
    requires i < |pins| && pins[i].count > 0 && pins[i].id == id
    ensures CountIn(pins, id) == pins[i].count
    decreases |pins|
  {
    var front := pins[..|pins| - 1];
    if i == |pins| - 1 {
      CountNone(front, id);
    } else {
      CountIs(front, id, i);
    }
  }

  lemma {:induction false} CountUpdated(pins: seq<Pin>, i: nat, p: Pin)
    requires i < |pins| && (p.id == pins[i].id || pins[i].count == 0)
    ensures forall x :: CountIn(pins[i := p], x) == CountIn(pins, x) - CountOf(pins[i], x) + CountOf(p, x)
    decreases |pins|
  {
    var after, front := pins[i := p], pins[..|pins| - 1];
    if i == |pins| - 1 {
      assert after[..|after| - 1] == front;
    } else {
      assert after[..|after| - 1] == front[i := p];
      CountUpdated(front, i, p);
    }
  }
}
