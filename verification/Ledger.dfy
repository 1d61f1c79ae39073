/** Open references: tokens, the objects they name, and the backend pins that keep
    those objects in place. */
module Ledger {
  import opened Common
  import opened Errors
  import opened Layout
  import opened Pins

  const REFERENCE_LIMIT := 16 * 32 + 16 + 2
  const TOKEN_SPACE := 0x1_0000_0000_0000_0000

  datatype Object = Object(id: Option<Slot>, references: nat, directory: bool)
  datatype Reference = Reference(token: nat, index: nat, write: bool)

  const FREE := Reference(0, 0, false)

  /** How many live references name object `i`. */
  ghost function Uses(references: seq<Reference>, i: nat): nat {
    if references == [] then 0
    else Uses(references[..|references| - 1], i) + Use(references[|references| - 1], i)
  }

  function Use(r: Reference, i: nat): nat { if r.token != 0 && r.index == i then 1 else 0 }

  lemma {:induction false} UsesUpdated(references: seq<Reference>, j: nat, r: Reference, i: nat)
    requires j < |references|
    ensures Uses(references[j := r], i) == Uses(references, i) - Use(references[j], i) + Use(r, i)
    decreases |references|
  {
    var after, front := references[j := r], references[..|references| - 1];
    if j == |references| - 1 {
      assert after[..|after| - 1] == front;
    } else {
      assert after[..|after| - 1] == front[j := r];
      UsesUpdated(front, j, r, i);
    }
  }

  lemma {:induction false} UsesSome(references: seq<Reference>, j: nat)
    requires j < |references| && references[j].token != 0
    ensures Uses(references, references[j].index) > 0
    decreases |references|
  {
    if j < |references| - 1 { UsesSome(references[..|references| - 1], j); }
  }

  lemma {:induction false} UsesNone(references: seq<Reference>, i: nat)
    requires forall j :: 0 <= j < |references| ==> references[j].token == 0 || references[j].index != i
    ensures Uses(references, i) == 0
    decreases |references|
  {
    if references != [] { UsesNone(references[..|references| - 1], i); }
  }

  ghost predicate HoldsId(objects: seq<Object>, id: Option<Slot>) {
    exists i :: 0 <= i < |objects| && objects[i].references > 0 && objects[i].id == id
  }

  /** `token` is live and names `id`. */
  ghost predicate Refers(objects: seq<Object>, references: seq<Reference>, token: nat, id: Option<Slot>,
                         directory: bool) {
    exists j :: 0 <= j < |references| && IsAt(objects, references[j], token, id, directory)
  }

  ghost predicate IsAt(objects: seq<Object>, r: Reference, token: nat, id: Option<Slot>, directory: bool) {
    && r.token == token && token != 0 && r.index < |objects|
    && objects[r.index].id == id && objects[r.index].directory == directory
  }

  ghost predicate Counted(objects: seq<Object>, references: seq<Reference>) {
    && (forall i :: 0 <= i < |objects| ==> objects[i].references == Uses(references, i))
    && (forall j :: 0 <= j < |references| && references[j].token != 0 ==> references[j].index < |objects|)
  }

  ghost predicate DistinctObjects(objects: seq<Object>) {
    forall i, j :: 0 <= i < j < |objects| && objects[i].references > 0 && objects[j].references > 0 ==>
      objects[i].id != objects[j].id
  }

  ghost predicate DistinctTokens(references: seq<Reference>, nextToken: nat) {
    && nextToken < TOKEN_SPACE
    && (forall i, j :: 0 <= i < j < |references| && references[i].token != 0 ==>
          references[i].token != references[j].token)
    && (forall j :: 0 <= j < |references| ==> references[j].token < if nextToken == 0 then TOKEN_SPACE else nextToken)
  }

  /** A pin is held exactly while its object is occupied. */
  ghost predicate PinsMatch(objects: seq<Object>, pins: seq<Pin>) {
    forall id :: CountIn(pins, id) == if HoldsId(objects, id) then 1 else 0
  }

  class ReferenceTable {
    const pins: PinTable
    var objects: seq<Object>
    var references: seq<Reference>
    var nextToken: nat

    ghost predicate Valid()
      reads this, pins
    {
      && pins.Valid() && |objects| == OBJECT_LIMIT && |references| == REFERENCE_LIMIT
      && Counted(objects, references) && DistinctObjects(objects) && DistinctTokens(references, nextToken)
      && PinsMatch(objects, pins.pins)
    }

    constructor (pins: PinTable)
      requires pins.Valid() && forall id :: pins.Count(id) == 0
      ensures Valid() && this.pins == pins && forall token :: !IsLive(token)
    {
      this.pins := pins;
      objects := seq(OBJECT_LIMIT, _ => Object(None, 0, false));
      references := seq(REFERENCE_LIMIT, _ => FREE);
      nextToken := 1;
      new;
      forall i | 0 <= i < |objects|
        ensures Uses(references, i) == 0
      {
        UsesNone(references, i);
      }
      forall id
        ensures CountIn(pins.pins, id) == 0
      {
        assert pins.Count(id) == 0;
      }
    }

    /** The live token's meaning. */
    ghost predicate Names(token: nat, id: Option<Slot>, directory: bool)
      reads this
    {
      Refers(objects, references, token, id, directory)
    }

    ghost predicate IsLive(token: nat)
      reads this
    {
      token != 0 && exists j :: 0 <= j < |references| && references[j].token == token
    }

    method Find(token: nat) returns (found: bool, j: nat)
      requires Valid()
      ensures found <==> IsLive(token)
      ensures found ==> j < |references| && references[j].token == token && references[j].index < |objects|
      ensures found ==> objects[references[j].index].references > 0
      ensures found ==> Names(token, objects[references[j].index].id, objects[references[j].index].directory)
    {
      hide Uses;
      if token != 0 {
        for i := 0 to |references|
          invariant forall k :: 0 <= k < i ==> references[k].token != token
        {
          if references[i].token == token {
            UsesSome(references, i);
            assert IsAt(objects, references[i], token, objects[references[i].index].id,
                   objects[references[i].index].directory);
            return true, i;
          }
        }
      }
      found, j := false, 0;
    }

    /** A token means one thing. */
    lemma OneMeaning(token: nat, id: Option<Slot>, directory: bool, id': Option<Slot>, directory': bool)
      requires Valid() && Names(token, id, directory) && Names(token, id', directory')
      ensures id == id' && directory == directory'
    {
      var j :| 0 <= j < |references| && IsAt(objects, references[j], token, id, directory);
      var k :| 0 <= k < |references| && IsAt(objects, references[k], token, id', directory');
    }
 
    /** Take a reference: reuse the object of the same identity or occupy a free one
        and pin it. Refused only for want of a token, a reference or an object; the
        backend never refuses. */
    method Acquire(id: Option<Slot>, directory: bool, write: bool, readOnly: bool) returns (error: FsError, token: nat)
      requires Valid()
      modifies this, pins
      ensures Valid()
      ensures error == Ok ==>
        token == old(nextToken) && token != 0 && !old(IsLive(token)) && Names(token, id, directory)
      ensures error == Ok ==>
        forall t, x, d :: t != token ==>
          (Refers(objects, references, t, x, d) <==> Refers(old(objects), old(references), t, x, d))
      ensures error != Ok ==>
        objects == old(objects) && references == old(references) && nextToken == old(nextToken) &&
        pins.pins == old(pins.pins)
      ensures error == IsDirectory <==> directory && write
      ensures error == ReadOnly <==> !directory && write && readOnly
      ensures error in {Ok, IsDirectory, ReadOnly, NoSpace, IoError}
      ensures error == NoSpace ==>
        || nextToken == 0 || (forall j :: 0 <= j < |references| ==> references[j].token != 0)
        || (!HoldsId(objects, id) && forall i :: 0 <= i < |objects| ==> objects[i].references > 0)
      ensures error == IoError ==>
        exists i ::
          0 <= i < |objects| && objects[i].references > 0 && objects[i].id == id && objects[i].directory != directory
    {
      hide Uses, PinsMatch, DistinctTokens, Refers, HoldsId, Counted, DistinctObjects, CountIn, pins.Valid;
      token := 0;
      if directory && write { return IsDirectory, 0; }
      if readOnly && write { return ReadOnly, 0; }
      if nextToken == 0 { return NoSpace, 0; }
      var slot, at, empty := FreeSlots(id);
      if slot == |references| || (at == |objects| && empty == |objects|) { return NoSpace, 0; }
      if at == |objects| {
        at := empty;
        error := RetainNew(id, empty);
        objects := objects[at := Object(id, 0, directory)];
      } else if objects[at].directory != directory {
        return IoError, 0;
      }
      token := nextToken;
      objects := objects[at := objects[at].(references := objects[at].references + 1)];
      references := references[slot := Reference(token, at, write)];
      nextToken := (nextToken + 1) % TOKEN_SPACE;
      error := Ok;
      Acquired(old(objects), old(references), old(nextToken), old(pins.pins), objects, references, pins.pins, slot, at,
               id, directory, write);
    }

    /** Give a reference back; the last one of an object unpins it. */
    method Drop(token: nat) returns (error: FsError)
      requires Valid()
      modifies this, pins
      ensures Valid()
      ensures error == Ok <==> old(IsLive(token))
      ensures error in {Ok, Invalid}
      ensures !IsLive(token)
      ensures forall t, x, d :: t != token ==>
        (Refers(objects, references, t, x, d) <==> Refers(old(objects), old(references), t, x, d))
    {
      hide Uses, PinsMatch, DistinctTokens, Refers, Counted;
      var found, j := Find(token);
      if !found { return Invalid; }
      var at := references[j].index;
      var object' := objects[at];
      Dropped(objects, references, nextToken, j);
      references := references[j := FREE];
      if object'.references == 1 {
        objects := objects[at := Object(None, 0, false)];
        pins.Release(object'.id);
      } else {
        objects := objects[at := object'.(references := object'.references - 1)];
      }
      DroppedPins(old(objects), old(pins.pins), objects, pins.pins, at);
      error := Ok;
    }

    /** Whether nothing is referenced: only then may the volume be detached. */
    method Idle() returns (idle: bool)
      requires Valid()
      ensures idle ==> (forall token :: !IsLive(token)) && forall id :: CountIn(pins.pins, id) == 0
      ensures !idle ==> exists id :: CountIn(pins.pins, id) > 0
    {
      hide Uses;
      for i := 0 to |objects|
        invariant forall k :: 0 <= k < i ==> objects[k].references == 0
      {
        if objects[i].references > 0 {
          assert HoldsId(objects, objects[i].id);
          assert CountIn(pins.pins, objects[i].id) == 1;
          return false;
        }
      }
      idle := true;
      forall j | 0 <= j < |references|
        ensures references[j].token == 0
      {
        if references[j].token != 0 { UsesSome(references, j); }
      }
    }

    /** Retain an identity no object has. There is always room: every pin belongs to an object. */
    method RetainNew(id: Option<Slot>, ghost empty: nat) returns (error: FsError)
      requires Valid() && empty < |objects| && objects[empty].references == 0 && !HoldsId(objects, id)
      modifies pins
      ensures pins.Valid() && error == Ok
      ensures forall x :: CountIn(pins.pins, x) == CountIn(old(pins.pins), x) + (if x == id then 1 else 0)
    {
      hide Uses, PinsMatch, DistinctTokens, Refers, HoldsId, Counted, DistinctObjects, CountIn;
      PinSpace(objects, pins.pins, empty, id);
      error := pins.Retain(id);
    }

    method FreeSlots(id: Option<Slot>) returns (slot: nat, at: nat, empty: nat)
      requires Valid()
      ensures slot <= |references| && (slot < |references| ==> references[slot].token == 0)
      ensures slot == |references| ==> forall j :: 0 <= j < |references| ==> references[j].token != 0
      ensures at <= |objects| && (at < |objects| ==> objects[at].references > 0 && objects[at].id == id)
      ensures at == |objects| ==> !HoldsId(objects, id)
      ensures empty <= |objects| && (empty < |objects| ==> objects[empty].references == 0)
      ensures empty == |objects| ==> forall i :: 0 <= i < |objects| ==> objects[i].references > 0
    {
      hide Uses, PinsMatch, DistinctTokens, Counted;
      slot := 0;
      while slot < |references| && references[slot].token != 0
        invariant slot <= |references| && forall j :: 0 <= j < slot ==> references[j].token != 0
      {
        slot := slot + 1;
      }
      at, empty := |objects|, |objects|;
      for i := 0 to |objects|
        invariant at <= |objects| && (at < |objects| ==> objects[at].references > 0 && objects[at].id == id)
        invariant at == |objects| ==> forall k :: 0 <= k < i ==> objects[k].references == 0 || objects[k].id != id
        invariant empty <= |objects| && (empty < |objects| ==> objects[empty].references == 0)
        invariant empty == |objects| ==> forall k :: 0 <= k < i ==> objects[k].references > 0
      {
        if objects[i].references == 0 {
          if empty == |objects| { empty := i; }
        } else if objects[i].id == id {
          at := i;
        }
      }
    }
  }

  /** Distinct held identities, one pin each: a free object means a free pin. */
  lemma PinSpace(objects: seq<Object>, pins: seq<Pin>, empty: nat, id: Option<Slot>)
    requires empty < |objects| && |objects| == |pins| == OBJECT_LIMIT && objects[empty].references == 0
    requires !HoldsId(objects, id)
    requires PinsMatch(objects, pins)
    requires forall i, j :: 0 <= i < j < |pins| && pins[i].count > 0 && pins[j].count > 0 ==> pins[i].id != pins[j].id
    ensures CountIn(pins, id) == 0 && exists p :: p in pins && p.count == 0
  {
    if forall p :: p in pins ==> p.count > 0 {
      var ids := set p | p in pins :: p.id;
      forall i, j | 0 <= i < j < |pins|
        ensures pins[i].id != pins[j].id
      {
        assert pins[i] in pins && pins[j] in pins;
      }
      DistinctIds(pins);
      forall x | x in ids
        ensures x in HeldIds(objects)
      {
        var p :| p in pins && p.id == x;
        var i :| 0 <= i < |pins| && pins[i] == p;
        CountIs(pins, x, i);
        assert HoldsId(objects, x);
        var k :| 0 <= k < |objects| && objects[k].references > 0 && objects[k].id == x;
        HeldInIds(objects, k);
      }
      HeldCount(objects);
      OccupiedLess(objects, empty);
      SubsetSize(ids, HeldIds(objects));
      assert false;
    }
  }

  lemma {:induction false} DistinctIds(pins: seq<Pin>)
    requires forall i, j :: 0 <= i < j < |pins| ==> pins[i].id != pins[j].id
    ensures |set p | p in pins :: p.id| == |pins|
    decreases |pins|
  {
    var ids := set p | p in pins :: p.id;
    if pins == [] {
      assert ids == {};
    } else {
      var front, last := pins[..|pins| - 1], pins[|pins| - 1];
      DistinctIds(front);
      var before := set p | p in front :: p.id;
      assert pins == front + [last];
      assert ids == before + {last.id};
      forall p | p in front
        ensures p.id != last.id
      {
        var i :| 0 <= i < |front| && front[i] == p;
        assert pins[i].id != pins[|pins| - 1].id;
      }
    }
  }

  ghost function HeldIds(objects: seq<Object>): set<Option<Slot>> {
    if objects == [] then {}
    else
      var last := objects[|objects| - 1];
      HeldIds(objects[..|objects| - 1]) + if last.references > 0 then {last.id} else {}
  }

  ghost function Occupied(objects: seq<Object>): nat {
    if objects == [] then 0
    else Occupied(objects[..|objects| - 1]) + if objects[|objects| - 1].references > 0 then 1 else 0
  }

  lemma {:induction false} HeldInIds(objects: seq<Object>, i: nat)
    requires i < |objects| && objects[i].references > 0
    ensures objects[i].id in HeldIds(objects)
    decreases |objects|
  {
    if i < |objects| - 1 { HeldInIds(objects[..|objects| - 1], i); }
  }

  /** No more identities than objects holding them. */
  lemma {:induction false} HeldCount(objects: seq<Object>)
    ensures |HeldIds(objects)| <= Occupied(objects) <= |objects|
    decreases |objects|
  {
    if objects != [] { HeldCount(objects[..|objects| - 1]); }
  }

  lemma {:induction false} OccupiedLess(objects: seq<Object>, empty: nat)
    requires empty < |objects| && objects[empty].references == 0
    ensures Occupied(objects) < |objects|
    decreases |objects|
  {
    HeldCount(objects[..|objects| - 1]);
    if empty < |objects| - 1 { OccupiedLess(objects[..|objects| - 1], empty); }
  }

  /** Everything a new reference keeps. */
  lemma Acquired(objects: seq<Object>, references: seq<Reference>, token: nat, pins: seq<Pin>,
                 objects': seq<Object>, references': seq<Reference>, pins': seq<Pin>,
                 slot: nat, at: nat, id: Option<Slot>, directory: bool, write: bool)
    requires Counted(objects, references) && DistinctObjects(objects) && DistinctTokens(references, token)
    requires PinsMatch(objects, pins)
    requires slot < |references| && references[slot].token == 0 && at < |objects| && token != 0
    requires references' == references[slot := Reference(token, at, write)]
    requires if objects[at].references > 0
             then objects[at].id == id && objects[at].directory == directory &&
             objects' == objects[at := objects[at].(references := objects[at].references + 1)] && pins' == pins
             else !HoldsId(objects, id) && objects' == objects[at := Object(id, 1, directory)] &&
                  forall x :: CountIn(pins', x) == CountIn(pins, x) + (if x == id then 1 else 0)
    ensures Counted(objects', references') && DistinctObjects(objects')
    ensures DistinctTokens(references', (token + 1) % TOKEN_SPACE) && PinsMatch(objects', pins')
    ensures Refers(objects', references', token, id, directory)
    ensures forall j :: 0 <= j < |references| ==> references[j].token != token
    ensures forall t, x, d :: t != token ==>
      (Refers(objects', references', t, x, d) <==> Refers(objects, references, t, x, d))
  {
    hide Uses;
    forall i | 0 <= i < |objects|
      ensures Uses(references', i) == Uses(references, i) + if i == at then 1 else 0
    {
      UsesUpdated(references, slot, references'[slot], i);
    }
    assert IsAt(objects', references'[slot], token, id, directory);
    AcquiredPins(objects, pins, objects', pins', at, id);
    forall t, x, d | t != token
      ensures Refers(objects', references', t, x, d) <==> Refers(objects, references, t, x, d)
    {
      OthersRefer(objects, references, objects', references', slot, at, t, x, d);
    }
  }

  lemma AcquiredPins(objects: seq<Object>, pins: seq<Pin>, objects': seq<Object>, pins': seq<Pin>, at: nat,
                     id: Option<Slot>)
    requires PinsMatch(objects, pins) && at < |objects| && |objects'| == |objects| && objects'[at].references > 0
    requires objects'[at].id == id
    requires forall i :: 0 <= i < |objects| && i != at ==> objects'[i] == objects[i]
    requires
      if objects[at].references > 0 then objects[at].id == id && pins' == pins
      else !HoldsId(objects, id) && forall x :: CountIn(pins', x) == CountIn(pins, x) + (if x == id then 1 else 0)
    ensures PinsMatch(objects', pins')
  {
    forall x
      ensures HoldsId(objects', x) <==> HoldsId(objects, x) || x == id
    {
      if HoldsId(objects, x) {
        var i :| 0 <= i < |objects| && objects[i].references > 0 && objects[i].id == x;
        if i == at { assert objects'[at].id == x; } else { assert objects'[i].id == x; }
      }
    }
  }

  lemma OthersRefer(objects: seq<Object>, references: seq<Reference>, objects': seq<Object>,
                    references': seq<Reference>, slot: nat, at: nat, t: nat, x: Option<Slot>, d: bool)
    requires Counted(objects, references) && slot < |references| && |references'| == |references|
    requires |objects'| == |objects| && at < |objects|
    requires forall j :: 0 <= j < |references| && j != slot ==> references'[j] == references[j]
    requires t == 0 || (references[slot].token != t && references'[slot].token != t)
    requires forall i :: 0 <= i < |objects| && i != at ==> objects'[i] == objects[i]
    requires objects[at].references > 0 ==>
      objects'[at].id == objects[at].id && objects'[at].directory == objects[at].directory
    ensures Refers(objects', references', t, x, d) <==> Refers(objects, references, t, x, d)
  {
    hide Uses;
    forall j | 0 <= j < |references| && j != slot
      ensures IsAt(objects', references'[j], t, x, d) <==> IsAt(objects, references[j], t, x, d)
    {
      if references[j].token != 0 { UsesSome(references, j); }
    }
    if Refers(objects', references', t, x, d) {
      var j :| 0 <= j < |references'| && IsAt(objects', references'[j], t, x, d);
      assert IsAt(objects, references[j], t, x, d);
    }
    if Refers(objects, references, t, x, d) {
      var j :| 0 <= j < |references| && IsAt(objects, references[j], t, x, d);
      assert IsAt(objects', references'[j], t, x, d);
    }
  }

  ghost function AfterDrop(objects: seq<Object>, at: nat): seq<Object>
    requires at < |objects| && objects[at].references > 0
  {
    objects[at := if objects[at].references == 1 then Object(None, 0, false)
                  else objects[at].(references := objects[at].references - 1)]
  }

  /** Everything a dropped reference keeps. */
  lemma Dropped(objects: seq<Object>, references: seq<Reference>, nextToken: nat, j: nat)
    requires Counted(objects, references) && DistinctObjects(objects) && DistinctTokens(references, nextToken)
    requires j < |references| && references[j].token != 0
    ensures references[j].index < |objects| && objects[references[j].index].references > 0
    ensures var objects', references' := AfterDrop(objects, references[j].index), references[j := FREE];
      && Counted(objects', references') && DistinctObjects(objects') && DistinctTokens(references', nextToken)
      && (forall k :: 0 <= k < |references'| ==> references'[k].token != references[j].token)
      && (forall t, x, d :: t != references[j].token ==>
            (Refers(objects', references', t, x, d) <==> Refers(objects, references, t, x, d)))
  {
    hide Uses;
    UsesSome(references, j);
    var at := references[j].index;
    var objects', references' := AfterDrop(objects, at), references[j := FREE];
    forall i | 0 <= i < |objects|
      ensures Uses(references', i) == Uses(references, i) - if i == at then 1 else 0
    {
      UsesUpdated(references, j, FREE, i);
    }
    forall t, x, d | t != references[j].token
      ensures Refers(objects', references', t, x, d) <==> Refers(objects, references, t, x, d)
    {
      StillRefer(objects, references, objects', references', j, at, t, x, d);
    }
  }

  lemma StillRefer(objects: seq<Object>, references: seq<Reference>, objects': seq<Object>, references': seq<Reference>,
                   slot: nat, at: nat, t: nat, x: Option<Slot>, d: bool)
    requires Counted(objects', references') && slot < |references| && |references'| == |references|
    requires |objects'| == |objects| && at < |objects|
    requires forall j :: 0 <= j < |references| && j != slot ==> references'[j] == references[j]
    requires t == 0 || (references[slot].token != t && references'[slot].token != t)
    requires forall i :: 0 <= i < |objects| && i != at ==> objects'[i] == objects[i]
    requires objects'[at].references > 0 ==>
      objects'[at].id == objects[at].id && objects'[at].directory == objects[at].directory
    ensures Refers(objects', references', t, x, d) <==> Refers(objects, references, t, x, d)
  {
    OthersRefer(objects', references', objects, references, slot, at, t, x, d);
  }

  lemma DroppedPins(objects: seq<Object>, pins: seq<Pin>, objects': seq<Object>, pins': seq<Pin>, at: nat)
    requires PinsMatch(objects, pins) && DistinctObjects(objects) && at < |objects| && objects[at].references > 0
    requires objects' == AfterDrop(objects, at)
    requires
      if objects[at].references == 1 then
        forall x ::
          CountIn(pins', x) == CountIn(pins, x) - (if x == objects[at].id && CountIn(pins, x) > 0 then 1 else 0)
      else pins' == pins
    ensures PinsMatch(objects', pins')
  {
    forall x
      ensures HoldsId(objects', x) <==> HoldsId(objects, x) && (x != objects[at].id || objects[at].references > 1)
    {
      if HoldsId(objects, x) && (x != objects[at].id || objects[at].references > 1) {
        var i :| 0 <= i < |objects| && objects[i].references > 0 && objects[i].id == x;
        assert objects'[i].references > 0 && objects'[i].id == x;
      }
      if HoldsId(objects', x) {
        var i :| 0 <= i < |objects'| && objects'[i].references > 0 && objects'[i].id == x;
        assert objects[i].references > 0 && objects[i].id == x;
      }
    }
    assert HoldsId(objects, objects[at].id);
  }
}
