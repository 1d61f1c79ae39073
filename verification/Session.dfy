/** Console sessions: members, the session root, the foreground owner and the
    links that hand the console back when an owner exits. */
module Session {
  import opened Common
  const PROCESS_LIMIT := 16

  datatype Member = Member(
    session: Option<nat>, restore: Option<nat>, id: nat, references: nat,
    live: bool, cancelled: bool, shell: bool, command: bool, foreground: bool)

  datatype Console = Console(
    references: nat, closing: bool, exitRequested: bool, exitStatus: int,
    root: Option<nat>, owner: Option<nat>, members: seq<Option<nat>>)

  const BLANK := Member(None, None, 0, 0, false, false, false, false, false)
  const NO_MEMBERS: seq<Option<nat>> := 
    [None, None, None, None, None, None, None, None, None, None, None, None, None, None, None, None]
  const CLEAR := Console(0, false, false, 0, None, None, NO_MEMBERS)

  // ----- Counting ----------------------------------------------------------------------

  function Is(p: Option<nat>, m: nat): nat { if p == Some(m) then 1 else 0 }

  /** How many of the pointers are `m`. */
  ghost function Occurs(s: seq<Option<nat>>, m: nat): nat {
    if s == [] then 0 else Occurs(s[..|s| - 1], m) + Is(s[|s| - 1], m)
  }

  /** How many of the pointers are set. */
  ghost function Filled(s: seq<Option<nat>>): nat {
    if s == [] then 0 else Filled(s[..|s| - 1]) + if s[|s| - 1].Some? then 1 else 0
  }

  lemma {:induction false} OccursUpdated(s: seq<Option<nat>>, i: nat, p: Option<nat>, m: nat)
    requires i < |s|
    ensures Occurs(s[i := p], m) == Occurs(s, m) - Is(s[i], m) + Is(p, m)
    decreases |s|
  {
    var after, front := s[i := p], s[..|s| - 1];
    if i == |s| - 1 {
      assert after[..|after| - 1] == front;
    } else {
      assert after[..|after| - 1] == front[i := p];
      OccursUpdated(front, i, p, m);
    }
  }

  lemma {:induction false} FilledUpdated(s: seq<Option<nat>>, i: nat, p: Option<nat>)
    requires i < |s|
    ensures Filled(s[i := p]) == Filled(s) - (if s[i].Some? then 1 else 0) + if p.Some? then 1 else 0
    decreases |s|
  {
    var after, front := s[i := p], s[..|s| - 1];
    if i == |s| - 1 {
      assert after[..|after| - 1] == front;
    } else {
      assert after[..|after| - 1] == front[i := p];
      FilledUpdated(front, i, p);
    }
  }

  lemma {:induction false} OccursAt(s: seq<Option<nat>>, i: nat, m: nat)
    requires i < |s| && s[i] == Some(m)
    ensures Occurs(s, m) >= 1
    decreases |s|
  {
    if i < |s| - 1 { OccursAt(s[..|s| - 1], i, m); }
  }

  lemma {:induction false} OccursSomewhere(s: seq<Option<nat>>, m: nat) returns (i: nat)
    requires Occurs(s, m) >= 1
    ensures i < |s| && s[i] == Some(m)
    decreases |s|
  {
    if s[|s| - 1] == Some(m) { i := |s| - 1; } else { i := OccursSomewhere(s[..|s| - 1], m); }
  }

  lemma {:induction false} OccursTwice(s: seq<Option<nat>>, i: nat, j: nat, m: nat)
    requires i < j < |s| && s[i] == Some(m) && s[j] == Some(m)
    ensures Occurs(s, m) >= 2
    decreases |s|
  {
    if j < |s| - 1 { OccursTwice(s[..|s| - 1], i, j, m); } else { OccursAt(s[..|s| - 1], i, m); }
  }

  lemma {:induction false} FilledBound(s: seq<Option<nat>>)
    ensures Filled(s) <= |s| && (Filled(s) == |s| <==> forall i :: 0 <= i < |s| ==> s[i].Some?)
    ensures Filled(s) == 0 <==> forall i :: 0 <= i < |s| ==> s[i].None?
    decreases |s|
  {
    if s != [] { FilledBound(s[..|s| - 1]); }
  }

  /** Distinct entries of a list are at most as many as its set pointers. */
  lemma {:induction false} DistinctFit(list: seq<Option<nat>>, names: seq<nat>)
    requires forall i, j :: 0 <= i < j < |names| ==> names[i] != names[j]
    requires forall i :: 0 <= i < |names| ==> Occurs(list, names[i]) >= 1
    ensures |names| <= Filled(list)
    decreases |names|
  {
    if names != [] {
      var front, last := names[..|names| - 1], names[|names| - 1];
      var i := OccursSomewhere(list, last);
      forall k | 0 <= k < |front|
        ensures Occurs(list[i := None], front[k]) >= 1
      {
        OccursUpdated(list, i, None, front[k]);
      }
      DistinctFit(list[i := None], front);
      FilledUpdated(list, i, None);
    }
  }

  // ----- The state -------------------------------------------------------------------------

  ghost function Roots(sessions: seq<Console>): seq<Option<nat>> {
    seq(|sessions|, i requires 0 <= i < |sessions| => sessions[i].root)
  }

  ghost function Owners(sessions: seq<Console>): seq<Option<nat>> {
    seq(|sessions|, i requires 0 <= i < |sessions| => sessions[i].owner)
  }

  ghost function Restores(members: seq<Member>): seq<Option<nat>> {
    seq(|members|, i requires 0 <= i < |members| => members[i].restore)
  }

  /** Pointers to a member: as a root, as an owner, as a return target. */
  ghost function Pointers(members: seq<Member>, sessions: seq<Console>, m: nat): nat {
    Occurs(Roots(sessions), m) + Occurs(Owners(sessions), m) + Occurs(Restores(members), m)
  }

  ghost predicate MembersCounted(members: seq<Member>, sessions: seq<Console>) {
    forall m :: 0 <= m < |members| ==> members[m].references == Pointers(members, sessions, m)
  }

  ghost predicate SessionsCounted(sessions: seq<Console>, active: Option<nat>) {
    forall s :: 0 <= s < |sessions| ==> sessions[s].references == Filled(sessions[s].members) + Is(active, s)
  }

  lemma RootSet(members: seq<Member>, sessions: seq<Console>, s: nat, p: Option<nat>, m: nat)
    requires s < |sessions|
    ensures Pointers(members, sessions[s := sessions[s].(root := p)], m) ==
      Pointers(members, sessions, m) - Is(sessions[s].root, m) + Is(p, m)
  {
    var after := sessions[s := sessions[s].(root := p)];
    assert Roots(after) == Roots(sessions)[s := p] && Owners(after) == Owners(sessions);
    OccursUpdated(Roots(sessions), s, p, m);
  }

  lemma OwnerSet(members: seq<Member>, sessions: seq<Console>, s: nat, p: Option<nat>, m: nat)
    requires s < |sessions|
    ensures Pointers(members, sessions[s := sessions[s].(owner := p)], m) ==
      Pointers(members, sessions, m) - Is(sessions[s].owner, m) + Is(p, m)
  {
    var after := sessions[s := sessions[s].(owner := p)];
    assert Owners(after) == Owners(sessions)[s := p] && Roots(after) == Roots(sessions);
    OccursUpdated(Owners(sessions), s, p, m);
  }

  lemma RestoreSet(members: seq<Member>, sessions: seq<Console>, o: nat, p: Option<nat>, m: nat)
    requires o < |members|
    ensures Pointers(members[o := members[o].(restore := p)], sessions, m) ==
      Pointers(members, sessions, m) - Is(members[o].restore, m) + Is(p, m)
  {
    var after := members[o := members[o].(restore := p)];
    assert Restores(after) == Restores(members)[o := p];
    OccursUpdated(Restores(members), o, p, m);
  }

  /** Fields that are not pointers do not matter to the counts. */
  lemma PointersSame(members: seq<Member>, sessions: seq<Console>, members': seq<Member>, sessions': seq<Console>,
                     m: nat)
    requires |members'| == |members| && |sessions'| == |sessions|
    requires forall i :: 0 <= i < |members| ==> members'[i].restore == members[i].restore
    requires forall s :: 0 <= s < |sessions| ==>
      sessions'[s].root == sessions[s].root && sessions'[s].owner == sessions[s].owner
    ensures Pointers(members', sessions', m) == Pointers(members, sessions, m)
  {
    assert Restores(members') == Restores(members);
    assert Roots(sessions') == Roots(sessions) && Owners(sessions') == Owners(sessions);
  }

  /** Every attached member sits in exactly one slot of its own session. */
  ghost predicate Placed(members: seq<Member>, sessions: seq<Console>) {
    && (forall s, i :: 0 <= s < |sessions| && 0 <= i < |sessions[s].members| && sessions[s].members[i].Some? ==>
          sessions[s].members[i].value < |members| && members[sessions[s].members[i].value].session == Some(s))
    && (forall m :: 0 <= m < |members| && members[m].session.Some? ==>
          members[m].session.value < |sessions| && Occurs(sessions[members[m].session.value].members, m) == 1)
  }

  /** A return link leads to an older live member of the active session that is the
      root or can itself return. */
  ghost predicate HopOk(members: seq<Member>, sessions: seq<Console>, active: Option<nat>, order: seq<nat>, m: nat)
    requires m < |members| == |order| && (active.Some? ==> active.value < |sessions|)
  {
    members[m].restore.Some? ==>
      var p := members[m].restore.value;
      && p < |members| && members[p].live && order[p] < order[m]
      && active.Some? && members[m].session == members[p].session == active
      && (members[p].restore.Some? || sessions[active.value].root == Some(p))
  }

  /** Only live members have return links. */
  ghost predicate LinkOk(members: seq<Member>, sessions: seq<Console>, active: Option<nat>, order: seq<nat>, m: nat)
    requires m < |members| == |order| && (active.Some? ==> active.value < |sessions|)
  {
    HopOk(members, sessions, active, order, m) && (members[m].restore.Some? ==> members[m].live)
  }

  ghost predicate IdleOk(c: Console) {
    c.root.None? && c.owner.None? && (c.references > 0 ==> c.closing)
  }

  /** The active session has a live root and, unless all were cancelled, an owner
      whose return links start at itself and can reach the root. */
  ghost predicate ActiveOk(members: seq<Member>, c: Console, a: nat) {
    && !c.closing && c.root.Some? && c.root.value < |members|
    && members[c.root.value].live && members[c.root.value].session == Some(a) && members[c.root.value].restore.None?
    && (c.owner.Some? ==>
          && c.owner.value < |members| && members[c.owner.value].live && members[c.owner.value].session == Some(a)
          && (members[c.owner.value].restore.Some? || c.owner == c.root))
  }

  ghost predicate Linked(members: seq<Member>, sessions: seq<Console>, active: Option<nat>, order: seq<nat>) {
    && |order| == |members| && (active.Some? ==> active.value < |sessions|)
    && (forall m :: 0 <= m < |members| ==> LinkOk(members, sessions, active, order, m))
    && (forall s :: 0 <= s < |sessions| && active != Some(s) ==> IdleOk(sessions[s]))
    && (active.Some? ==> ActiveOk(members, sessions[active.value], active.value))
  }

  ghost predicate Shaped(sessions: seq<Console>) {
    && |sessions| == PROCESS_LIMIT
    && (forall s :: 0 <= s < |sessions| ==>
          |sessions[s].members| == PROCESS_LIMIT && (sessions[s].references == 0 ==> sessions[s] == CLEAR))
  }

  /** Everyone but `m` is still what it was, pointers and command marks aside. */
  ghost predicate Undisturbed(before: seq<Member>, after: seq<Member>, m: nat) {
    && |after| == |before|
    && forall o :: 0 <= o < |before| && o != m ==>
         && after[o].live == before[o].live && after[o].session == before[o].session
         && after[o].cancelled == before[o].cancelled
         && after[o].id == before[o].id && after[o].shell == before[o].shell
  }

  /** Equal but for the reference counts. */
  ghost predicate SameButCounts(a: seq<Member>, b: seq<Member>) {
    |a| == |b| && forall i :: 0 <= i < |a| ==> b[i] == a[i].(references := b[i].references)
  }

  /** One more pointer to the member, if any. */
  function Retained(members: seq<Member>, p: Option<nat>): (r: seq<Member>)
    requires p.Some? ==> p.value < |members|
    ensures SameButCounts(members, r) && forall m :: 0 <= m < |members| ==>
      r[m].references == members[m].references + Is(p, m)
  {
    if p.None? then members else members[p.value := members[p.value].(references := members[p.value].references + 1)]
  }

  /** One pointer less. */
  function Dropped(members: seq<Member>, p: Option<nat>): (r: seq<Member>)
    requires p.Some? ==> p.value < |members| && members[p.value].references > 0
    ensures SameButCounts(members, r) && forall m :: 0 <= m < |members| ==>
      r[m].references == members[m].references - Is(p, m)
  {
    if p.None? then members else members[p.value := members[p.value].(references := members[p.value].references - 1)]
  }

  class Sessions {
    var members: seq<Member>
    var sessions: seq<Console>
    var active: Option<nat>
    /** Attachment order: return links always lead to earlier members. */
    ghost var order: seq<nat>
    ghost var clock: nat

    ghost predicate Valid()
      reads this
    {
      && Shaped(sessions) && MembersCounted(members, sessions) && SessionsCounted(sessions, active)
      && Placed(members, sessions) && Linked(members, sessions, active, order)
      && (forall m :: 0 <= m < |order| ==> order[m] <= clock)
    }

    constructor (count: nat)
      ensures Valid() && |members| == count && active == None && forall m :: 0 <= m < count ==> members[m] == BLANK
    {
      members := seq(count, _ => BLANK);
      sessions := seq(PROCESS_LIMIT, _ => CLEAR);
      active := None;
      order := seq(count, _ => 0);
      clock := 0;
      new;
      forall m | 0 <= m < |members|
        ensures Pointers(members, sessions, m) == 0
      {
        NoPointers(Roots(sessions), m);
        NoPointers(Owners(sessions), m);
        NoPointers(Restores(members), m);
      }
      FilledBound(NO_MEMBERS);
    }

    // ----- Pointer updates that keep the counts exact --------------------------------------------

    /** Hand the console of session `s` to `next`, or to nobody. */
    method SetOwner(s: nat, next: Option<nat>)
      requires s < |sessions| && MembersCounted(members, sessions)
      requires (sessions[s].owner.Some? ==> sessions[s].owner.value < |members|)
      requires (next.Some? ==> next.value < |members|)
      modifies this`members, this`sessions
      ensures MembersCounted(members, sessions) && SameButCounts(old(members), members)
      ensures sessions == old(sessions)[s := old(sessions[s]).(owner := next)]
    {
      hide Occurs, Pointers, Retained, Dropped;
      if sessions[s].owner.Some? { OwnerPoints(members, sessions, s); }
      members := Dropped(members, sessions[s].owner);
      sessions := sessions[s := sessions[s].(owner := next)];
      members := Retained(members, next);
      forall m | 0 <= m < |members|
        ensures members[m].references == Pointers(members, sessions, m)
      {
        OwnerSet(old(members), old(sessions), s, next, m);
        PointersSame(old(members), sessions, members, sessions, m);
      }
    }

    /** Point the return link of `o` somewhere else, or nowhere. */
    method SetRestore(o: nat, next: Option<nat>)
      requires o < |members| && MembersCounted(members, sessions)
      requires (members[o].restore.Some? ==> members[o].restore.value < |members|)
      requires (next.Some? ==> next.value < |members|)
      modifies this`members
      ensures MembersCounted(members, sessions)
      ensures SameButCounts(old(members)[o := old(members[o]).(restore := next)], members)
    {
      hide Pointers, Retained, Dropped, MembersCounted, SameButCounts;
      RestorePoints(members, sessions, o);
      members := Dropped(members, members[o].restore);
      members := members[o := members[o].(restore := next)];
      members := Retained(members, next);
      RestoreCounted(old(members), sessions, o, next, members);
    }

    // ----- Launching ------------------------------------------------------------------------------

    /** Effective ownership of the console. */
    predicate Owns(m: nat)
      requires m < |members| && (active.Some? ==> active.value < |sessions|)
      reads this
    {
      && members[m].live && !members[m].cancelled && members[m].session.Some? && members[m].session == active
      && !sessions[active.value].closing && sessions[active.value].owner == Some(m)
    }

    method Available() returns (s: nat)
      requires Shaped(sessions)
      ensures s <= |sessions| && (s < |sessions| ==> sessions[s] == CLEAR)
      ensures s == |sessions| ==> forall i :: 0 <= i < |sessions| ==> sessions[i].references > 0
    {
      s := 0;
      while s < |sessions| && sessions[s].references > 0
        invariant s <= |sessions| && forall i :: 0 <= i < s ==> sessions[i].references > 0
      {
        s := s + 1;
      }
    }

    method FreeSlot(s: nat) returns (i: nat)
      requires s < |sessions|
      ensures i <= |sessions[s].members| && (i < |sessions[s].members| ==> sessions[s].members[i].None?)
      ensures i == |sessions[s].members| ==> forall j :: 0 <= j < i ==> sessions[s].members[j].Some?
    {
      i := 0;
      while i < |sessions[s].members| && sessions[s].members[i].Some?
        invariant i <= |sessions[s].members| && forall j :: 0 <= j < i ==> sessions[s].members[j].Some?
      {
        i := i + 1;
      }
    }

    /** Who may start a process, and where it would belong. */
    ghost predicate MayLaunch(parent: Option<nat>, foreground: bool)
      requires Valid() && (parent.Some? ==> parent.value < |members|)
      reads this
    {
      match parent
      case None => !foreground || (active.None? && exists s :: 0 <= s < |sessions| && sessions[s].references == 0)
      case Some(p) =>
        && members[p].live && !members[p].cancelled && (foreground ==> Owns(p))
        && (members[p].session.Some? ==>
              !sessions[members[p].session.value].closing
               && exists i :: 0 <= i < PROCESS_LIMIT && sessions[members[p].session.value].members[i].None?)
    }

    method CanLaunch(parent: Option<nat>, foreground: bool) returns (valid: bool)
      requires Valid() && (parent.Some? ==> parent.value < |members|)
      ensures valid <==> MayLaunch(parent, foreground)
    {
      hide MembersCounted, SessionsCounted, Occurs, LinkOk;
      if parent.None? {
        if !foreground { return true; }
        var s := Available();
        return active.None? && s < |sessions|;
      }
      var p := members[parent.value];
      valid :=
        && p.live && !p.cancelled && (p.session.Some? ==> !sessions[p.session.value].closing)
        && (!foreground || Owns(parent.value));
      if valid && p.session.Some? {
        var i := FreeSlot(p.session.value);
        valid := i < PROCESS_LIMIT;
      }
    }

    /** A record nobody uses and nobody points to. */
    ghost predicate Unused(m: nat)
      requires m < |members|
      reads this
    {
      !members[m].live && members[m].session.None? && members[m].references == 0
    }

    /** Attach a process record to the session of its parent, or to a new one. */
    method Attach(m: nat, id: nat, parent: Option<nat>, foreground: bool) returns (ok: bool)
      requires Valid() && m < |members| && (parent.Some? ==> parent.value < |members|)
      modifies this
      ensures Valid() && |members| == old(|members|)
      ensures ok <==> id != 0 && old(Unused(m)) && old(MayLaunch(parent, foreground))
      ensures !ok ==> members == old(members) && sessions == old(sessions) && active == old(active)
      ensures ok ==> members[m].live && members[m].id == id && !members[m].cancelled && !members[m].shell
      ensures ok && foreground && parent.None? ==> IsRoot(m)
      ensures ok && parent.Some? ==> members[m].session == old(members)[parent.value].session
      ensures ok && foreground ==> members[m].session.Some? && Owns(m) && members[m].restore == parent
      ensures ok ==>
        forall o :: 0 <= o < |members| && o != m ==> members[o] == old(members)[o].(references := members[o].references)
    {
      hide MembersCounted, SessionsCounted, Placed, Linked, Occurs, Shaped;
      if id == 0 || members[m].live || members[m].session.Some? || members[m].references > 0 { return false; }
      var valid := CanLaunch(parent, foreground);
      if !valid { return false; }
      ok := true;
      if parent.None? && foreground {
        var s := Available();
        Open(m, id, s);
      } else if parent.None? || members[parent.value].session.None? {
        Stand(m, id, foreground);
      } else {
        Join(m, id, parent.value, foreground);
      }
    }

    /** A process outside every session. */
    method Stand(m: nat, id: nat, foreground: bool)
      requires Valid() && m < |members| && Unused(m)
      modifies this
      ensures Valid() && members == old(members)[m := Member(None, None, id, 0, true, false, false, false, foreground)]
      ensures sessions == old(sessions) && active == old(active)
    {
      hide Occurs, Filled, LinkOk;
      UnusedLink(m);
      members := members[m := Member(None, None, id, 0, true, false, false, false, foreground)];
      forall o | 0 <= o < |members|
        ensures members[o].references == Pointers(members, sessions, o)
      {
        PointersSame(old(members), sessions, members, sessions, o);
      }
      LinkedAfterJoin(old(members), sessions, active, order, members, sessions, order, m);
    }

    /** A new session with `m` as root and owner. */
    method Open(m: nat, id: nat, s: nat)
      requires Valid() && m < |members| && Unused(m) && active.None? && s < |sessions| && sessions[s] == CLEAR
      modifies this
      ensures Valid() && |members| == old(|members|) && active == Some(s)
      ensures members[m] == Member(Some(s), None, id, members[m].references, true, false, false, false, true) && Owns(m)
      ensures IsRoot(m)
      ensures forall o :: 0 <= o < |members| && o != m ==>
        members[o] == old(members)[o].(references := members[o].references)
    {
      hide Occurs, Filled, Pointers, LinkOk, Linked, Placed;
      LinkedRanges(members, sessions, active, order);
      UnusedLink(m);
      ghost var members0, sessions0 := members, sessions;
      members := members[m := Member(Some(s), None, id, 1, true, false, false, false, true)];
      sessions := sessions[s := CLEAR.(references := 2, root := Some(m), members := NO_MEMBERS[0 := Some(m)])];
      active := Some(s);
      clock := clock + 1;
      order := order[m := clock];
      RootCounted(members0, sessions0, members, sessions, m, s);
      FilledUpdated(NO_MEMBERS, 0, Some(m));
      FilledBound(NO_MEMBERS);
      PlacedAfterJoin(members0, sessions0, members, sessions, m, s, 0);
      ghost var members1, sessions1 := members, sessions;
      SetOwner(s, Some(m));
      OpenedLinks(members0, sessions0, old(order), members, sessions, order, m, s);
      PlacedFrame(members1, sessions1, members, sessions);
    }

    /** Join the session of `p`; a foreground child takes the console and returns to it. */
    method Join(m: nat, id: nat, p: nat, foreground: bool)
      requires Valid() && m < |members| && Unused(m) && p < |members| && members[p].live && members[p].session.Some?
      requires MayLaunch(Some(p), foreground)
      modifies this
      ensures Valid() && |members| == old(|members|) && active == old(active)
      ensures members[m].live && members[m].id == id && !members[m].cancelled && !members[m].shell
      ensures members[m].session == old(members)[p].session
      ensures foreground ==> Owns(m) && members[m].restore == Some(p)
      ensures forall o :: 0 <= o < |members| && o != m ==>
        members[o] == old(members)[o].(references := members[o].references)
    {
      hide Occurs, Filled, Pointers, LinkOk, Linked, MembersCounted, Placed, SessionsCounted, Shaped;
      LinkedRanges(members, sessions, active, order);
      UnusedLink(m);
      var s := members[p].session.value;
      JoinsActive(p);
      SessionLists();
      var slot := FreeSlot(s);
      ghost var members0, sessions0 := members, sessions;
      members := members[m := Member(Some(s), None, id, 0, true, false, false, false, foreground)];
      sessions := sessions[s := sessions[s].(members := sessions[s].members[slot := Some(m)],
                                             references := sessions[s].references + 1)];
      clock := clock + 1;
      order := order[m := clock];
      CountsFrame(members0, sessions0, members, sessions);
      SlotTaken(sessions0, sessions, active, s, slot, m);
      PlacedAfterJoin(members0, sessions0, members, sessions, m, s, slot);
      LinkedAfterJoin(members0, sessions0, active, old(order), members, sessions, order, m);
      RootIsLive(members0, sessions0, active, old(order));
      if foreground { Take(m, p, s); }
    }

    /** The console passes to `m`, which returns to the present owner `p`. */
    method Take(m: nat, p: nat, s: nat)
      requires Valid() && m < |members| && p < |members| && s < |sessions| && active == Some(s)
      requires sessions[s].owner == Some(p) && m != p
      requires members[m].live && members[m].session == active && members[m].restore.None? && order[p] < order[m]
      requires (forall o :: 0 <= o < |members| ==> members[o].restore != Some(m)) && sessions[s].root != Some(m)
      modifies this`members, this`sessions
      ensures Valid() && sessions == old(sessions)[s := old(sessions[s]).(owner := Some(m))]
      ensures SameButCounts(old(members)[m := old(members[m]).(restore := Some(p))], members)
    {
      hide Occurs, Filled, Pointers, MembersCounted, Placed, Linked;
      ghost var members0, sessions0 := members, sessions;
      LinkedRanges(members, sessions, active, order);
      SetRestore(m, Some(p));
      SetOwner(s, Some(m));
      PlacedFrame(members0, sessions0, members, sessions);
      TakenLinks(members0, sessions0, order, members, sessions, m, p, s);
    }

    lemma InUse(s: nat, m: nat)
      requires Valid() && m < |members| && members[m].session == Some(s) && s < |sessions|
      ensures sessions[s].references > 0
    {
      hide Occurs, Filled, Linked;
      var i := OccursSomewhere(sessions[s].members, m);
      FilledBound(sessions[s].members);
    }

    lemma SessionLists()
      requires Valid()
      ensures |sessions| == PROCESS_LIMIT && forall s :: 0 <= s < |sessions| ==> |sessions[s].members| == PROCESS_LIMIT
    {
    }

    /** A live member's open session is the active one. */
    lemma JoinsActive(p: nat)
      requires Valid() && p < |members| && members[p].session.Some? && !sessions[members[p].session.value].closing
      ensures active == members[p].session
    {
      hide Filled, LinkOk;
      var s := members[p].session.value;
      var i := OccursSomewhere(sessions[s].members, p);
      FilledBound(sessions[s].members);
    }

    /** A record that is not live has no return link and nobody returns to it. */
    lemma UnusedLink(m: nat)
      requires Valid() && m < |members| && !members[m].live
      ensures members[m].restore.None? && forall o :: 0 <= o < |members| ==> members[o].restore != Some(m)
    {
      hide Occurs, Filled;
      assert LinkOk(members, sessions, active, order, m);
      forall o | 0 <= o < |members|
        ensures members[o].restore != Some(m)
      {
        assert LinkOk(members, sessions, active, order, o);
      }
    }

    // ----- Leaving ----------------------------------------------------------------------------------

    /** A member that is not live is pointed to by nobody and returns to nobody. */
    lemma ExitedIsFree(m: nat)
      requires Valid() && m < |members| && !members[m].live
      ensures members[m].references == 0 && members[m].restore.None?
    {
      hide Occurs, Filled, LinkOk, Placed;
      UnusedLink(m);
      NoPointers(Restores(members), m);
      NoPointers(Roots(sessions), m);
      NoPointers(Owners(sessions), m);
    }

    method Cancel(m: nat)
      requires Valid() && m < |members|
      modifies this`members
      ensures Valid() && members == old(members)[m := old(members)[m].(cancelled := true)]
    {
      hide Occurs, Filled, Pointers, MembersCounted, Placed;
      ghost var before := members;
      members := members[m := members[m].(cancelled := true)];
      CountsFrame(before, sessions, members, sessions);
      PlacedFrame(before, sessions, members, sessions);
      LinkedFrame(before, sessions, active, order, members);
    }

    /** Give the record back. It always succeeds for a member that has exited. */
    method Detach(m: nat) returns (ok: bool)
      requires Valid() && m < |members|
      modifies this`members, this`sessions
      ensures Valid() && |members| == old(|members|) && active == old(active)
      ensures ok <==> !old(members)[m].live
      ensures !ok ==> members == old(members) && sessions == old(sessions)
      ensures ok ==> members == old(members)[m := BLANK]
      ensures ok && old(members)[m].session.None? ==> sessions == old(sessions)
    {
      hide Occurs, Filled, Pointers, MembersCounted, SessionsCounted, Placed, Linked, Shaped;
      if !members[m].live { ExitedIsFree(m); }
      if members[m].live || members[m].references > 0 || members[m].restore.Some? { return false; }
      UnusedLink(m);
      ghost var before, sessions0 := members, sessions;
      var session := members[m].session;
      if session.Some? {
        SlotOf(before, sessions0, m);
        SessionLists();
        var s, i := session.value, 0;
        while sessions[s].members[i] != Some(m)
          invariant i < PROCESS_LIMIT && Some(m) in sessions[s].members[i..]
          decreases PROCESS_LIMIT - i
        {
          i := i + 1;
        }
        var list := sessions[s].members[i := None];
        InUse(s, m);
        var left := sessions[s].references - 1;
        sessions := sessions[s := if left == 0 then CLEAR else sessions[s].(members := list, references := left)];
        members := members[m := BLANK];
        LeavingCounts(before, sessions0, active, order, s, i);
        CountsFrame(before, sessions0, members, sessions);
        PlacedAfterLeaving(before, sessions0, active, m, s, i);
        LeavingLinks(before, sessions0, active, order, m, s, i);
      } else {
        members := members[m := BLANK];
        CountsFrame(before, sessions0, members, sessions);
        PlacedFrame(before, sessions0, members, sessions);
        BlankLinks(before, sessions, active, order, m);
      }
      ok := true;
    }

    /** The member is no longer live. Everyone who would return to it returns to where
        it would have, and the console goes back along that way if it must. */
    method MemberExit(m: nat) returns (discard: bool)
      requires Valid() && m < |members|
      modifies this`members, this`sessions, this`active
      ensures Valid() && |members| == old(|members|)
      ensures !old(members)[m].live ==>
        !discard && members == old(members) && sessions == old(sessions) && active == old(active)
      ensures discard <==> old(members)[m].live && old(members)[m].shell && old(IsRoot(m))
      ensures !members[m].live && members[m].references == 0 && members[m].restore.None?
      ensures members[m].session == old(members)[m].session
      ensures old(members)[m].live && old(IsRoot(m)) ==> active.None? && sessions[members[m].session.value].closing
      ensures old(members)[m].live && !old(IsRoot(m)) ==> active == old(active)
      ensures old(members)[m].live && !old(IsRoot(m)) ==> Owner() == old(Successor(m))
      ensures Undisturbed(old(members), members, m)
    {
      hide Occurs, Filled, Pointers, MembersCounted, SessionsCounted, Placed, Linked, Shaped;
      if !members[m].live {
        ExitedIsFree(m);
        return false;
      }
      ValidRanges();
      var session := members[m].session;
      if session.Some? && sessions[session.value].root == Some(m) {
        discard := members[m].shell;
        Close(m, session.value);
      } else if session.Some? && !sessions[session.value].closing {
        discard := false;
        JoinsActive(m);
        HandBack(m, session.value);
      } else {
        discard := false;
        Fade(m);
      }
      ExitedIsFree(m);
    }

    ghost predicate IsRoot(m: nat)
      requires m < |members|
      reads this
    {
      && members[m].session.Some? && members[m].session.value < |sessions|
      && sessions[members[m].session.value].root == Some(m)
    }

    /** Who holds the console, if anybody. */
    ghost function Owner(): Option<nat>
      reads this
    {
      if active.Some? && active.value < |sessions| then sessions[active.value].owner else None
    }

    /** Who holds it once `m`, not the root, has exited: the nearest member along the
        way back that was not cancelled, if the console has to move at all. */
    ghost function Successor(m: nat): Option<nat>
      requires Valid() && m < |members|
      reads this
    {
      LinkedFalls(members, sessions, active, order);
      LinkedRanges(members, sessions, active, order);
      if members[m].session != active then Owner() else SuccessorOf(members, order, Owner(), m)
    }

    lemma SuccessorFrom(m: nat)
      requires Valid() && m < |members|
      ensures Falls(members, order) && (Owner().Some? ==> Owner().value < |members|)
      ensures Successor(m) ==
        if members[m].session != active then Owner() else SuccessorOf(members, order, Owner(), m)
    {
      hide Occurs, Filled, Pointers, MembersCounted, SessionsCounted, Placed, Linked, Shaped, SuccessorOf, Falls;
      LinkedFalls(members, sessions, active, order);
      LinkedRanges(members, sessions, active, order);
    }

    lemma ValidRanges()
      requires Valid()
      ensures |sessions| == PROCESS_LIMIT && |order| == |members| && (active.Some? ==> active.value < |sessions|)
      ensures forall m :: 0 <= m < |members| && members[m].session.Some? ==> members[m].session.value < |sessions|
    {
    }

    /** A member of no session, or of one that is closing. */
    method Fade(m: nat)
      requires Valid() && m < |members| && members[m].live && !IsRoot(m)
      requires (members[m].session.Some? ==> sessions[members[m].session.value].closing)
      modifies this`members
      ensures Valid() && members == old(members)[m := old(members)[m].(live := false, command := false)]
      ensures active.Some? ==> old(members)[m].session != active
    {
      hide Occurs, Filled, Pointers, MembersCounted, Placed;
      ValidRanges();
      ghost var before := members;
      members := members[m := members[m].(live := false, command := false)];
      CountsFrame(before, sessions, members, sessions);
      PlacedFrame(before, sessions, members, sessions);
      FadedLinks(before, sessions, active, order, m);
    }

    /** The root exits: no return link and no owner remain, and the session closes. */
    method Close(m: nat, s: nat)
      requires Valid() && m < |members| && members[m].live && members[m].session == Some(s) && s < |sessions|
      requires sessions[s].root == Some(m)
      modifies this`members, this`sessions, this`active
      ensures Valid() && |members| == old(|members|) && active.None? && sessions[s].closing
      ensures !members[m].live && members[m].session == Some(s)
      ensures Undisturbed(old(members), members, m)
    {
      hide Occurs, Filled, Pointers, MembersCounted, SessionsCounted, Placed, Linked, Shaped;
      RootIsActive(m, s);
      InUse(s, m);
      SessionLists();
      LinkedRanges(members, sessions, active, order);
      PlacedRange(members, sessions);
      ghost var members0, sessions0 := members, sessions;
      members := members[m := members[m].(live := false, command := false)];
      CountsFrame(members0, sessions0, members, sessions);
      ReleaseReturns(s);
      AllReleased(members0, sessions0, active, order, s, members);
      Dethrone(m, s);
      ghost var members2, sessions2 := members, sessions;
      sessions := sessions[s := sessions[s].(closing := true, references := sessions[s].references - 1)];
      active := None;
      CountsFrame(members2, sessions2, members, sessions);
      PlacedFrame(members0, sessions0, members, sessions);
      ClosedSessions(sessions0, sessions, s, m, members0);
      ClosedLinks(members, sessions, order, s, sessions0, members0);
    }

    /** Neither owner nor root any more. */
    method Dethrone(m: nat, s: nat)
      requires s < |sessions| && m < |members| && sessions[s].root == Some(m) && MembersCounted(members, sessions)
      requires sessions[s].owner.Some? ==> sessions[s].owner.value < |members|
      modifies this`members, this`sessions
      ensures MembersCounted(members, sessions) && SameButCounts(old(members), members)
      ensures sessions == old(sessions)[s := old(sessions[s]).(owner := None, root := None)]
    {
      hide Occurs, Filled, Pointers, MembersCounted;
      SetOwner(s, None);
      ghost var members1, sessions1 := members, sessions;
      RootPoints(members, sessions, s);
      members := members[m := members[m].(references := members[m].references - 1)];
      sessions := sessions[s := sessions[s].(root := None)];
      RootDropped(members1, sessions1, members, sessions, m, s);
    }

    /** Drop every return link and command mark of a session's members. */
    method ReleaseReturns(s: nat)
      requires s < |sessions| && |sessions[s].members| == PROCESS_LIMIT && MembersCounted(members, sessions)
      requires forall m :: 0 <= m < |members| && members[m].restore.Some? ==> members[m].restore.value < |members|
      requires forall i :: 0 <= i < |sessions[s].members| && sessions[s].members[i].Some? ==>
        sessions[s].members[i].value < |members|
      modifies this`members
      ensures MembersCounted(members, sessions) && Cleared(old(members), members, sessions[s].members)
    {
      hide Occurs, Filled, Pointers, MembersCounted;
      for i := 0 to PROCESS_LIMIT
        invariant MembersCounted(members, sessions) && Cleared(old(members), members, sessions[s].members[..i])
      {
        var slot := sessions[s].members[i];
        assert sessions[s].members[..i + 1] == sessions[s].members[..i] + [slot];
        if slot.Some? {
          SetRestore(slot.value, None);
          ghost var linked := members;
          members := members[slot.value := members[slot.value].(command := false)];
          CountsFrame(linked, sessions, members, sessions);
        }
      }
      assert sessions[s].members[..PROCESS_LIMIT] == sessions[s].members;
    }

    lemma RootIsActive(m: nat, s: nat)
      requires Valid() && s < |sessions| && sessions[s].root == Some(m)
      ensures active == Some(s)
    {
      hide Occurs, Filled;
    }

    /** A member of the active session exits. */
    method HandBack(m: nat, s: nat)
      requires Valid() && m < |members| && members[m].live && members[m].session == Some(s) && active == Some(s)
      requires s < |sessions|
      requires sessions[s].root != Some(m)
      modifies this`members, this`sessions
      ensures Valid() && |members| == old(|members|)
      ensures !members[m].live && members[m].session == Some(s) && Owner() == old(Successor(m))
      ensures Undisturbed(old(members), members, m)
    {
      hide Occurs, Filled, Pointers, MembersCounted, SessionsCounted, Placed, Linked, Shaped, Hops, Falls, Trail,
           Nearest, SuccessorOf, Bypassed, SameButCounts, MayOwn, NearestFrom, Undisturbed;
      LinkedRanges(members, sessions, active, order);
      LinkedFalls(members, sessions, active, order);
      PlacedRange(members, sessions);
      SessionLists();
      InUse(s, m);
      ghost var members0, sessions0 := members, sessions;
      var owner := sessions[s].owner;
      var returning := Returning(m, s);
      Bypass(m, s);
      ghost var members2 := members;
      HopsFall(members2, sessions, active, order);
      SuccessorIs(members0, order, owner, m, members2);
      BypassedFields(members0, members2, m);
      OwnerAttached(members0, sessions0, active, order);
      PassOn(m, s, returning);
      ghost var members3 := members;
      SameFields(members2, members3);
      SetRestore(m, None);
      HandedBack(members0, sessions0, order, m, members2, members3, members, sessions, s);
      PlacedBack(members2, sessions0, members3, members, m, sessions);
      StillUndisturbed(members0, members2, members3, members, m);
      OwnerOnly(sessions0, sessions, active, s);
    }

    /** Move the console if its owner is the one leaving, or was cancelled meanwhile. */
    method PassOn(m: nat, s: nat, returning: bool)
      requires Hops(members, sessions, active, order) && Placed(members, sessions) && Shaped(sessions)
      requires MembersCounted(members, sessions)
      requires active == Some(s) && s < |sessions| && m < |members|
      requires sessions[s].owner.Some? ==>
        sessions[s].owner.value < |members| && members[sessions[s].owner.value].session == active
      requires sessions[s].owner == Some(m) ==> returning
      modifies this`members, this`sessions
      ensures MembersCounted(members, sessions) && SameButCounts(old(members), members)
      ensures |sessions| == old(|sessions|)
      ensures sessions == old(sessions)[s := old(sessions[s]).(owner := sessions[s].owner)]
      ensures Falls(old(members), order)
      ensures var owner := old(sessions[s].owner);
        if owner.Some? && returning && (owner == Some(m) || old(members)[owner.value].cancelled)
        then sessions[s].owner == NearestFrom(old(members), order, owner.value)
             && (sessions[s].owner.Some? ==> MayOwn(old(members), old(sessions), active, sessions[s].owner.value))
        else sessions[s].owner == owner && owner != Some(m)
    {
      hide Occurs, Filled, Pointers, MembersCounted, Placed, Shaped, Hops, Trail, Nearest, Falls;
      HopsFall(members, sessions, active, order);
      var owner := sessions[s].owner;
      if returning && owner.Some? && (owner == Some(m) || members[owner.value].cancelled) {
        var next := Previous(owner.value);
        SetOwner(s, next);
      }
    }

    /** `m` stops being live and drops out of everybody's way back. */
    method Bypass(m: nat, s: nat)
      requires Valid() && m < |members| && members[m].live && members[m].session == Some(s) && active == Some(s)
      requires s < |sessions|
      requires sessions[s].root != Some(m)
      modifies this`members
      ensures MembersCounted(members, sessions) && Placed(members, sessions)
      ensures Bypassed(old(members), members, m) && Hops(members, sessions, active, order)
    {
      hide Occurs, Filled, Pointers, MembersCounted, SessionsCounted, Placed, Linked, Shaped, Hops;
      LinkedRanges(members, sessions, active, order);
      PlacedRange(members, sessions);
      SessionLists();
      NotOwnWay(members, sessions, active, order, m);
      ghost var members0 := members;
      members := members[m := members[m].(live := false, command := false)];
      CountsFrame(members0, sessions, members, sessions);
      Relink(m, s);
      RelinkedHops(members0, sessions, order, m, members, s);
      PlacedFrame(members0, sessions, members, sessions);
    }

    /** Whether the exiting member lies on the owner's way back. */
    method Returning(m: nat, s: nat) returns (returning: bool)
      requires Valid() && m < |members| && active == Some(s) && s < |sessions|
      ensures Falls(members, order) && (sessions[s].owner.Some? ==> sessions[s].owner.value < |members|)
      ensures returning <==> m in Trail(members, order, sessions[s].owner)
      ensures sessions[s].owner == Some(m) ==> returning
    {
      hide Occurs, Filled, Pointers, MembersCounted, SessionsCounted, LinkOk, HopOk;
      LinkedRanges(members, sessions, active, order);
      LinkedFalls(members, sessions, active, order);
      var link: Option<nat> := sessions[s].owner;
      if link.Some? { TrailShort(members, sessions, active, order, link.value); }
      ghost var trail := Trail(members, order, link);
      returning := link == Some(m);
      var i := 0;
      while i < PROCESS_LIMIT && link.Some?
        invariant i <= PROCESS_LIMIT && (link.Some? ==> link.value < |members|)
        invariant |Trail(members, order, link)| == if |trail| >= i then |trail| - i else 0
        invariant m in trail <==> returning || m in Trail(members, order, link)
      {
        if link == Some(m) { returning := true; }
        link := members[link.value].restore;
        i := i + 1;
      }
    }

    /** The nearest member on the way back that may own the console. */
    method Previous(o: nat) returns (r: Option<nat>)
      requires Hops(members, sessions, active, order) && Placed(members, sessions) && Shaped(sessions)
      requires o < |members| && active.Some? && members[o].session == active
      ensures Falls(members, order) && (members[o].restore.Some? ==> members[o].restore.value < |members|)
      ensures r.Some? ==> MayOwn(members, sessions, active, r.value)
      ensures forall i :: 0 <= i < |Trail(members, order, members[o].restore)| ==>
        Trail(members, order, members[o].restore)[i] < |members|
      ensures r == Nearest(members, Trail(members, order, members[o].restore))
    {
      hide Occurs, Filled, Placed, Shaped;
      HopsFall(members, sessions, active, order);
      TrailShort(members, sessions, active, order, o);
      TrailRange(members, order, members[o].restore);
      var candidate := members[o].restore;
      ghost var trail := Trail(members, order, candidate);
      ghost var at := o;
      var i := 0;
      while i < PROCESS_LIMIT && candidate.Some?
        invariant i <= PROCESS_LIMIT && at < |members| && members[at].restore == candidate
        invariant |trail| < PROCESS_LIMIT && |Trail(members, order, candidate)| + i == |trail|
        invariant forall k :: 0 <= k < |Trail(members, order, candidate)| ==>
          Trail(members, order, candidate)[k] < |members|
        invariant Nearest(members, Trail(members, order, candidate)) == Nearest(members, trail)
      {
        assert HopOk(members, sessions, active, order, at);
        var c := candidate.value;
        TrailRange(members, order, members[c].restore);
        assert Trail(members, order, candidate)[1..] == Trail(members, order, members[c].restore);
        if members[c].live && !members[c].cancelled && members[c].session == members[o].session { return candidate; }
        at := c;
        candidate := members[c].restore;
        i := i + 1;
      }
      r := None;
    }

    /** Everyone who would return to `m` now returns to where `m` would have. */
    method Relink(m: nat, s: nat)
      requires s < |sessions| && |sessions[s].members| == PROCESS_LIMIT && MembersCounted(members, sessions)
      requires m < |members|
      requires forall o :: 0 <= o < |members| && members[o].restore.Some? ==> members[o].restore.value < |members|
      requires forall i :: 0 <= i < |sessions[s].members| && sessions[s].members[i].Some? ==>
        sessions[s].members[i].value < |members|
      requires members[m].restore != Some(m)
      modifies this`members
      ensures MembersCounted(members, sessions) && Relinked(old(members), members, m, sessions[s].members)
    {
      hide Occurs, Filled, Pointers, MembersCounted;
      var way := members[m].restore;
      for i := 0 to PROCESS_LIMIT
        invariant MembersCounted(members, sessions) && Relinked(old(members), members, m, sessions[s].members[..i])
      {
        var other := sessions[s].members[i];
        assert sessions[s].members[..i + 1] == sessions[s].members[..i] + [other];
        if other.Some? && members[other.value].restore == Some(m) {
          SetRestore(other.value, way);
        }
      }
      assert sessions[s].members[..PROCESS_LIMIT] == sessions[s].members;
    }

    // ----- What every state guarantees --------------------------------------------------------------

    /** The way back from the owner is free of cycles, fits the loop bound, passes live
        members of the session only and ends at its root. */
    lemma OwnerReturns()
      requires Valid() && Owner().Some?
      ensures Falls(members, order) && Owner().value < |members|
      ensures var t := Trail(members, order, Owner());
        && 0 < |t| <= PROCESS_LIMIT && sessions[active.value].root == Some(t[|t| - 1])
        && (forall i :: 0 <= i < |t| ==> OnConsole(members, active, t[i]))
        && (forall i, j :: 0 <= i < j < |t| ==> t[i] != t[j])
    {
      hide Occurs, Filled, MembersCounted, SessionsCounted, LinkOk, HopOk;
      LinkedRanges(members, sessions, active, order);
      LinkedFalls(members, sessions, active, order);
      var o := Owner().value;
      TrailShort(members, sessions, active, order, o);
      TrailHome(members, sessions, active, order, o);
      TrailRange(members, order, Some(o));
      var t := Trail(members, order, Some(o));
      assert t[0] == o;
      if members[o].restore.None? { assert t == [o]; }
      forall i, j | 0 <= i < j < |t|
        ensures t[i] != t[j]
      {
        assert order[t[j]] < order[t[i]];
      }
    }

    /** While fewer members than slots are attached, launching is refused only for
        want of authority. */
    lemma RoomToLaunch(p: nat)
      requires Valid() && Filled(Attached(members)) < PROCESS_LIMIT
      ensures MayLaunch(None, true) <==> active.None?
      ensures p < |members| ==> (MayLaunch(Some(p), true) <==> Owns(p))
      ensures p < |members| ==> (MayLaunch(Some(p), false) <==>
        && members[p].live && !members[p].cancelled
        && (members[p].session.Some? ==> !sessions[members[p].session.value].closing))
    {
      hide Occurs, Filled, MembersCounted, SessionsCounted, LinkOk, Attached;
      SessionRoom(members, sessions, active, order);
      if p < |members| && members[p].session.Some? {
        SlotRoom(members, sessions, active, order, members[p].session.value);
      }
    }

    // ----- Shells and commands -----------------------------------------------------------------------

    predicate IsShell(m: nat)
      requires m < |members|
      reads this
    {
      && members[m].live && members[m].shell && members[m].session.Some? && members[m].session.value < |sessions|
      && !sessions[members[m].session.value].closing && sessions[members[m].session.value].root == Some(m)
    }

    method MarkShell(m: nat) returns (ok: bool)
      requires Valid() && m < |members|
      modifies this`members
      ensures Valid() && (ok <==> old(Owns(m) && sessions[active.value].root == Some(m) && !members[m].shell))
      ensures members == if ok then old(members)[m := old(members)[m].(shell := true)] else old(members)
      ensures ok ==> IsShell(m)
    {
      hide Occurs, Filled, Pointers, MembersCounted, Placed;
      ok := Owns(m) && sessions[active.value].root == Some(m) && !members[m].shell;
      if ok {
        ghost var before := members;
        members := members[m := members[m].(shell := true)];
        CountsFrame(before, sessions, members, sessions);
        PlacedFrame(before, sessions, members, sessions);
        LinkedFrame(before, sessions, active, order, members);
      }
    }

    /** Give a command's authority to the child the shell just put in front. */
    method GrantCommand(shell: nat, child: nat) returns (ok: bool)
      requires Valid() && shell < |members| && child < |members|
      modifies this`members
      ensures Valid()
      ensures ok <==> old(IsShell(shell) && active.Some? && members[child].live && members[child].session == active &&
                          Owner() == Some(child) && members[child].restore == Some(shell) && !members[child].command)
      ensures members == if ok then old(members)[child := old(members)[child].(command := true)] else old(members)
    {
      hide Occurs, Filled, Pointers, MembersCounted, Placed, LinkOk;
      assert LinkOk(members, sessions, active, order, child);
      WayStays(child);
      ok := IsShell(shell) && active.Some? && members[child].live && members[child].session == active &&
        !sessions[active.value].closing && sessions[active.value].owner == Some(child) &&
        members[child].session == members[shell].session && members[child].restore == Some(shell) &&
        !members[child].command;
      if ok {
        ghost var before := members;
        members := members[child := members[child].(command := true)];
        CountsFrame(before, sessions, members, sessions);
        PlacedFrame(before, sessions, members, sessions);
        LinkedFrame(before, sessions, active, order, members);
      }
    }

    /** Return links stay within the session. */
    lemma WayStays(m: nat)
      requires Valid() && m < |members|
      ensures members[m].restore.Some? ==>
        members[m].restore.value < |members| && members[members[m].restore.value].session == members[m].session
    {
      hide Occurs, Filled, MembersCounted, Placed;
      assert LinkOk(members, sessions, active, order, m);
    }

    /** The shell a command answers to: the live root it returns to. */
    method CommandShell(m: nat) returns (shell: Option<nat>)
      requires Valid() && m < |members|
      ensures shell.Some? ==>
        shell.value < |members| && IsShell(shell.value) && Owns(m) && members[m].command && members[m].restore == shell
      ensures shell.None? ==>
        !(Owns(m) && members[m].command && members[m].restore.Some?
           && members[m].restore.value < |members| && IsShell(members[m].restore.value))
    {
      hide Occurs, Filled, Pointers, MembersCounted, Placed, LinkOk;
      WayStays(m);
      LinkedRanges(members, sessions, active, order);
      shell := None;
      if Owns(m) && members[m].command {
        var root := sessions[active.value].root;
        if root.Some? && IsShell(root.value) && members[m].restore == root { return root; }
      }
    }

    /** A command asks its shell to end; the shell reads the request once it owns the
        console again. */
    method RequestExit(m: nat, status: int) returns (ok: bool)
      requires Valid() && m < |members|
      modifies this`sessions
      ensures Valid() && |sessions| == old(|sessions|)
      ensures ok <==>
        exists shell: nat ::
          && shell < |members| && old(IsShell(shell)) && old(Owns(m))
          && members[m].command && members[m].restore == Some(shell)
      ensures ok ==>
        && old(active).value < |sessions|
        && sessions == old(sessions)[active.value := old(sessions)[active.value].(exitRequested := true,
                                                                                  exitStatus := status)]
      ensures !ok ==> sessions == old(sessions)
    {
      hide Occurs, Filled, Pointers, MembersCounted, Placed, LinkOk;
      var shell := CommandShell(m);
      ok := shell.Some?;
      if ok {
        ghost var before := sessions;
        var s := active.value;
        InUse(s, m);
        sessions := sessions[s := sessions[s].(exitRequested := true, exitStatus := status)];
        CountsFrame(members, before, members, sessions);
        PlacedFrame(members, before, members, sessions);
        RequestKept(members, before, active, order, sessions, s);
      }
    }
  }

  lemma RequestKept(members: seq<Member>, sessions: seq<Console>, active: Option<nat>, order: seq<nat>,
                    sessions': seq<Console>, s: nat)
    requires Linked(members, sessions, active, order) && Shaped(sessions) && SessionsCounted(sessions, active)
    requires s < |sessions|
    requires sessions[s].references > 0 && |sessions'| == |sessions|
    requires sessions' ==
      sessions[s := sessions[s].(exitRequested := sessions'[s].exitRequested, exitStatus := sessions'[s].exitStatus)]
    ensures Linked(members, sessions', active, order) && Shaped(sessions') && SessionsCounted(sessions', active)
  {
    hide Filled;
    forall o | 0 <= o < |members|
      ensures LinkOk(members, sessions', active, order, o)
    {
      assert LinkOk(members, sessions, active, order, o);
    }
  }

  /** The nearest member on the way back from `o`. */
  ghost function NearestFrom(members: seq<Member>, order: seq<nat>, o: nat): Option<nat>
    requires Falls(members, order) && o < |members|
  {
    TrailRange(members, order, members[o].restore);
    Nearest(members, Trail(members, order, members[o].restore))
  }

  ghost predicate MayOwn(members: seq<Member>, sessions: seq<Console>, active: Option<nat>, r: nat) {
    && OnConsole(members, active, r) && active.value < |sessions| && !members[r].cancelled
    && (members[r].restore.Some? || sessions[active.value].root == Some(r))
  }

  /** Listed members that returned to `m` return to where `m` returns. */
  ghost predicate Relinked(before: seq<Member>, after: seq<Member>, m: nat, list: seq<Option<nat>>) {
    && |after| == |before| && m < |before|
    && forall o :: 0 <= o < |before| ==>
         after[o] == before[o].(references := after[o].references,
                                restore := if before[o].restore == Some(m) && Some(o) in list then before[m].restore
                                           else before[o].restore)
  }

  lemma NotOwnWay(members: seq<Member>, sessions: seq<Console>, active: Option<nat>, order: seq<nat>, m: nat)
    requires Linked(members, sessions, active, order) && m < |members|
    ensures members[m].restore != Some(m)
  {
    assert LinkOk(members, sessions, active, order, m);
  }

  lemma OwnerAttached(members: seq<Member>, sessions: seq<Console>, active: Option<nat>, order: seq<nat>)
    requires Linked(members, sessions, active, order) && active.Some?
    ensures active.value < |sessions|
    ensures var o := sessions[active.value].owner; o.Some? ==> o.value < |members| && members[o.value].session == active
  {
  }

  /** `m` is out of every way back but still remembers its own. */
  ghost predicate Bypassed(before: seq<Member>, after: seq<Member>, m: nat) {
    && |after| == |before| && m < |before| && !after[m].live
    && forall o :: 0 <= o < |before| ==>
         && after[o].restore == (if before[o].restore == Some(m) then before[m].restore else before[o].restore)
         && after[o].session == before[o].session && after[o].cancelled == before[o].cancelled
         && after[o].id == before[o].id && after[o].shell == before[o].shell
         && (o != m ==> after[o].live == before[o].live)
  }

  lemma RelinkedHops(members: seq<Member>, sessions: seq<Console>, order: seq<nat>, m: nat, members': seq<Member>,
                     s: nat)
    requires Linked(members, sessions, Some(s), order) && Placed(members, sessions) && m < |members| && s < |sessions|
    requires sessions[s].root != Some(m)
    requires Relinked(members[m := members[m].(live := false, command := false)], members', m, sessions[s].members)
    ensures Bypassed(members, members', m) && Hops(members', sessions, Some(s), order)
  {
    hide Occurs, Placed, LinkOk, HopOk, ActiveOk, IdleOk;
    forall o | 0 <= o < |members|
      ensures members[o].restore == Some(m) ==> Some(o) in sessions[s].members
    {
      RestoresListed(members, sessions, order, m, s, o);
    }
    assert Bypassed(members, members', m);
    forall o | 0 <= o < |members|
      ensures HopOk(members', sessions, Some(s), order, o)
    {
      BypassedHop(members, sessions, order, m, members', s, o);
    }
  }

  /** Whoever returns to a member is listed in its session. */
  lemma RestoresListed(members: seq<Member>, sessions: seq<Console>, order: seq<nat>, m: nat, s: nat, o: nat)
    requires Linked(members, sessions, Some(s), order) && Placed(members, sessions) && m < |members| && s < |sessions|
    requires o < |members|
    ensures members[o].restore == Some(m) ==> Some(o) in sessions[s].members
  {
    hide Occurs, ActiveOk, IdleOk;
    assert LinkOk(members, sessions, Some(s), order, o);
    if members[o].restore == Some(m) { SlotOf(members, sessions, o); }
  }

  lemma BypassedHop(members: seq<Member>, sessions: seq<Console>, order: seq<nat>, m: nat, members': seq<Member>,
                    s: nat, o: nat)
    requires Linked(members, sessions, Some(s), order) && m < |members| && s < |sessions| && sessions[s].root != Some(m)
    requires Bypassed(members, members', m) && o < |members|
    ensures HopOk(members', sessions, Some(s), order, o)
  {
    hide Occurs, ActiveOk, IdleOk;
    assert LinkOk(members, sessions, Some(s), order, o);
    assert LinkOk(members, sessions, Some(s), order, m);
    if members[o].restore.Some? { assert LinkOk(members, sessions, Some(s), order, members[o].restore.value); }
    if members[m].restore.Some? { assert LinkOk(members, sessions, Some(s), order, members[m].restore.value); }
  }

  lemma {:induction false} BypassedTrail(members: seq<Member>, members': seq<Member>, order: seq<nat>, m: nat,
                                         c: Option<nat>)
    requires Falls(members, order) && Falls(members', order) && Bypassed(members, members', m)
    requires (c.Some? ==> c.value < |members|) && c != Some(m)
    ensures Trail(members', order, c) == Without(Trail(members, order, c), m)
    decreases if c.None? then 0 else order[c.value] + 1
  {
    if c.Some? {
      var next := members[c.value].restore;
      if next == Some(m) {
        BypassedTrail(members, members', order, m, members[m].restore);
        assert Trail(members, order, next) == [m] + Trail(members, order, members[m].restore);
        assert Trail(members, order, next)[1..] == Trail(members, order, members[m].restore);
      } else {
        BypassedTrail(members, members', order, m, next);
      }
      assert Trail(members, order, c)[1..] == Trail(members, order, next);
    }
  }

  lemma {:induction false} SameNearest(members: seq<Member>, members': seq<Member>, trail: seq<nat>)
    requires |members'| == |members| && forall o :: 0 <= o < |members| ==> members'[o].cancelled == members[o].cancelled
    requires forall i :: 0 <= i < |trail| ==> trail[i] < |members|
    ensures Nearest(members', trail) == Nearest(members, trail)
    decreases |trail|
  {
    if trail != [] { SameNearest(members, members', trail[1..]); }
  }

  /** The way back of the owner, read after the links were mended. */
  lemma SuccessorIs(members: seq<Member>, order: seq<nat>, owner: Option<nat>, m: nat, members': seq<Member>)
    requires Falls(members, order) && Falls(members', order) && Bypassed(members, members', m)
    requires (owner.Some? ==> owner.value < |members|)
    ensures SuccessorOf(members, order, owner, m) ==
      if owner.Some? && (owner == Some(m) || (m in Trail(members, order, owner) && members[owner.value].cancelled))
      then NearestFrom(members', order, owner.value) else owner
  {
    if owner.Some? {
      var next, next' := members[owner.value].restore, members'[owner.value].restore;
      TrailRange(members', order, next');
      if next == Some(m) {
        BypassedTrail(members, members', order, m, members[m].restore);
        assert Trail(members, order, next)[1..] == Trail(members, order, members[m].restore);
      } else {
        BypassedTrail(members, members', order, m, next);
      }
      assert Trail(members', order, next') == Without(Trail(members, order, next), m);
      SameNearest(members, members', Trail(members', order, next'));
    }
  }

  lemma BypassedFields(members: seq<Member>, members': seq<Member>, m: nat)
    requires Bypassed(members, members', m)
    ensures |members'| == |members| && !members'[m].live && members'[m].session == members[m].session
    ensures (members'[m].restore.Some? ==> members[m].restore.Some?)
    ensures forall o :: 0 <= o < |members| ==>
      members'[o].cancelled == members[o].cancelled && members'[o].session == members[o].session
    ensures (forall o :: 0 <= o < |members| && members[o].restore.Some? ==> members[o].restore.value < |members|) ==>
      forall o :: 0 <= o < |members| && members'[o].restore.Some? ==> members'[o].restore.value < |members|
  {
  }

  lemma SameFields(a: seq<Member>, b: seq<Member>)
    requires SameButCounts(a, b)
    ensures |b| == |a| && forall o :: 0 <= o < |a| ==>
      b[o].restore == a[o].restore && b[o].live == a[o].live && b[o].session == a[o].session
  {
  }

  lemma StillUndisturbed(members: seq<Member>, members2: seq<Member>, members3: seq<Member>, members': seq<Member>,
                         m: nat)
    requires Bypassed(members, members2, m) && SameButCounts(members2, members3)
    requires SameButCounts(members3[m := members3[m].(restore := None)], members')
    ensures Undisturbed(members, members', m)
  {
  }

  lemma PlacedBack(members: seq<Member>, sessions: seq<Console>, members3: seq<Member>, members': seq<Member>, m: nat,
                   sessions': seq<Console>)
    requires Placed(members, sessions) && SameButCounts(members, members3) && m < |members|
    requires SameButCounts(members3[m := members3[m].(restore := None)], members')
    requires |sessions'| == |sessions| && forall t :: 0 <= t < |sessions| ==>
      sessions'[t].members == sessions[t].members
    ensures Placed(members', sessions')
    ensures |members'| == |members|
    ensures members'[m].session == members[m].session && members'[m].live == members[m].live
  {
    PlacedFrame(members, sessions, members', sessions');
  }

  lemma HandedBack(members: seq<Member>, sessions: seq<Console>, order: seq<nat>, m: nat, members2: seq<Member>,
                   members3: seq<Member>, members': seq<Member>, sessions': seq<Console>, s: nat)
    requires Linked(members, sessions, Some(s), order) && s < |sessions| && Bypassed(members, members2, m)
    requires Hops(members2, sessions, Some(s), order)
    requires SameButCounts(members2, members3) && SameButCounts(members3[m := members3[m].(restore := None)], members')
    requires |sessions'| == |sessions| && sessions' == sessions[s := sessions[s].(owner := sessions'[s].owner)]
    requires (sessions'[s].owner == sessions[s].owner && sessions[s].owner != Some(m))
             || sessions'[s].owner.None? || MayOwn(members2, sessions, Some(s), sessions'[s].owner.value)
    requires sessions[s].root != Some(m)
    ensures Linked(members', sessions', Some(s), order)
  {
    forall o | 0 <= o < |members|
      ensures LinkOk(members', sessions', Some(s), order, o)
    {
      assert LinkOk(members, sessions, Some(s), order, o);
      assert HopOk(members2, sessions, Some(s), order, o);
    }
    assert LinkOk(members, sessions, Some(s), order, m);
    if sessions[s].owner.Some? && sessions'[s].owner == sessions[s].owner {
      assert LinkOk(members, sessions, Some(s), order, sessions[s].owner.value);
    }
  }

  lemma OwnerOnly(sessions: seq<Console>, sessions': seq<Console>, active: Option<nat>, s: nat)
    requires Shaped(sessions) && SessionsCounted(sessions, active) && s < |sessions| && |sessions'| == |sessions|
    requires sessions' == sessions[s := sessions[s].(owner := sessions'[s].owner)]
    requires sessions[s].references > 0
    ensures Shaped(sessions') && SessionsCounted(sessions', active)
  {
    hide Filled;
  }

  /** Every listed member lost its return link and command mark; nothing else changed. */
  ghost predicate Cleared(before: seq<Member>, after: seq<Member>, list: seq<Option<nat>>) {
    && |after| == |before|
    && forall o :: 0 <= o < |before| ==>
         if Some(o) in list
         then after[o] == before[o].(references := after[o].references, restore := None, command := false)
         else after[o] == before[o].(references := after[o].references)
  }

  lemma PlacedRange(members: seq<Member>, sessions: seq<Console>)
    requires Placed(members, sessions)
    ensures forall s, i :: 0 <= s < |sessions| && 0 <= i < |sessions[s].members| && sessions[s].members[i].Some? ==>
      sessions[s].members[i].value < |members|
  {
  }

  lemma RootPoints(members: seq<Member>, sessions: seq<Console>, s: nat)
    requires s < |sessions| && sessions[s].root.Some? && sessions[s].root.value < |members|
    requires MembersCounted(members, sessions)
    ensures members[sessions[s].root.value].references > 0
  {
    OccursAt(Roots(sessions), s, sessions[s].root.value);
  }

  lemma RootDropped(members: seq<Member>, sessions: seq<Console>, members': seq<Member>, sessions': seq<Console>,
                    m: nat, s: nat)
    requires MembersCounted(members, sessions) && m < |members| && s < |sessions| && sessions[s].root == Some(m)
    requires members[m].references > 0
    requires members' == members[m := members[m].(references := members[m].references - 1)]
    requires sessions' == sessions[s := sessions[s].(root := None)]
    ensures MembersCounted(members', sessions')
  {
    hide Pointers;
    forall o | 0 <= o < |members'|
      ensures members'[o].references == Pointers(members', sessions', o)
    {
      RootSet(members, sessions, s, None, o);
      PointersSame(members, sessions', members', sessions', o);
    }
  }

  /** Return links exist only inside the active session, so none is left. */
  lemma AllReleased(members: seq<Member>, sessions: seq<Console>, active: Option<nat>, order: seq<nat>, s: nat,
                    members': seq<Member>)
    requires Linked(members, sessions, active, order) && Placed(members, sessions) && active == Some(s)
    requires s < |sessions|
    requires |members'| == |members| && forall o :: 0 <= o < |members| ==>
      members'[o].restore == (if Some(o) in sessions[s].members then None else members[o].restore)
    ensures forall o :: 0 <= o < |members'| ==> members'[o].restore.None?
  {
    hide Occurs;
    forall o | 0 <= o < |members'|
      ensures members'[o].restore.None?
    {
      assert LinkOk(members, sessions, active, order, o);
      if members[o].restore.Some? { SlotOf(members, sessions, o); }
    }
  }

  lemma ClosedSessions(sessions: seq<Console>, sessions': seq<Console>, s: nat, m: nat, members: seq<Member>)
    requires Shaped(sessions) && SessionsCounted(sessions, Some(s)) && s < |sessions| && Placed(members, sessions)
    requires m < |members| && members[m].session == Some(s)
    requires sessions' ==
      sessions[s := sessions[s].(owner := None, root := None, closing := true,
                                 references := sessions[s].references - 1)]
    ensures Shaped(sessions') && SessionsCounted(sessions', None)
  {
    hide Filled, Occurs;
    var i := OccursSomewhere(sessions[s].members, m);
    FilledBound(sessions[s].members);
  }

  lemma ClosedLinks(members: seq<Member>, sessions: seq<Console>, order: seq<nat>, s: nat, sessions0: seq<Console>,
                    members0: seq<Member>)
    requires |order| == |members| && s < |sessions| == |sessions0| && Linked(members0, sessions0, Some(s), order)
    requires forall o :: 0 <= o < |members| ==> members[o].restore.None?
    requires forall t :: 0 <= t < |sessions| && t != s ==> sessions[t] == sessions0[t]
    requires sessions[s].root.None? && sessions[s].owner.None? && sessions[s].closing
    ensures Linked(members, sessions, None, order)
  {
  }

  ghost function SuccessorOf(members: seq<Member>, order: seq<nat>, owner: Option<nat>, m: nat): Option<nat>
    requires Falls(members, order) && (owner.Some? ==> owner.value < |members|)
  {
    if owner.None? then None
    else
      TrailRange(members, order, members[owner.value].restore);
      var rest := Without(Trail(members, order, members[owner.value].restore), m);
      assert forall i :: 0 <= i < |rest| ==> rest[i] in rest;
      if owner == Some(m) || (m in Trail(members, order, owner) && members[owner.value].cancelled)
      then Nearest(members, rest)
      else owner
  }

  /** A trail with one member left out. */
  ghost function Without(trail: seq<nat>, m: nat): (r: seq<nat>)
    ensures forall x :: x in r <==> x in trail && x != m
    ensures |r| <= |trail|
  {
    if trail == [] then [] else (if trail[0] == m then [] else [trail[0]]) + Without(trail[1..], m)
  }

  lemma LinkedFalls(members: seq<Member>, sessions: seq<Console>, active: Option<nat>, order: seq<nat>)
    requires Linked(members, sessions, active, order)
    ensures Hops(members, sessions, active, order) && Falls(members, order)
  {
    forall m | 0 <= m < |members|
      ensures HopOk(members, sessions, active, order, m)
    {
      assert LinkOk(members, sessions, active, order, m);
    }
    HopsFall(members, sessions, active, order);
  }

  lemma FadedLinks(members: seq<Member>, sessions: seq<Console>, active: Option<nat>, order: seq<nat>, m: nat)
    requires Linked(members, sessions, active, order) && m < |members|
    requires members[m].session.Some? ==>
      members[m].session.value < |sessions| && sessions[members[m].session.value].closing
    ensures Linked(members[m := members[m].(live := false, command := false)], sessions, active, order)
  {
    var members' := members[m := members[m].(live := false, command := false)];
    forall o | 0 <= o < |members|
      ensures LinkOk(members', sessions, active, order, o)
    {
      assert LinkOk(members, sessions, active, order, o);
    }
  }

  lemma LinkedFrame(members: seq<Member>, sessions: seq<Console>, active: Option<nat>, order: seq<nat>,
                    members': seq<Member>)
    requires Linked(members, sessions, active, order) && |members'| == |members|
    requires forall i :: 0 <= i < |members| ==>
      && members'[i].restore == members[i].restore && members'[i].live == members[i].live
      && members'[i].session == members[i].session
    ensures Linked(members', sessions, active, order)
  {
    forall o | 0 <= o < |members|
      ensures LinkOk(members', sessions, active, order, o)
    {
      assert LinkOk(members, sessions, active, order, o);
    }
  }

  lemma SlotOf(members: seq<Member>, sessions: seq<Console>, m: nat)
    requires Placed(members, sessions) && m < |members| && members[m].session.Some?
    ensures members[m].session.value < |sessions| && Some(m) in sessions[members[m].session.value].members
  {
    hide Occurs;
    var i := OccursSomewhere(sessions[members[m].session.value].members, m);
  }

  /** The session after slot `i` is vacated; the last one out clears it. */
  function Vacated(sessions: seq<Console>, s: nat, i: nat): seq<Console>
    requires s < |sessions| && i < |sessions[s].members| && sessions[s].references > 0
  {
    sessions[s := if sessions[s].references == 1 then CLEAR
                  else sessions[s].(members := sessions[s].members[i := None],
                                    references := sessions[s].references - 1)]
  }

  lemma LeavingCounts(members: seq<Member>, sessions: seq<Console>, active: Option<nat>, order: seq<nat>, s: nat,
                      i: nat)
    requires Shaped(sessions) && SessionsCounted(sessions, active) && Linked(members, sessions, active, order)
    requires s < |sessions| && i < PROCESS_LIMIT && sessions[s].members[i].Some?
    ensures sessions[s].references > 0
    ensures Shaped(Vacated(sessions, s, i)) && SessionsCounted(Vacated(sessions, s, i), active)
    ensures sessions[s].references == 1 ==> active != Some(s) && Filled(sessions[s].members[i := None]) == 0
    ensures forall t :: 0 <= t < |sessions| ==>
      Vacated(sessions, s, i)[t].root == sessions[t].root && Vacated(sessions, s, i)[t].owner == sessions[t].owner
  {
    hide Filled;
    FilledUpdated(sessions[s].members, i, None);
    FilledBound(NO_MEMBERS);
    FilledBound(sessions[s].members);
  }

  lemma PlacedAfterLeaving(members: seq<Member>, sessions: seq<Console>, active: Option<nat>, m: nat, s: nat, i: nat)
    requires Placed(members, sessions) && Shaped(sessions) && m < |members| && members[m].session == Some(s)
    requires s < |sessions| && i < PROCESS_LIMIT
    requires sessions[s].members[i] == Some(m) && sessions[s].references > 0
    requires sessions[s].references == 1 ==> Filled(sessions[s].members[i := None]) == 0
    ensures Placed(members[m := BLANK], Vacated(sessions, s, i))
  {
    hide Occurs, Filled;
    var members', sessions' := members[m := BLANK], Vacated(sessions, s, i);
    var list := sessions[s].members[i := None];
    var all := sessions[s].members;
    forall k | 0 <= k < |all| && k != i
      ensures all[k] != Some(m)
    {
      if k < i && all[k] == Some(m) { OccursTwice(all, k, i, m); }
      if i < k && all[k] == Some(m) { OccursTwice(all, i, k, m); }
    }
    forall o | 0 <= o < |members'| && members'[o].session.Some?
      ensures Occurs(sessions'[members'[o].session.value].members, o) == 1
    {
      OccursUpdated(sessions[s].members, i, None, o);
      if members[o].session == Some(s) && sessions[s].references == 1 {
        var k := OccursSomewhere(list, o);
        FilledBound(list);
      }
    }
  }

  lemma LeavingLinks(members: seq<Member>, sessions: seq<Console>, active: Option<nat>, order: seq<nat>, m: nat, s: nat,
                     i: nat)
    requires Linked(members, sessions, active, order) && m < |members| && !members[m].live
    requires s < |sessions| && i < |sessions[s].members| && sessions[s].references > 0
    requires (sessions[s].references == 1 ==> active != Some(s))
    ensures Linked(members[m := BLANK], Vacated(sessions, s, i), active, order)
  {
    var members', sessions' := members[m := BLANK], Vacated(sessions, s, i);
    forall o | 0 <= o < |members|
      ensures LinkOk(members', sessions', active, order, o)
    {
      assert LinkOk(members, sessions, active, order, o);
    }
  }

  lemma BlankLinks(members: seq<Member>, sessions: seq<Console>, active: Option<nat>, order: seq<nat>, m: nat)
    requires Linked(members, sessions, active, order) && m < |members| && !members[m].live
    ensures Linked(members[m := BLANK], sessions, active, order)
  {
    var members' := members[m := BLANK];
    forall o | 0 <= o < |members|
      ensures LinkOk(members', sessions, active, order, o)
    {
      assert LinkOk(members, sessions, active, order, o);
    }
  }

  lemma SlotTaken(sessions: seq<Console>, sessions': seq<Console>, active: Option<nat>, s: nat, slot: nat, m: nat)
    requires Shaped(sessions) && SessionsCounted(sessions, active) && s < |sessions| && slot < PROCESS_LIMIT
    requires sessions[s].members[slot].None?
    requires sessions' ==
      sessions[s := sessions[s].(members := sessions[s].members[slot := Some(m)],
                                 references := sessions[s].references + 1)]
    ensures Shaped(sessions') && SessionsCounted(sessions', active)
  {
    hide Filled;
    FilledUpdated(sessions[s].members, slot, Some(m));
  }

  lemma LinkedRanges(members: seq<Member>, sessions: seq<Console>, active: Option<nat>, order: seq<nat>)
    requires Linked(members, sessions, active, order)
    ensures forall m :: 0 <= m < |members| && members[m].restore.Some? ==> members[m].restore.value < |members|
    ensures forall s :: 0 <= s < |sessions| && sessions[s].owner.Some? ==> sessions[s].owner.value < |members|
    ensures forall s :: 0 <= s < |sessions| && sessions[s].root.Some? ==> sessions[s].root.value < |members|
    ensures |order| == |members| && (active.Some? ==> active.value < |sessions|)
  {
    forall m | 0 <= m < |members| && members[m].restore.Some?
      ensures members[m].restore.value < |members|
    {
      assert LinkOk(members, sessions, active, order, m);
    }
  }

  lemma RootIsLive(members: seq<Member>, sessions: seq<Console>, active: Option<nat>, order: seq<nat>)
    requires Linked(members, sessions, active, order) && active.Some?
    ensures active.value < |sessions| && sessions[active.value].root.Some?
    ensures sessions[active.value].root.value < |members| && members[sessions[active.value].root.value].live
    ensures |order| == |members|
  {
  }

  /** New records and slots that touch no pointer keep the counts. */
  lemma CountsFrame(members: seq<Member>, sessions: seq<Console>, members': seq<Member>, sessions': seq<Console>)
    requires MembersCounted(members, sessions) && |members'| == |members| && |sessions'| == |sessions|
    requires forall i :: 0 <= i < |members| ==>
      members'[i].restore == members[i].restore && members'[i].references == members[i].references
    requires forall s :: 0 <= s < |sessions| ==>
      sessions'[s].root == sessions[s].root && sessions'[s].owner == sessions[s].owner
    ensures MembersCounted(members', sessions')
  {
    hide Pointers;
    forall m | 0 <= m < |members'|
      ensures members'[m].references == Pointers(members', sessions', m)
    {
      PointersSame(members, sessions, members', sessions', m);
    }
  }

  lemma RootCounted(members: seq<Member>, sessions: seq<Console>, members': seq<Member>, sessions': seq<Console>,
                    m: nat, s: nat)
    requires MembersCounted(members, sessions) && m < |members| && s < |sessions| && members[m].references == 0
    requires members[m].restore.None?
    requires sessions[s].root.None? && sessions[s].owner.None?
    requires |members'| == |members| && members'[m].references == 1 && members'[m].restore.None?
    requires forall o :: 0 <= o < |members| && o != m ==> members'[o] == members[o]
    requires |sessions'| == |sessions| && sessions'[s].root == Some(m) && sessions'[s].owner.None?
    requires forall t :: 0 <= t < |sessions| && t != s ==> sessions'[t] == sessions[t]
    ensures MembersCounted(members', sessions')
  {
    hide Pointers;
    forall o | 0 <= o < |members'|
      ensures members'[o].references == Pointers(members', sessions', o)
    {
      RootSet(members, sessions, s, Some(m), o);
      PointersSame(members, sessions[s := sessions[s].(root := Some(m))], members', sessions', o);
    }
  }

  lemma TakenLinks(members: seq<Member>, sessions: seq<Console>, order: seq<nat>, members': seq<Member>,
                   sessions': seq<Console>, m: nat, p: nat, s: nat)
    requires Linked(members, sessions, Some(s), order) && m < |members| && p < |members| && s < |sessions|
    requires sessions[s].owner == Some(p) && m != p
    requires members[m].live && members[m].session == Some(s) && members[m].restore.None? && order[p] < order[m]
    requires (forall o :: 0 <= o < |members| ==> members[o].restore != Some(m)) && sessions[s].root != Some(m)
    requires SameButCounts(members[m := members[m].(restore := Some(p))], members')
    requires sessions' == sessions[s := sessions[s].(owner := Some(m))]
    ensures Linked(members', sessions', Some(s), order)
  {
    forall o | 0 <= o < |members|
      ensures LinkOk(members', sessions', Some(s), order, o)
    {
      assert LinkOk(members, sessions, Some(s), order, o);
    }
  }

  lemma PlacedAfterJoin(members: seq<Member>, sessions: seq<Console>, members': seq<Member>, sessions': seq<Console>,
                        m: nat, s: nat, slot: nat)
    requires Placed(members, sessions) && m < |members| && members[m].session.None? && s < |sessions|
    requires slot < |sessions[s].members|
    requires sessions[s].members[slot].None? && |members'| == |members| && members'[m].session == Some(s)
    requires forall o :: 0 <= o < |members| && o != m ==> members'[o].session == members[o].session
    requires |sessions'| == |sessions| && sessions'[s].members == sessions[s].members[slot := Some(m)]
    requires forall t :: 0 <= t < |sessions| && t != s ==> sessions'[t].members == sessions[t].members
    ensures Placed(members', sessions')
  {
    hide Occurs;
    NotPlaced(members, sessions, s, m);
    forall o | 0 <= o < |members'| && members'[o].session.Some?
      ensures Occurs(sessions'[members'[o].session.value].members, o) == 1
    {
      OccursUpdated(sessions[s].members, slot, Some(m), o);
    }
  }

  /** A record without a session is in no slot. */
  lemma NotPlaced(members: seq<Member>, sessions: seq<Console>, s: nat, m: nat)
    requires Placed(members, sessions) && s < |sessions| && m < |members| && members[m].session != Some(s)
    ensures Occurs(sessions[s].members, m) == 0
  {
    hide Occurs;
    if Occurs(sessions[s].members, m) >= 1 {
      var i := OccursSomewhere(sessions[s].members, m);
    }
  }

  lemma PlacedFrame(members: seq<Member>, sessions: seq<Console>, members': seq<Member>, sessions': seq<Console>)
    requires Placed(members, sessions) && |members'| == |members| && |sessions'| == |sessions|
    requires forall o :: 0 <= o < |members| ==> members'[o].session == members[o].session
    requires forall t :: 0 <= t < |sessions| ==> sessions'[t].members == sessions[t].members
    ensures Placed(members', sessions')
  {
    hide Occurs;
  }

  lemma OpenedLinks(members: seq<Member>, sessions: seq<Console>, order: seq<nat>, members': seq<Member>,
                    sessions': seq<Console>, order': seq<nat>, m: nat, s: nat)
    requires Linked(members, sessions, None, order) && m < |members| && s < |sessions| == |sessions'|
    requires |members'| == |members| == |order'|
    requires forall t :: 0 <= t < |sessions| && t != s ==> sessions'[t] == sessions[t]
    requires sessions'[s].root == Some(m) && sessions'[s].owner == Some(m) && !sessions'[s].closing
    requires members'[m].live && members'[m].session == Some(s) && members'[m].restore.None?
    requires forall o :: 0 <= o < |members| && o != m ==> members'[o].restore == members[o].restore
    ensures Linked(members', sessions', Some(s), order')
  {
    forall o | 0 <= o < |members|
      ensures LinkOk(members', sessions', Some(s), order', o)
    {
      assert LinkOk(members, sessions, None, order, o);
    }
  }

  /** A new record joins; nobody pointed to it and the pointers of sessions stay. */
  lemma LinkedAfterJoin(members: seq<Member>, sessions: seq<Console>, active: Option<nat>, order: seq<nat>,
                        members': seq<Member>, sessions': seq<Console>, order': seq<nat>, m: nat)
    requires Linked(members, sessions, active, order) && m < |members| && !members[m].live && |sessions'| == |sessions|
    requires |members'| == |members| == |order'| && members'[m].restore.None?
    requires forall o :: 0 <= o < |members| && o != m ==> members'[o] == members[o] && order'[o] == order[o]
    requires forall s :: 0 <= s < |sessions| ==>
      && sessions'[s].root == sessions[s].root && sessions'[s].owner == sessions[s].owner
      && sessions'[s].closing == sessions[s].closing
      && (active != Some(s) ==> sessions'[s] == sessions[s])
    ensures Linked(members', sessions', active, order')
  {
    forall o | 0 <= o < |members|
      ensures LinkOk(members', sessions', active, order', o)
    {
      assert LinkOk(members, sessions, active, order, o);
    }
  }

  // ----- The way back -----------------------------------------------------------------------------

  ghost predicate Hops(members: seq<Member>, sessions: seq<Console>, active: Option<nat>, order: seq<nat>) {
    && |order| == |members| && (active.Some? ==> active.value < |sessions|)
    && forall m :: 0 <= m < |members| ==> HopOk(members, sessions, active, order, m)
  }

  ghost predicate Falls(members: seq<Member>, order: seq<nat>) {
    |order| == |members| && forall m :: 0 <= m < |members| && members[m].restore.Some? ==>
      members[m].restore.value < |members| && order[members[m].restore.value] < order[m]
  }

  lemma HopsFall(members: seq<Member>, sessions: seq<Console>, active: Option<nat>, order: seq<nat>)
    requires Hops(members, sessions, active, order)
    ensures Falls(members, order)
  {
    forall m | 0 <= m < |members| && members[m].restore.Some?
      ensures members[m].restore.value < |members| && order[members[m].restore.value] < order[m]
    {
      assert HopOk(members, sessions, active, order, m);
    }
  }

  /** The members met by following return links. */
  ghost function Trail(members: seq<Member>, order: seq<nat>, c: Option<nat>): seq<nat>
    requires Falls(members, order) && (c.Some? ==> c.value < |members|)
    decreases if c.None? then 0 else order[c.value] + 1
  {
    if c.None? then [] else [c.value] + Trail(members, order, members[c.value].restore)
  }

  /** The first member of a trail that has not been cancelled. */
  ghost function Nearest(members: seq<Member>, trail: seq<nat>): Option<nat>
    requires forall i :: 0 <= i < |trail| ==> trail[i] < |members|
  {
    if trail == [] then None
    else if !members[trail[0]].cancelled then Some(trail[0])
    else Nearest(members, trail[1..])
  }

  lemma {:induction false} TrailRange(members: seq<Member>, order: seq<nat>, c: Option<nat>)
    requires Falls(members, order) && (c.Some? ==> c.value < |members|)
    ensures forall i :: 0 <= i < |Trail(members, order, c)| ==> Trail(members, order, c)[i] < |members|
    ensures forall i :: 0 <= i < |Trail(members, order, c)| ==> order[Trail(members, order, c)[i]] <= order[c.value]
    ensures forall i, j :: 0 <= i < j < |Trail(members, order, c)| ==>
      order[Trail(members, order, c)[j]] < order[Trail(members, order, c)[i]]
    decreases if c.None? then 0 else order[c.value] + 1
  {
    if c.Some? { TrailRange(members, order, members[c.value].restore); }
  }

  /** A live member of the active session. */
  ghost predicate OnConsole(members: seq<Member>, active: Option<nat>, m: nat) {
    active.Some? && m < |members| && members[m].live && members[m].session == active
  }

  /** Past its start a trail holds live members of the active session, and it ends at
      the root. */
  lemma {:induction false} TrailHome(members: seq<Member>, sessions: seq<Console>, active: Option<nat>, order: seq<nat>,
                                     c: nat)
    requires Hops(members, sessions, active, order) && c < |members| && Falls(members, order)
    ensures forall i :: 0 < i < |Trail(members, order, Some(c))| ==>
      OnConsole(members, active, Trail(members, order, Some(c))[i])
    ensures var t := Trail(members, order, Some(c));
      members[c].restore.Some? ==> active.Some? && sessions[active.value].root == Some(t[|t| - 1])
    decreases order[c]
  {
    assert HopOk(members, sessions, active, order, c);
    if members[c].restore.Some? {
      var p := members[c].restore.value;
      TrailHome(members, sessions, active, order, p);
      var t, rest := Trail(members, order, Some(c)), Trail(members, order, Some(p));
      assert t == [c] + rest && rest[0] == p;
      if members[p].restore.None? { assert Trail(members, order, None) == [] && rest == [p]; }
      forall i | 0 < i < |t|
        ensures OnConsole(members, active, t[i])
      {
        if i > 1 { assert t[i] == rest[i - 1]; }
      }
    }
  }

  /** No trail is longer than the session's member list. */
  lemma TrailShort(members: seq<Member>, sessions: seq<Console>, active: Option<nat>, order: seq<nat>, c: nat)
    requires Hops(members, sessions, active, order) && Falls(members, order) && Placed(members, sessions)
    requires Shaped(sessions)
    requires c < |members| && active.Some? && members[c].session == active
    ensures |Trail(members, order, Some(c))| <= PROCESS_LIMIT
  {
    hide Occurs, Filled, HopOk;
    var t := Trail(members, order, Some(c));
    TrailRange(members, order, Some(c));
    TrailHome(members, sessions, active, order, c);
    assert t[0] == c;
    var list := sessions[active.value].members;
    forall i | 0 <= i < |t|
      ensures Occurs(list, t[i]) >= 1
    {
      if i > 0 { assert OnConsole(members, active, t[i]); }
    }
    DistinctFit(list, t);
    FilledBound(list);
  }

  // ----- There is always room -----------------------------------------------------------------

  /** The attached members, each at its own index. */
  ghost function Attached(members: seq<Member>): seq<Option<nat>> {
    seq(|members|, i requires 0 <= i < |members| => if members[i].session.Some? then Some(i) else None)
  }

  ghost predicate Structured(members: seq<Member>, sessions: seq<Console>, active: Option<nat>, order: seq<nat>) {
    && Shaped(sessions) && SessionsCounted(sessions, active) && Placed(members, sessions)
    && Linked(members, sessions, active, order)
  }

  lemma AttachedFit(members: seq<Member>, names: seq<nat>)
    requires forall i, j :: 0 <= i < j < |names| ==> names[i] != names[j]
    requires forall i :: 0 <= i < |names| ==> names[i] < |members| && members[names[i]].session.Some?
    ensures |names| <= Filled(Attached(members))
  {
    hide Occurs, Filled;
    forall i | 0 <= i < |names|
      ensures Occurs(Attached(members), names[i]) >= 1
    {
      OccursAt(Attached(members), names[i], names[i]);
    }
    DistinctFit(Attached(members), names);
  }

  /** A session never has all slots taken while fewer members than slots are attached. */
  lemma SlotRoom(members: seq<Member>, sessions: seq<Console>, active: Option<nat>, order: seq<nat>, s: nat)
    requires Structured(members, sessions, active, order) && Filled(Attached(members)) < PROCESS_LIMIT && s < |sessions|
    ensures exists i :: 0 <= i < PROCESS_LIMIT && sessions[s].members[i].None?
  {
    hide Occurs, Filled, Linked;
    var list := sessions[s].members;
    if forall i :: 0 <= i < PROCESS_LIMIT ==> list[i].Some? {
      var names := seq(PROCESS_LIMIT, i requires 0 <= i < PROCESS_LIMIT => list[i].value);
      forall i, j | 0 <= i < j < |names|
        ensures names[i] != names[j]
      {
        if list[i] == list[j] { OccursTwice(list, i, j, list[i].value); }
      }
      AttachedFit(members, names);
    }
  }

  /** A session in use has a member. */
  lemma SomeMember(members: seq<Member>, sessions: seq<Console>, active: Option<nat>, order: seq<nat>, s: nat)
    returns (m: nat)
    requires Structured(members, sessions, active, order) && s < |sessions| && sessions[s].references > 0
    ensures m < |members| && members[m].session == Some(s)
  {
    hide Occurs, Filled, LinkOk;
    if active == Some(s) {
      m := sessions[s].root.value;
    } else {
      FilledBound(sessions[s].members);
      var i :| 0 <= i < |sessions[s].members| && sessions[s].members[i].Some?;
      m := sessions[s].members[i].value;
    }
  }

  ghost function Chosen(members: seq<Member>, s: nat): nat {
    if exists m :: 0 <= m < |members| && members[m].session == Some(s)
    then var m :| 0 <= m < |members| && members[m].session == Some(s); m
    else 0
  }

  /** Likewise a free session: every one in use has a member of its own. */
  lemma SessionRoom(members: seq<Member>, sessions: seq<Console>, active: Option<nat>, order: seq<nat>)
    requires Structured(members, sessions, active, order) && Filled(Attached(members)) < PROCESS_LIMIT
    ensures exists s :: 0 <= s < |sessions| && sessions[s].references == 0
  {
    hide Occurs, Filled, Linked, Placed;
    if forall s :: 0 <= s < |sessions| ==> sessions[s].references > 0 {
      var names := seq(PROCESS_LIMIT, s requires 0 <= s => Chosen(members, s));
      forall s | 0 <= s < PROCESS_LIMIT
        ensures names[s] < |members| && members[names[s]].session == Some(s)
      {
        var m := SomeMember(members, sessions, active, order, s);
      }
      AttachedFit(members, names);
    }
  }

  lemma {:induction false} NoPointers(s: seq<Option<nat>>, m: nat)
    requires forall i :: 0 <= i < |s| ==> s[i] != Some(m)
    ensures Occurs(s, m) == 0
    decreases |s|
  {
    if s != [] { NoPointers(s[..|s| - 1], m); }
  }

  lemma OwnerPoints(members: seq<Member>, sessions: seq<Console>, s: nat)
    requires s < |sessions| && sessions[s].owner.Some?
    ensures Pointers(members, sessions, sessions[s].owner.value) > 0
  {
    OccursAt(Owners(sessions), s, sessions[s].owner.value);
  }

  lemma RestorePoints(members: seq<Member>, sessions: seq<Console>, o: nat)
    requires o < |members| && MembersCounted(members, sessions)
    requires members[o].restore.Some? ==> members[o].restore.value < |members|
    ensures members[o].restore.Some? ==> members[members[o].restore.value].references > 0
    ensures |Dropped(members, members[o].restore)| == |members|
  {
    if members[o].restore.Some? { OccursAt(Restores(members), o, members[o].restore.value); }
  }

  /** Redirecting one return link moves one reference. */
  lemma RestoreCounted(members: seq<Member>, sessions: seq<Console>, o: nat, next: Option<nat>, members': seq<Member>)
    requires o < |members| && MembersCounted(members, sessions) && (next.Some? ==> next.value < |members|)
    requires members[o].restore.Some? ==>
      members[o].restore.value < |members| && members[members[o].restore.value].references > 0
    requires var dropped := Dropped(members, members[o].restore);
      members' == Retained(dropped[o := dropped[o].(restore := next)], next)
    ensures MembersCounted(members', sessions)
    ensures SameButCounts(members[o := members[o].(restore := next)], members')
  {
    hide Pointers, Retained, Dropped;
    var linked := members[o := members[o].(restore := next)];
    forall m | 0 <= m < |members'|
      ensures members'[m].references == Pointers(members', sessions, m)
    {
      RestoreSet(members, sessions, o, next, m);
      PointersSame(linked, sessions, members', sessions, m);
    }
  }
}
