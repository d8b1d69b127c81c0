/**
 What a membership change does to the members, in terms of the request alone:
 when staging accepts it, whom the commit adds and removes, who is in the group
 after the merge, when a remote commit is taken, and that the devices it adds can
 join.
 */
module MlsMembership {
  import opened HistoryFormat
  import opened DeviceIdentity
  import opened MlsGroup
  import opened MlsRuns

  // Requests

  predicate Is(x: Credential, i: Identity) { x.Device? && x.identity == i }

  /** The leaf belongs to a device that the request names. */
  predicate Named(r: Roster, l: Leaf, removes: seq<Identity>) { l in r && r[l].Device? && r[l].identity in removes }

  /** A device to add: a valid key package for the identity that was asked for. */
  predicate GoodAdd(a: MemberAdd) { Nameable(a.identity) && a.package == Some(Device(a.identity)) }

  /** Each removed device is in the group. */
  predicate Present(r: Roster, removes: seq<Identity>) {
    forall i | 0 <= i < |removes| :: Nameable(removes[i]) && exists l | l in r :: Is(r[l], removes[i])
  }

  /** No added device is in the group, unless it is removed too, and none is added twice. */
  predicate New(r: Roster, adds: seq<MemberAdd>, removes: seq<Identity>) {
    && (forall l, i | l in r && 0 <= i < |adds| && !Named(r, l, removes) :: !Is(r[l], adds[i].identity))
    && (forall i, j | 0 <= i < j < |adds| :: adds[i].identity != adds[j].identity)
  }

  // Reading the checks

  lemma {:induction false} AddsAre(adds: seq<MemberAdd>, n: nat)
    requires n <= |adds|
    ensures CheckAdds(adds, n).Done? <==> forall i | 0 <= i < n :: GoodAdd(adds[i])
    ensures CheckAdds(adds, n).Done? ==>
      var added := CheckAdds(adds, n).value; |added| == n && forall i | 0 <= i < n :: Is(added[i], adds[i].identity)
  {
    if n > 0 {
      AddsAre(adds, n - 1);
    }
  }

  lemma {:induction false} RemovesAre(r: Roster, removes: seq<Identity>, n: nat)
    requires n <= |removes|
    ensures CheckRemoves(r, removes, n).Done? <==> Present(r, removes[..n])
    ensures CheckRemoves(r, removes, n).Done? ==> forall l :: l in CheckRemoves(r, removes, n).value <==> Named(r, l, removes[..n])
  {
    if n > 0 {
      RemovesAre(r, removes, n - 1);
      var front, last := removes[..n - 1], removes[n - 1];
      assert removes[..n] == front + [last];
      LeavesAre(r, last);
    }
  }

  lemma LeavesAre(r: Roster, i: Identity)
    ensures LeavesOf(r, i).Done? <==> Nameable(i) && exists l | l in r :: Is(r[l], i)
    ensures LeavesOf(r, i).Done? ==> forall l :: l in LeavesOf(r, i).value <==> l in r && Is(r[l], i)
  {
    var leaves := set l | l in r && r[l].Device? && r[l].identity == i;
    if l :| l in r && Is(r[l], i) {
      assert l in leaves;
    }
    if leaves != {} {
      var l :| l in leaves;
      assert Is(r[l], i);
    }
  }

  lemma NewIsFresh(r: Roster, adds: seq<MemberAdd>, removes: seq<Identity>, added: seq<Credential>, removed: set<Leaf>)
    requires |added| == |adds| && forall i | 0 <= i < |adds| :: GoodAdd(adds[i]) && Is(added[i], adds[i].identity)
    requires forall l :: l in removed <==> Named(r, l, removes)
    ensures Fresh((r - removed).Values, added) <==> New(r, adds, removes)
  {
    var rest := r - removed;
    if New(r, adds, removes) {
      forall i, l | 0 <= i < |added| && l in rest ensures rest[l] != added[i] {
        assert l in r && !Named(r, l, removes);
      }
      forall i, j | 0 <= i < j < |added| ensures added[i] != added[j] {
        assert adds[i].identity != adds[j].identity;
      }
    }
    if Fresh(rest.Values, added) {
      forall l, i | l in r && 0 <= i < |adds| && !Named(r, l, removes) ensures !Is(r[l], adds[i].identity) {
        assert l in rest && rest[l] in rest.Values;
      }
      forall i, j | 0 <= i < j < |adds| ensures adds[i].identity != adds[j].identity {
        assert added[i] != added[j];
      }
    }
  }

  /** The request can be made of this group. */
  predicate Acceptable(g: Group, adds: seq<MemberAdd>, removes: seq<Identity>, build: Build) {
    && (adds != [] || removes != []) && g.pending.None? && build.Built? && g.own in g.roster && !Named(g.roster, g.own, removes)
    && (forall i | 0 <= i < |adds| :: GoodAdd(adds[i]))
    && Present(g.roster, removes) && New(g.roster, adds, removes)
  }

  /** The commit does what was asked: it removes every leaf of every named device
      and no other, adds the asked devices in order, and changes nothing else. */
  ghost predicate DoesAsAsked(g: Group, adds: seq<MemberAdd>, removes: seq<Identity>, c: Commit) {
    && c.sender == Sender.Member(g.own) && c.updates == [] && !c.other
    && (c.path.Some? ==> g.own in g.roster && c.path.value == g.roster[g.own])
    && (forall l :: l in c.removes <==> Named(g.roster, l, removes))
    && |c.adds| == |adds| && (forall i | 0 <= i < |adds| :: Is(c.adds[i], adds[i].identity))
  }

  /** Staging accepts exactly the acceptable requests, with the commit asked for. */
  lemma StagesExactly(g: Group, adds: seq<MemberAdd>, removes: seq<Identity>, build: Build)
    ensures Staged(g, adds, removes, build).Done? <==> Acceptable(g, adds, removes, build)
    ensures Staged(g, adds, removes, build).Done? ==> DoesAsAsked(g, adds, removes, Staged(g, adds, removes, build).value)
  {
    AddsAre(adds, |adds|);
    RemovesAre(g.roster, removes, |removes|);
    assert removes[..|removes|] == removes;
    var added, removed := CheckAdds(adds, |adds|), CheckRemoves(g.roster, removes, |removes|);
    if added.Done? && removed.Done? {
      NewIsFresh(g.roster, adds, removes, added.value, removed.value);
    }
  }

  // Members after the merge

  lemma {:induction false} PlacedMembers(r: Roster, added: seq<Credential>)
    ensures forall x :: x in Placed(r, added).Values <==> x in r.Values || x in added
    ensures forall l | l in r :: l in Placed(r, added) && Placed(r, added)[l] == r[l]
  {
    if added != [] {
      var front, last := added[..|added| - 1], added[|added| - 1];
      PlacedMembers(r, front);
      assert added == front + [last];
      OneMoreMember(Placed(r, front), Blank(Placed(r, front), 0), last);
    }
  }

  lemma OneMoreMember(p: Roster, l: Leaf, c: Credential)
    requires l !in p
    ensures forall x :: x in p[l := c].Values <==> x in p.Values || x == c
  {
    var q := p[l := c];
    forall x ensures x in q.Values <==> x in p.Values || x == c {
      if x in p.Values {
        var m :| m in p && p[m] == x;
        assert q[m] == x;
      }
      if x in q.Values {
        var m :| m in q && q[m] == x;
        assert m == l || p[m] == x;
      }
      assert q[l] == c;
    }
  }

  /** The credential is of a device the request names. */
  predicate Removed(x: Credential, removes: seq<Identity>) { x.Device? && x.identity in removes }

  predicate Added(x: Credential, adds: seq<MemberAdd>) { exists i | 0 <= i < |adds| :: Is(x, adds[i].identity) }

  /** After the merge the members are exactly those that were not removed and
      those that were added; who stays keeps the leaf, and the epoch moves by one. */
  lemma MembersAfter(g: Group, adds: seq<MemberAdd>, removes: seq<Identity>, c: Commit)
    requires DoesAsAsked(g, adds, removes, c) && g.own in g.roster && !Named(g.roster, g.own, removes)
    ensures var after := Merged(g, c);
      && after.epoch == g.epoch + 1 && after.active == g.active && after.pending.None?
      && (forall x :: x in after.roster.Values <==> (x in g.roster.Values && !Removed(x, removes)) || Added(x, adds))
      && (forall l | l in g.roster && !Named(g.roster, l, removes) :: l in after.roster && after.roster[l] == g.roster[l])
  {
    var rest := g.roster - c.removes;
    PlacedMembers(rest, c.adds);
    assert g.own in rest;
    assert Updated(g.roster, c.updates) == g.roster;
    assert Applied(g.roster, c) == Placed(rest, c.adds);
    forall x ensures x in rest.Values <==> x in g.roster.Values && !Removed(x, removes) {
      if x in rest.Values {
        var l :| l in rest && rest[l] == x;
        assert g.roster[l] == x && !Named(g.roster, l, removes);
      }
      if x in g.roster.Values && !Removed(x, removes) {
        var l :| l in g.roster && g.roster[l] == x;
        assert l in rest && rest[l] == x;
      }
    }
    forall x ensures x in c.adds <==> Added(x, adds) {
      if x in c.adds {
        var i :| 0 <= i < |c.adds| && c.adds[i] == x;
      }
      if i :| 0 <= i < |adds| && Is(x, adds[i].identity) {
        assert c.adds[i] == x;
      }
    }
  }

  // Remote commits and Welcomes

  /** A leaf that the commit touches keeps its device. */
  predicate SameDevice(r: Roster, l: Leaf, c: Credential) { l in r && c.Device? && r[l] == c }

  /** A commit of a member is taken exactly when it holds nothing but adds, removes
      and updates, each added device is one, is not among those that stay and is
      added once, and every refreshed leaf keeps its device; it is then merged. */
  lemma TakenExactly(g: Group, c: Commit, committer: Leaf)
    requires g.active && c.sender == Sender.Member(committer) && WellBuilt(g.roster, committer, c)
    ensures Processed(g, c, true) == (if Processed(g, c, true).Done? then Done(Merged(g, c)) else Processed(g, c, true))
    ensures Processed(g, c, true).Done? <==>
      && !c.other
      && (forall i | 0 <= i < |c.adds| :: c.adds[i].Device?)
      && (forall l, i | l in g.roster && l !in c.removes && 0 <= i < |c.adds| :: g.roster[l] != c.adds[i])
      && (forall i, j | 0 <= i < j < |c.adds| :: c.adds[i] != c.adds[j])
      && (forall i | 0 <= i < |c.updates| :: SameDevice(g.roster, c.updates[i].leaf, c.updates[i].credential))
      && (c.path.Some? ==> SameDevice(g.roster, committer, c.path.value))
  {
    NoneStays(g.roster, c);
    forall i | 0 <= i < |c.updates|
      ensures SameDevice(g.roster, c.updates[i].leaf, c.updates[i].credential)
              == KeepsIdentity(g.roster, c.updates[i].leaf, c.updates[i].credential)
    {
    }
  }

  lemma NoneStays(r: Roster, c: Commit)
    ensures (forall i | 0 <= i < |c.adds| :: c.adds[i] !in (r - c.removes).Values) <==>
            (forall l, i | l in r && l !in c.removes && 0 <= i < |c.adds| :: r[l] != c.adds[i])
  {
    var rest := r - c.removes;
    if forall i | 0 <= i < |c.adds| :: c.adds[i] !in rest.Values {
      forall l, i | l in r && l !in c.removes && 0 <= i < |c.adds| ensures r[l] != c.adds[i] {
        assert l in rest && rest[l] == r[l] && c.adds[i] !in rest.Values;
      }
    }
  }

  /** A Welcome is taken exactly when the device holds no active group, the Welcome
      opens, and its roster has distinct devices, with this one at its own leaf
      under its own key and the sender another member. */
  lemma JoinsExactly(self: DeviceName, stored: Option<Group>, w: Welcome)
    ensures Joined(self, stored, w).Done? <==>
      && (stored.Some? ==> !stored.value.active) && w.usable && w.valid && w.ours
      && Distinct(w.roster) && w.own in w.roster && w.roster[w.own] == Device(self) && w.ownKey
      && w.sender in w.roster && w.sender != w.own
    ensures Joined(self, stored, w).Done? ==> Joined(self, stored, w).value == Group(w.roster, w.epoch, w.own, true, None)
  {
  }

  /** A device that a staged commit adds can join the group it leads to: it has a
      leaf of its own there, and its Welcome is taken. */
  lemma AddedCanJoin(g: Group, adds: seq<MemberAdd>, removes: seq<Identity>, build: Build, i: nat) returns (l: Leaf)
    requires Distinct(g.roster) && Acceptable(g, adds, removes, build) && i < |adds|
    ensures Staged(g, adds, removes, build).Done?
    ensures var after := Merged(g, Staged(g, adds, removes, build).value);
      && l in after.roster && Is(after.roster[l], adds[i].identity)
      && Joined(adds[i].identity, None, Welcome(true, true, true, after.roster, after.epoch, l, g.own, true))
         == Done(Group(after.roster, after.epoch, l, true, None))
  {
    StagesExactly(g, adds, removes, build);
    var c := Staged(g, adds, removes, build).value;
    StagedIsFit(g, adds, removes, build);
    InspectedApplies(g.roster, g.own, c);
    MembersAfter(g, adds, removes, c);
    var after := Merged(g, c);
    var x: Credential := Device(adds[i].identity);
    assert Added(x, adds) && x in after.roster.Values;
    l :| l in after.roster && after.roster[l] == x;
    assert !Is(g.roster[g.own], adds[i].identity);
    JoinsExactly(adds[i].identity, None, Welcome(true, true, true, after.roster, after.epoch, l, g.own, true));
  }
}
