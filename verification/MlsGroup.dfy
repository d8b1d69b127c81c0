/**
 The wrapper around one MLS group on one device: rosters, staged commits, the
 inspection of remote commits and Welcomes, and the changes of the stored group.
 The MLS library is abstracted to a roster, an epoch and a pending commit; its
 rules for a valid commit and for placing leaves are those of sections 12.2 and
 12.3 of RFC 9420. Whatever else it may refuse is a parameter.
 */
module MlsGroup {
  import opened HistoryFormat
  import opened DeviceIdentity

  datatype Option<+T> = None | Some(value: T)

  datatype MlsError = InvalidIdentity | InvalidKeyPackage | InvalidState | InvalidMessage | UnexpectedMessage
                    | GroupOperation | Unavailable

  datatype Outcome<+T> = Done(value: T) | Failed(error: MlsError) {
    predicate IsFailure() { Failed? }
    function PropagateFailure<U>(): Outcome<U>
      requires Failed?
    {
      Failed(error)
    }
    function Extract(): T
      requires Done?
    {
      value
    }
  }

  /** A leaf's credential, by what it reads as: a device identity, when it is a
      Basic credential holding one, or anything else. */
  datatype Credential = Device(identity: DeviceName) | Strange(content: Bytes)

  function CredentialOf(basic: bool, content: Bytes): Credential {
    if basic && Decode(content).Ok? then
      IdentityExact(Decode(content).value, content);
      Device(Decode(content).value)
    else Strange(content)
  }

  /** Comparing identities is comparing the bytes that hold them. */
  lemma SameIdentitySameBytes(x: Bytes, y: Bytes)
    requires Decode(x).Ok? && Decode(y).Ok?
    ensures CredentialOf(true, x) == CredentialOf(true, y) <==> x == y
  {
    IdentityExact(Decode(x).value, x);
    IdentityExact(Decode(y).value, y);
  }

  /** A leaf is a device's exactly when it carries a Basic credential that is the
      encoding of that device's identity. */
  lemma DeviceExactly(basic: bool, content: Bytes, name: DeviceName)
    ensures CredentialOf(basic, content) == Device(name) <==> basic && Encode(name) == Ok(content)
  {
    IdentityExact(name, content);
  }

  type Leaf = nat
  type Roster = map<Leaf, Credential>

  datatype Sender = Member(leaf: Leaf) | External

  datatype Update = Update(leaf: Leaf, credential: Credential)

  /** A commit's proposals by kind, whether it holds any other kind, and the
      credential in its update path. */
  datatype Commit = Commit(sender: Sender, adds: seq<Credential>, removes: set<Leaf>, updates: seq<Update>, other: bool,
                           path: Option<Credential>)

  datatype Group = Group(roster: Roster, epoch: nat, own: Leaf, active: bool, pending: Option<Commit>)

  // What a commit changes

  function Updated(r: Roster, us: seq<Update>): Roster {
    if us == [] then r
    else
      var front, u := Updated(r, us[..|us| - 1]), us[|us| - 1];
      if u.leaf in front then front[u.leaf := u.credential] else front
  }

  function From(r: Roster, n: Leaf): set<Leaf> { set k | k in r.Keys && k >= n }

  /** The leftmost blank leaf from n on. */
  function Blank(r: Roster, n: Leaf): (leaf: Leaf)
    ensures leaf !in r
    decreases From(r, n)
  {
    if n in r then
      assert From(r, n + 1) <= From(r, n) && n in From(r, n) && n !in From(r, n + 1);
      Blank(r, n + 1)
    else n
  }

  function Placed(r: Roster, added: seq<Credential>): Roster {
    if added == [] then r
    else
      var front := Placed(r, added[..|added| - 1]);
      front[Blank(front, 0) := added[|added| - 1]]
  }

  /** The roster a commit produces: updates, then removals, then additions at
      the leftmost blank leaves, then the committer's path. */
  function Applied(r: Roster, c: Commit): Roster {
    var r1 := Placed(Updated(r, c.updates) - c.removes, c.adds);
    if c.path.Some? && c.sender.Member? && c.sender.leaf in r1 then r1[c.sender.leaf := c.path.value] else r1
  }

  /** The library's own rules for a member's commit. */
  predicate WellBuilt(r: Roster, committer: Leaf, c: Commit) {
    && committer in r && committer !in c.removes
    && c.removes <= r.Keys
    && forall i | 0 <= i < |c.updates| :: c.updates[i].leaf in r && c.updates[i].leaf != committer
  }

  // Identities

  /** Every leaf holds a device identity and no two leaves share one. */
  ghost predicate Distinct(r: Roster) {
    && (forall l | l in r :: r[l].Device?)
    && (forall l, m | l in r && m in r && l != m :: r[l] != r[m])
  }

  /** Each addition is a device identity, new to the roster, and named once. */
  predicate Fresh(remaining: set<Credential>, added: seq<Credential>) {
    && (forall i | 0 <= i < |added| :: added[i].Device? && added[i] !in remaining)
    && (forall i, j | 0 <= i < j < |added| :: added[i] != added[j])
  }

  method EnsureAddedIdentitiesUnique(remaining: set<Credential>, added: seq<Credential>) returns (ok: bool)
    ensures ok <==> Fresh(remaining, added)
  {
    for n := 0 to |added|
      invariant Fresh(remaining, added[..n])
    {
      if added[n].Strange? || added[n] in remaining {
        return false;
      }
      if added[n] in added[..n] {
        var j :| 0 <= j < n && added[..n][j] == added[n];
        assert added[j] == added[n];
        return false;
      }
      assert added[..n + 1] == added[..n] + [added[n]];
    }
    assert added[..|added|] == added;
    ok := true;
  }

  predicate KeepsIdentity(r: Roster, leaf: Leaf, c: Credential) {
    leaf in r && c.Device? && c == r[leaf]
  }

  /** The checks a remote commit must pass before it is merged. */
  function Inspect(r: Roster, committer: Leaf, c: Commit): Outcome<()> {
    if c.other then Failed(UnexpectedMessage)
    else if !Fresh((r - c.removes).Values, c.adds) then Failed(InvalidIdentity)
    else if exists i | 0 <= i < |c.updates| :: !KeepsIdentity(r, c.updates[i].leaf, c.updates[i].credential)
    then Failed(InvalidIdentity)
    else if c.path.Some? && !KeepsIdentity(r, committer, c.path.value) then Failed(InvalidIdentity)
    else Done(())
  }

  // Staging

  /** A device to add: its key package's credential, when the package is valid. */
  datatype MemberAdd = MemberAdd(package: Option<Credential>, identity: Identity)

  function CheckAdd(a: MemberAdd): Outcome<Credential> {
    if a.package.None? then Failed(InvalidKeyPackage)
    else if !Nameable(a.identity) then Failed(InvalidIdentity)
    else if a.package.value != Device(a.identity) then Failed(InvalidKeyPackage)
    else Done(Device(a.identity))
  }

  /** The first n adds, or the first error among them. */
  function CheckAdds(adds: seq<MemberAdd>, n: nat): Outcome<seq<Credential>>
    requires n <= |adds|
  {
    if n == 0 then Done([])
    else
      var front :- CheckAdds(adds, n - 1);
      var added :- CheckAdd(adds[n - 1]);
      Done(front + [added])
  }

  /** Every leaf with an identity: a removed device loses all of them. */
  function LeavesOf(r: Roster, i: Identity): Outcome<set<Leaf>> {
    var leaves := set l | l in r && r[l].Device? && r[l].identity == i;
    if !Nameable(i) || leaves == {} then Failed(InvalidIdentity) else Done(leaves)
  }

  function CheckRemoves(r: Roster, removes: seq<Identity>, n: nat): Outcome<set<Leaf>>
    requires n <= |removes|
  {
    if n == 0 then Done({})
    else
      var front :- CheckRemoves(r, removes, n - 1);
      var leaves :- LeavesOf(r, removes[n - 1]);
      Done(front + leaves)
  }

  /** What the library decides when it builds a commit: whether it can, and
      whether an update path goes in. */
  datatype Build = Refused | Built(path: bool)

  function Staged(g: Group, adds: seq<MemberAdd>, removes: seq<Identity>, build: Build): Outcome<Commit> {
    if adds == [] && removes == [] then Failed(InvalidState)
    else if g.pending.Some? then Failed(InvalidState)
    else
      var added :- CheckAdds(adds, |adds|);
      var removed :- CheckRemoves(g.roster, removes, |removes|);
      if !Fresh((g.roster - removed).Values, added) then Failed(InvalidIdentity)
      else if build.Refused? || g.own !in g.roster || g.own in removed then Failed(GroupOperation)
      else Done(Commit(Member(g.own), added, removed, [], false, if build.path then Some(g.roster[g.own]) else None))
  }

  /** A commit that only refreshes this device's leaf. */
  function SelfUpdate(g: Group, build: Build): Outcome<Commit> {
    if g.pending.Some? then Failed(InvalidState)
    else if build.Refused? || g.own !in g.roster || !build.path then Failed(GroupOperation)
    else Done(Commit(Member(g.own), [], {}, [], false, Some(g.roster[g.own])))
  }

  /** The immediate add: one device, checked as receivers will check it, in a
      commit that is merged at once. */
  function AddedNow(g: Group, a: MemberAdd, build: Build): Outcome<Commit> {
    var added :- CheckAdd(a);
    if !Fresh(g.roster.Values, [added]) then Failed(InvalidIdentity)
    else if g.pending.Some? || build.Refused? || g.own !in g.roster then Failed(GroupOperation)
    else Done(Commit(Member(g.own), [added], {}, [], false, if build.path then Some(g.roster[g.own]) else None))
  }

  // Moving on

  function Merged(g: Group, c: Commit): Group {
    Group(Applied(g.roster, c), g.epoch + 1, g.own, g.active && g.own !in c.removes, None)
  }

  /** Taking a commit another member made: the library checks it, it must come
      from a member, and it is inspected before it is merged. */
  function Processed(g: Group, c: Commit, valid: bool): Outcome<Group> {
    if !valid || !g.active || (c.sender.Member? && !WellBuilt(g.roster, c.sender.leaf, c)) then Failed(InvalidMessage)
    else if c.sender.External? then Failed(UnexpectedMessage)
    else
      var checked :- Inspect(g.roster, c.sender.leaf, c);
      Done(Merged(g, c))
  }

  /** A Welcome as the library opens it. */
  datatype Welcome = Welcome(ours: bool, usable: bool, valid: bool, roster: Roster, epoch: nat, own: Leaf, sender: Leaf,
                             ownKey: bool)

  /** The checks a Welcome must pass before its group is stored. */
  function InspectWelcome(self: DeviceName, w: Welcome): Outcome<()> {
    if exists l | l in w.roster :: w.roster[l].Strange? then Failed(InvalidIdentity)
    else if exists l, m | l in w.roster && m in w.roster && l != m :: w.roster[l] == w.roster[m]
    then Failed(InvalidIdentity)
    else if w.own !in w.roster || w.roster[w.own] != Device(self) || !w.ownKey then Failed(InvalidIdentity)
    else if w.sender == w.own || w.sender !in w.roster then Failed(InvalidIdentity)
    else Done(())
  }

  /** The group joined; a stored group that is still active is never replaced. */
  function Joined(self: DeviceName, stored: Option<Group>, w: Welcome): Outcome<Group> {
    if stored.Some? && stored.value.active then Failed(GroupOperation)
    else if !w.usable then Failed(Unavailable)
    else if !w.valid then Failed(GroupOperation)
    else if !w.ours then Failed(InvalidMessage)
    else
      var checked :- InspectWelcome(self, w);
      Done(Group(w.roster, w.epoch, w.own, true, None))
  }

  /** One device's store for one conversation. */
  class Store {
    const self: DeviceName
    var stored: Option<Group>

    constructor (self: DeviceName)
      ensures this.self == self && stored == None
    {
      this.self, stored := self, None;
    }

    method Create()
      modifies this
      ensures stored == Some(Group(map[0 := Credential.Device(self)], 0, 0, true, None))
    {
      stored := Some(Group(map[0 := Credential.Device(self)], 0, 0, true, None));
    }

    method CheckedAdds(adds: seq<MemberAdd>) returns (r: Outcome<seq<Credential>>)
      ensures r == CheckAdds(adds, |adds|)
    {
      var added: seq<Credential> := [];
      for n := 0 to |adds|
        invariant CheckAdds(adds, n) == Done(added)
      {
        var check := CheckAdd(adds[n]);
        if check.Failed? {
          AddFailureStays(adds, n + 1, |adds|);
          return Failed(check.error);
        }
        added := added + [check.value];
      }
      r := Done(added);
    }

    method CheckedRemoves(roster: Roster, removes: seq<Identity>) returns (r: Outcome<set<Leaf>>)
      ensures r == CheckRemoves(roster, removes, |removes|)
    {
      var removed: set<Leaf> := {};
      for n := 0 to |removes|
        invariant CheckRemoves(roster, removes, n) == Done(removed)
      {
        var leaves := LeavesOf(roster, removes[n]);
        if leaves.Failed? {
          RemoveFailureStays(roster, removes, n + 1, |removes|);
          return Failed(leaves.error);
        }
        removed := removed + leaves.value;
      }
      r := Done(removed);
    }

    method StageMembershipCommit(adds: seq<MemberAdd>, removes: seq<Identity>, build: Build) returns (r: Outcome<Commit>)
      requires stored.Some?
      modifies this
      ensures r == Staged(old(stored.value), adds, removes, build)
      ensures stored == if r.Done? then Some(old(stored.value).(pending := Some(r.value))) else old(stored)
    {
      var g := stored.value;
      if (adds == [] && removes == []) || g.pending.Some? {
        return Failed(InvalidState);
      }
      var added :- CheckedAdds(adds);
      var removed :- CheckedRemoves(g.roster, removes);
      var unique := EnsureAddedIdentitiesUnique((g.roster - removed).Values, added);
      if !unique {
        return Failed(InvalidIdentity);
      }
      if build.Refused? || g.own !in g.roster || g.own in removed {
        return Failed(GroupOperation);
      }
      var path := if build.path then Some(g.roster[g.own]) else None;
      var commit := Commit(Member(g.own), added, removed, [], false, path);
      stored := Some(g.(pending := Some(commit)));
      r := Done(commit);
    }

    method StageSelfUpdate(build: Build) returns (r: Outcome<Commit>)
      requires stored.Some?
      modifies this
      ensures r == SelfUpdate(old(stored.value), build)
      ensures stored == if r.Done? then Some(old(stored.value).(pending := Some(r.value))) else old(stored)
    {
      var g := stored.value;
      if g.pending.Some? {
        return Failed(InvalidState);
      }
      if build.Refused? || g.own !in g.roster || !build.path {
        return Failed(GroupOperation);
      }
      var commit := Commit(Member(g.own), [], {}, [], false, Some(g.roster[g.own]));
      stored := Some(g.(pending := Some(commit)));
      r := Done(commit);
    }

    method AddMember(a: MemberAdd, build: Build) returns (r: Outcome<Commit>)
      requires stored.Some?
      modifies this
      ensures r == AddedNow(old(stored.value), a, build)
      ensures stored == if r.Done? then Some(Merged(old(stored.value), r.value)) else old(stored)
    {
      var g := stored.value;
      var added :- CheckAdd(a);
      var unique := EnsureAddedIdentitiesUnique(g.roster.Values, [added]);
      if !unique {
        return Failed(InvalidIdentity);
      }
      if g.pending.Some? || build.Refused? || g.own !in g.roster {
        return Failed(GroupOperation);
      }
      var path := if build.path then Some(g.roster[g.own]) else None;
      var commit := Commit(Member(g.own), [added], {}, [], false, path);
      stored := Some(Merged(g, commit));
      r := Done(commit);
    }

    method ClearPendingCommit()
      requires stored.Some?
      modifies this
      ensures stored == Some(old(stored.value).(pending := None))
    {
      stored := Some(stored.value.(pending := None));
    }

    method MergePendingCommit() returns (r: Outcome<()>)
      requires stored.Some?
      modifies this
      ensures r.Done? <==> old(stored.value.pending.Some?)
      ensures stored == if r.Done? then Some(Merged(old(stored.value), old(stored.value.pending.value))) else old(stored)
    {
      if stored.value.pending.None? {
        return Failed(GroupOperation);
      }
      stored := Some(Merged(stored.value, stored.value.pending.value));
      r := Done(());
    }

    /** valid is whether the library accepts the message; a group this device
        was removed from goes at once. */
    method ProcessCommit(c: Commit, valid: bool) returns (r: Outcome<()>)
      requires stored.Some?
      modifies this
      ensures var p := Processed(old(stored.value), c, valid);
        if p.Done? then r == Done(()) && stored == Kept(p.value) else r == Failed(p.error) && stored == old(stored)
    {
      var g := stored.value;
      if !valid || !g.active || (c.sender.Member? && !WellBuilt(g.roster, c.sender.leaf, c)) {
        return Failed(InvalidMessage);
      }
      if c.sender.External? {
        return Failed(UnexpectedMessage);
      }
      var checked :- InspectedCommit(g.roster, c.sender.leaf, c);
      stored := Some(Merged(g, c));
      if g.own in c.removes {
        DeleteGroup();
      }
      r := Done(());
    }

    method InspectedCommit(roster: Roster, committer: Leaf, c: Commit) returns (r: Outcome<()>)
      ensures r == Inspect(roster, committer, c)
    {
      if c.other {
        return Failed(UnexpectedMessage);
      }
      var unique := EnsureAddedIdentitiesUnique((roster - c.removes).Values, c.adds);
      if !unique {
        return Failed(InvalidIdentity);
      }
      for n := 0 to |c.updates|
        invariant forall i | 0 <= i < n :: KeepsIdentity(roster, c.updates[i].leaf, c.updates[i].credential)
      {
        if !KeepsIdentity(roster, c.updates[n].leaf, c.updates[n].credential) {
          return Failed(InvalidIdentity);
        }
      }
      if c.path.Some? && !KeepsIdentity(roster, committer, c.path.value) {
        return Failed(InvalidIdentity);
      }
      r := Done(());
    }

    method JoinGroup(w: Welcome) returns (r: Outcome<()>)
      modifies this
      ensures var p := Joined(self, old(stored), w);
        if p.Done? then r == Done(()) && stored == Some(p.value) else r == Failed(p.error) && stored == old(stored)
    {
      if stored.Some? && stored.value.active {
        return Failed(GroupOperation);
      }
      if !w.usable {
        return Failed(Unavailable);
      }
      if !w.valid {
        return Failed(GroupOperation);
      }
      if !w.ours {
        return Failed(InvalidMessage);
      }
      var checked :- InspectedWelcome(w);
      stored := Some(Group(w.roster, w.epoch, w.own, true, None));
      r := Done(());
    }

    /** Members are looked at one by one, in any order. */
    method InspectedWelcome(w: Welcome) returns (r: Outcome<()>)
      ensures r == InspectWelcome(self, w)
    {
      var rest, seen := w.roster.Keys, {};
      while rest != {}
        invariant rest <= w.roster.Keys && seen == set l | l in w.roster && l !in rest :: w.roster[l]
        invariant forall l | l in w.roster && l !in rest :: w.roster[l].Device?
        invariant forall l, m | l in w.roster && m in w.roster && l !in rest && m !in rest && l != m :: w.roster[l] != w.roster[m]
      {
        var l :| l in rest;
        if w.roster[l].Strange? || w.roster[l] in seen {
          return Failed(InvalidIdentity);
        }
        seen, rest := seen + {w.roster[l]}, rest - {l};
      }
      if w.own !in w.roster || w.roster[w.own] != Device(self) || !w.ownKey || w.sender == w.own || w.sender !in w.roster {
        return Failed(InvalidIdentity);
      }
      r := Done(());
    }

    method DeleteGroup()
      modifies this
      ensures stored == None
    {
      stored := None;
    }
  }

  function Kept(g: Group): Option<Group> { if g.active then Some(g) else None }

  lemma {:induction false} AddFailureStays(adds: seq<MemberAdd>, n: nat, m: nat)
    requires n <= m <= |adds| && CheckAdds(adds, n).Failed?
    ensures CheckAdds(adds, m) == CheckAdds(adds, n)
  {
    if n < m {
      AddFailureStays(adds, n, m - 1);
    }
  }

  lemma {:induction false} RemoveFailureStays(r: Roster, removes: seq<Identity>, n: nat, m: nat)
    requires n <= m <= |removes| && CheckRemoves(r, removes, n).Failed?
    ensures CheckRemoves(r, removes, m) == CheckRemoves(r, removes, n)
  {
    if n < m {
      RemoveFailureStays(r, removes, n, m - 1);
    }
  }
}
