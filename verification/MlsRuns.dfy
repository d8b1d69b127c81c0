/**
 Any number of devices in one conversation, and a server that accepts one commit
 per epoch, whoever made it and whatever it holds. Devices merge what they
 staged only when it is the accepted commit, process accepted commits in order,
 and join from Welcomes of accepted epochs.
 */
module MlsRuns {
  import opened HistoryFormat
  import opened DeviceIdentity
  import opened MlsGroup

  type Id = nat

  datatype Member = Member(self: DeviceName, stored: Option<Group>)

  /** The accepted commits, the roster of every epoch, and the devices. */
  datatype World = World(log: seq<Commit>, rosters: seq<Roster>, devices: map<Id, Member>)

  datatype Event =
    | Accept(commit: Commit)
    | Stage(d: Id, adds: seq<MemberAdd>, removes: seq<Identity>, build: Build)
    | Refresh(d: Id, build: Build)
    | Clear(d: Id)
    | Merge(d: Id)
    | Process(d: Id, valid: bool)
    | Join(d: Id, welcome: Welcome)
    | Delete(d: Id)

  function Put(w: World, d: Id, stored: Option<Group>): World
    requires d in w.devices
  {
    w.(devices := w.devices[d := w.devices[d].(stored := stored)])
  }

  predicate Holds(w: World, d: Id) { d in w.devices && w.devices[d].stored.Some? }

  function At(w: World, d: Id): Group
    requires Holds(w, d)
  {
    w.devices[d].stored.value
  }

  /** What may happen next. */
  predicate Legal(w: World, e: Event) {
    |w.rosters| == |w.log| + 1 &&
    match e
    case Accept(_) => true
    case Stage(d, _, _, _) => Holds(w, d) && At(w, d).active
    case Refresh(d, _) => Holds(w, d) && At(w, d).active
    case Clear(d) => Holds(w, d)
    case Merge(d) =>
      && Holds(w, d) && At(w, d).pending.Some?
      && At(w, d).epoch < |w.log| && w.log[At(w, d).epoch] == At(w, d).pending.value
    case Process(d, _) => Holds(w, d) && At(w, d).epoch < |w.log|
    case Join(d, welcome) => d in w.devices && welcome.epoch <= |w.log| && welcome.roster == w.rosters[welcome.epoch]
    case Delete(d) => d in w.devices
  }

  function Next(w: World, e: Event): World
    requires Legal(w, e)
  {
    match e
    case Accept(c) => w.(log := w.log + [c], rosters := w.rosters + [Applied(w.rosters[|w.log|], c)])
    case Stage(d, adds, removes, build) =>
      var r := Staged(At(w, d), adds, removes, build);
      if r.Done? then Put(w, d, Some(At(w, d).(pending := Some(r.value)))) else w
    case Refresh(d, build) =>
      var r := SelfUpdate(At(w, d), build);
      if r.Done? then Put(w, d, Some(At(w, d).(pending := Some(r.value)))) else w
    case Clear(d) => Put(w, d, Some(At(w, d).(pending := None)))
    case Merge(d) => Put(w, d, Some(Merged(At(w, d), At(w, d).pending.value)))
    case Process(d, valid) =>
      var r := Processed(At(w, d), w.log[At(w, d).epoch], valid);
      if r.Done? then Put(w, d, Kept(r.value)) else w
    case Join(d, welcome) =>
      var r := Joined(w.devices[d].self, w.devices[d].stored, welcome);
      if r.Done? then Put(w, d, Some(r.value)) else w
    case Delete(d) => Put(w, d, None)
  }

  predicate Initial(w: World) {
    && w.log == []
    && |w.rosters| == 1
    && (exists creator | creator in w.devices :: Founder(w, creator))
  }

  /** One device created the group; no other holds it. */
  predicate Founder(w: World, creator: Id) {
    && creator in w.devices
    && w.rosters == [map[0 := Device(w.devices[creator].self)]]
    && w.devices[creator].stored == Some(Group(w.rosters[0], 0, 0, true, None))
    && (forall d | d in w.devices && d != creator :: w.devices[d].stored == None)
  }

  predicate LegalRun(w: World, es: seq<Event>)
    decreases |es|, 0
  {
    es == [] || (LegalRun(w, es[..|es| - 1]) && Legal(Exec(w, es[..|es| - 1]), es[|es| - 1]))
  }

  function Exec(w: World, es: seq<Event>): World
    requires LegalRun(w, es)
    decreases |es|, 1
  {
    if es == [] then w else Next(Exec(w, es[..|es| - 1]), es[|es| - 1])
  }

  // What the checks are worth

  /** Under inspection, updates and paths change nothing in the roster. */
  lemma {:induction false} UpdatesKeep(r: Roster, us: seq<Update>)
        requires forall i | 0 <= i < |us| :: KeepsIdentity(r, us[i].leaf, us[i].credential)
    ensures Updated(r, us) == r
  {
    if us != [] {
      UpdatesKeep(r, us[..|us| - 1]);
      assert KeepsIdentity(r, us[|us| - 1].leaf, us[|us| - 1].credential);
    }
  }

  lemma {:induction false} PlacingKeeps(r: Roster, added: seq<Credential>)
    requires Distinct(r) && Fresh(r.Values, added)
    ensures Distinct(Placed(r, added))
    ensures forall l | l in r :: l in Placed(r, added) && Placed(r, added)[l] == r[l]
    ensures forall l | l in Placed(r, added) && l !in r :: Placed(r, added)[l] in added
  {
    if added != [] {
      var front, c := added[..|added| - 1], added[|added| - 1];
      PlacingKeeps(r, front);
      var p := Placed(r, front);
      forall l | l in p ensures p[l] != c {
        if l in r {
          assert r[l] in r.Values;
        } else {
          var i :| 0 <= i < |front| && front[i] == p[l];
          assert added[i] == p[l];
        }
      }
    }
  }

  lemma PathKeeps(r: Roster, p: Roster, committer: Leaf, c: Commit)
    requires c.sender == Sender.Member(committer) && committer in r && committer in p && p[committer] == r[committer]
    requires (c.path.Some? ==> KeepsIdentity(r, committer, c.path.value))
    requires p == Placed(Updated(r, c.updates) - c.removes, c.adds)
    ensures Applied(r, c) == p
  {
  }

  /** Under inspection a commit only removes leaves and adds new ones. */
  lemma InspectedPlaces(r: Roster, committer: Leaf, c: Commit)
    requires Distinct(r) && c.sender == Sender.Member(committer) && WellBuilt(r, committer, c)
    requires Inspect(r, committer, c).Done?
    ensures Applied(r, c) == Placed(r - c.removes, c.adds)
  {
    UpdatesKeep(r, c.updates);
    var base := r - c.removes;
    assert committer in base && Distinct(base);
    assert Placed(base, c.adds)[committer] == r[committer] by {
      PlacingKeeps(base, c.adds);
    }
    PathKeeps(r, Placed(base, c.adds), committer, c);
  }

  /** A commit that passes inspection leaves a roster with distinct identities,
      and no leaf it keeps changes identity. */
  lemma InspectedApplies(r: Roster, committer: Leaf, c: Commit)
    requires Distinct(r) && c.sender == Sender.Member(committer) && WellBuilt(r, committer, c)
    requires Inspect(r, committer, c).Done?
    ensures Distinct(Applied(r, c))
    ensures forall l | l in r && l !in c.removes :: l in Applied(r, c) && Applied(r, c)[l] == r[l]
  {
    InspectedPlaces(r, committer, c);
    var base := r - c.removes;
    var p := Placed(base, c.adds);
    assert Distinct(p) && forall l | l in base :: l in p && p[l] == base[l] by {
      assert Distinct(base);
      PlacingKeeps(base, c.adds);
    }
  }

  lemma {:induction false} RemovesMembers(r: Roster, removes: seq<Identity>, n: nat)
    requires n <= |removes| && CheckRemoves(r, removes, n).Done?
    ensures CheckRemoves(r, removes, n).value <= r.Keys
  {
    if n > 0 {
      RemovesMembers(r, removes, n - 1);
    }
  }

  /** A commit fit to be taken at this roster by everyone. */
  predicate Fit(r: Roster, own: Leaf, c: Commit) {
    c.sender == Sender.Member(own) && WellBuilt(r, own, c) && Inspect(r, own, c).Done?
  }

  /** What the sender's checks accept, the receivers' inspection accepts. */
  lemma StagedIsFit(g: Group, adds: seq<MemberAdd>, removes: seq<Identity>, build: Build)
    requires Distinct(g.roster) && Staged(g, adds, removes, build).Done?
    ensures Fit(g.roster, g.own, Staged(g, adds, removes, build).value)
  {
    RemovesMembers(g.roster, removes, |removes|);
  }

  /** The immediate add, merged without asking anyone, keeps every roster that has
      distinct identities so, and every leaf in it as it is. */
  lemma AddedNowKeeps(g: Group, a: MemberAdd, build: Build)
    requires Distinct(g.roster) && AddedNow(g, a, build).Done?
    ensures Fit(g.roster, g.own, AddedNow(g, a, build).value)
    ensures var after := Merged(g, AddedNow(g, a, build).value).roster;
            Distinct(after) && forall l | l in g.roster :: l in after && after[l] == g.roster[l]
  {
    var c := AddedNow(g, a, build).value;
    assert g.roster - c.removes == g.roster;
    InspectedApplies(g.roster, g.own, c);
  }

  lemma RefreshIsFit(g: Group, build: Build)
    requires Distinct(g.roster) && SelfUpdate(g, build).Done?
    ensures Fit(g.roster, g.own, SelfUpdate(g, build).value)
  {
  }

  // Every run

  ghost predicate GroupOk(w: World, self: DeviceName, g: Group)
    requires |w.rosters| == |w.log| + 1
  {
    && g.epoch <= |w.log| && g.roster == w.rosters[g.epoch]
    && Distinct(g.roster)
    && g.active && g.own in g.roster && g.roster[g.own] == Device(self)
    && (g.pending.Some? ==> Fit(g.roster, g.own, g.pending.value))
  }

  /** Epoch i's commit leads to the next epoch's roster. */
  predicate Leads(w: World, i: nat)
    requires i < |w.log| && |w.rosters| == |w.log| + 1
  {
    w.rosters[i + 1] == Applied(w.rosters[i], w.log[i])
  }

  ghost predicate Inv(w: World) {
    && |w.rosters| == |w.log| + 1
    && (forall i | 0 <= i < |w.log| :: Leads(w, i))
    && (forall d | Holds(w, d) :: GroupOk(w, w.devices[d].self, At(w, d)))
  }

  lemma PutKeeps(w: World, d: Id, stored: Option<Group>)
    requires Inv(w) && d in w.devices && (stored.Some? ==> GroupOk(w, w.devices[d].self, stored.value))
    ensures Inv(Put(w, d, stored))
  {
    var v := Put(w, d, stored);
    forall i | 0 <= i < |v.log| ensures Leads(v, i) {
      assert Leads(w, i);
    }
    forall e | Holds(v, e) ensures GroupOk(v, v.devices[e].self, At(v, e)) {
      if e != d {
        assert Holds(w, e) && At(v, e) == At(w, e);
      }
    }
  }

  lemma MergedIsOk(w: World, self: DeviceName, g: Group, c: Commit, next: Roster)
    requires |w.rosters| == |w.log| + 1 && g.epoch < |w.log| && next == w.rosters[g.epoch + 1]
    requires g.active && g.own !in c.removes && Applied(g.roster, c) == next
    requires Distinct(next) && g.own in next && next[g.own] == Device(self)
    ensures GroupOk(w, self, Merged(g, c))
  {
  }

  lemma MergeKeeps(w: World, d: Id, c: Commit)
    requires Inv(w) && Holds(w, d) && At(w, d).epoch < |w.log| && w.log[At(w, d).epoch] == c
    requires c.sender.Member? && Fit(At(w, d).roster, c.sender.leaf, c)
    ensures Inv(Put(w, d, Kept(Merged(At(w, d), c))))
  {
    var g, self := At(w, d), w.devices[d].self;
    assert GroupOk(w, self, g) && Leads(w, g.epoch);
    var next := w.rosters[g.epoch + 1];
    if g.own !in c.removes {
      assert Distinct(next) && g.own in next && next[g.own] == g.roster[g.own] by {
        InspectedApplies(g.roster, c.sender.leaf, c);
      }
      MergedIsOk(w, self, g, c, next);
    }
    PutKeeps(w, d, Kept(Merged(g, c)));
  }

  lemma AcceptKeeps(w: World, c: Commit)
    requires Inv(w)
    ensures Inv(w.(log := w.log + [c], rosters := w.rosters + [Applied(w.rosters[|w.log|], c)]))
  {
    var v := w.(log := w.log + [c], rosters := w.rosters + [Applied(w.rosters[|w.log|], c)]);
    forall i | 0 <= i < |v.log| ensures Leads(v, i) {
      assert i < |w.log| ==> Leads(w, i);
    }
    forall d | Holds(v, d) ensures GroupOk(v, v.devices[d].self, At(v, d)) {
      assert Holds(w, d) && At(v, d) == At(w, d);
    }
  }

  lemma JoinKeeps(w: World, d: Id, welcome: Welcome)
    requires Inv(w) && d in w.devices && welcome.epoch <= |w.log| && welcome.roster == w.rosters[welcome.epoch]
    requires Joined(w.devices[d].self, w.devices[d].stored, welcome).Done?
    ensures Inv(Put(w, d, Some(Joined(w.devices[d].self, w.devices[d].stored, welcome).value)))
  {
    PutKeeps(w, d, Some(Joined(w.devices[d].self, w.devices[d].stored, welcome).value));
  }

  lemma StepKeeps(w: World, e: Event)
    requires Inv(w) && Legal(w, e)
    ensures Inv(Next(w, e))
  {
    match e
    case Accept(c) => AcceptKeeps(w, c);
    case Stage(d, adds, removes, build) =>
      var g := At(w, d);
      assert GroupOk(w, w.devices[d].self, g);
      var r := Staged(g, adds, removes, build);
      if r.Done? {
        StagedIsFit(g, adds, removes, build);
        PutKeeps(w, d, Some(g.(pending := Some(r.value))));
      }
    case Refresh(d, build) =>
      var g := At(w, d);
      assert GroupOk(w, w.devices[d].self, g);
      var r := SelfUpdate(g, build);
      if r.Done? {
        RefreshIsFit(g, build);
        PutKeeps(w, d, Some(g.(pending := Some(r.value))));
      }
    case Clear(d) =>
      PutKeeps(w, d, Some(At(w, d).(pending := None)));
    case Merge(d) =>
      MergeKeeps(w, d, At(w, d).pending.value);
    case Process(d, valid) =>
      var c := w.log[At(w, d).epoch];
      if Processed(At(w, d), c, valid).Done? {
        MergeKeeps(w, d, c);
      }
    case Join(d, welcome) =>
      if Joined(w.devices[d].self, w.devices[d].stored, welcome).Done? {
        JoinKeeps(w, d, welcome);
      }
    case Delete(d) =>
      PutKeeps(w, d, None);
  }

  lemma InitialHolds(w: World)
    requires Initial(w)
    ensures Inv(w)
  {
    var creator :| creator in w.devices && Founder(w, creator);
    forall d | Holds(w, d) ensures GroupOk(w, w.devices[d].self, At(w, d)) {
      assert d == creator;
    }
  }

  lemma {:induction false} RunKeeps(w: World, es: seq<Event>)
    requires Initial(w) && LegalRun(w, es)
    ensures Inv(Exec(w, es))
  {
    if es == [] {
      InitialHolds(w);
    } else {
      RunKeeps(w, es[..|es| - 1]);
      StepKeeps(Exec(w, es[..|es| - 1]), es[|es| - 1]);
    }
  }

  // What is promised

  ghost predicate Reachable(v: World) { exists w, es :: Initial(w) && LegalRun(w, es) && Exec(w, es) == v }

  lemma HeldIsOk(v: World, d: Id)
    requires Reachable(v) && Holds(v, d)
    ensures Inv(v) && GroupOk(v, v.devices[d].self, At(v, d))
  {
    var w, es :| Initial(w) && LegalRun(w, es) && Exec(w, es) == v;
    RunKeeps(w, es);
  }

  /** Devices at the same epoch hold the same roster, in every run. */
  lemma SameRosterAtTheSameEpoch(v: World, d: Id, e: Id)
    requires Reachable(v) && Holds(v, d) && Holds(v, e) && At(v, d).epoch == At(v, e).epoch
    ensures At(v, d).roster == At(v, e).roster
  {
    HeldIsOk(v, d);
    HeldIsOk(v, e);
  }

  /** Every stored group has well-formed identities, each at one leaf, and the
      device's own identity at its own leaf. */
  lemma IdentitiesAreDistinct(v: World, d: Id)
    requires Reachable(v) && Holds(v, d)
    ensures Distinct(At(v, d).roster)
    ensures At(v, d).own in At(v, d).roster && At(v, d).roster[At(v, d).own] == Device(v.devices[d].self)
  {
    HeldIsOk(v, d);
  }

  /** No leaf that stays changes identity between one epoch and the next. */
  lemma LeavesKeepTheirIdentity(v: World, e: Event, d: Id, l: Leaf)
    requires Reachable(v) && Legal(v, e) && (e.Merge? || e.Process?) && e.d == d && Holds(v, d) && Holds(Next(v, e), d)
    requires At(Next(v, e), d).epoch != At(v, d).epoch
    requires l in At(v, d).roster && l !in v.log[At(v, d).epoch].removes
    ensures l in At(Next(v, e), d).roster && At(Next(v, e), d).roster[l] == At(v, d).roster[l]
  {
    HeldIsOk(v, d);
    var c := v.log[At(v, d).epoch];
    InspectedApplies(At(v, d).roster, c.sender.leaf, c);
  }

  lemma OthersStay(v: World, e: Event, d: Id)
    requires Legal(v, e) && Holds(v, d) && (e.Accept? || e.d != d)
    ensures Holds(Next(v, e), d) && At(Next(v, e), d) == At(v, d)
  {
  }

  /** A device stays at its epoch unless it takes that epoch's accepted commit
      or leaves the group. */
  lemma OnlyAcceptedCommitsMoveAGroup(v: World, e: Event, d: Id)
    requires Reachable(v) && Legal(v, e) && Holds(v, d) && Holds(Next(v, e), d)
    requires At(Next(v, e), d).epoch != At(v, d).epoch
    ensures (e.Merge? || e.Process?) && e.d == d && At(Next(v, e), d).epoch == At(v, d).epoch + 1
  {
    assert At(v, d).active by {
      HeldIsOk(v, d);
    }
    if e.Accept? || e.d != d {
      OthersStay(v, e, d);
    }
  }

  /** A commit some device staged is taken by every device at its epoch that
      the library lets take it. */
  lemma StagedCommitIsTaken(v: World, sender: Id, receiver: Id)
    requires Reachable(v) && Holds(v, sender) && Holds(v, receiver)
    requires At(v, sender).pending.Some? && At(v, sender).epoch == At(v, receiver).epoch
    ensures var c := At(v, sender).pending.value;
      Processed(At(v, receiver), c, true) == Done(Merged(At(v, receiver), c))
  {
    HeldIsOk(v, sender);
    HeldIsOk(v, receiver);
  }

  /** No Welcome, whatever it holds, moves a group the device is active in. */
  lemma WelcomeNeverMovesAnActiveGroup(v: World, d: Id, welcome: Welcome)
    requires Reachable(v) && Holds(v, d)
    ensures Joined(v.devices[d].self, v.devices[d].stored, welcome).Failed?
  {
    HeldIsOk(v, d);
  }

  lemma {:induction false} PlacedSomewhere(r: Roster, added: seq<Credential>, x: Credential) returns (l: Leaf)
    requires x in added
    ensures l in Placed(r, added) && Placed(r, added)[l] == x
  {
    var front := Placed(r, added[..|added| - 1]);
    if added[|added| - 1] == x {
      l := Blank(front, 0);
    } else {
      l := PlacedSomewhere(r, added[..|added| - 1], x);
    }
  }

  /** Why a commit waits for the server: merging a staged commit when another
      one wins forks the group as soon as they add different devices. */
  lemma EarlyMergeForks(r: Roster, own1: Leaf, c1: Commit, own2: Leaf, c2: Commit, x: Credential)
    requires Distinct(r) && Fit(r, own1, c1) && Fit(r, own2, c2)
    requires x in c1.adds && x !in c2.adds && x !in r.Values
    ensures Applied(r, c1) != Applied(r, c2)
  {
    InspectedPlaces(r, own1, c1);
    InspectedPlaces(r, own2, c2);
    var l := PlacedSomewhere(r - c1.removes, c1.adds, x);
    var base := r - c2.removes;
    assert Distinct(base);
    PlacingKeeps(base, c2.adds);
    if l in base {
      assert base[l] in r.Values;
    }
  }
}
