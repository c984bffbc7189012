/** The activation status of a group, from the hub's node list and an unverified roster (node.rs, `analyze_group`). */
module GroupAnalysis {
  import opened Prelude
  import opened Rosters
  import opened Histories
  import opened RosterTheorems

  /** `info` is everything the hub reports about a node besides its number. */
  datatype HubNode = HubNode(number: Int32, info: Bytes)

  datatype NodeStatus = Registered | Activated | Revoked

  datatype NodeInfo = NodeInfo(number: Int32, info: Bytes, isSelf: bool, status: NodeStatus)

  datatype GroupState = Alone | Bootstrap | NeedActivation | CanEndorse | AllActivated

  function RevokedNumbers(r: Roster): set<Int32> {
    set n | n in r.nodes && n.revoked :: n.number
  }

  function HubNumbers(hub: seq<HubNode>): set<Int32> {
    set n | n in hub :: n.number
  }

  predicate ActiveListed(hub: seq<HubNode>, r: Roster) {
    exists n | n in ActiveNumbers(r) :: n in HubNumbers(hub)
  }

  function IsDead(hub: seq<HubNode>, r: Roster): bool {
    r.version > 0 && !ActiveListed(hub, r)
  }

  function StatusOf(hub: seq<HubNode>, r: Roster, number: Int32): NodeStatus {
    if IsDead(hub, r) then Registered
    else if number in ActiveNumbers(r) then Activated
    else if number in RevokedNumbers(r) then Revoked
    else Registered
  }

  function Infos(hub: seq<HubNode>, r: Roster, self: Int32): (infos: seq<NodeInfo>)
    ensures |infos| == |hub|
  {
    seq(|hub|, i requires 0 <= i < |hub| =>
      NodeInfo(hub[i].number, hub[i].info, hub[i].number == self, StatusOf(hub, r, hub[i].number)))
  }

  function NonRevoked(infos: seq<NodeInfo>): nat {
    if infos == [] then 0
    else NonRevoked(infos[..|infos| - 1]) + if infos[|infos| - 1].status == Revoked then 0 else 1
  }

  function Analyze(hub: seq<HubNode>, r: Roster, self: Int32): (seq<NodeInfo>, GroupState) {
    var infos := Infos(hub, r, self);
    var selfActivated := self in ActiveNumbers(r) && !IsDead(hub, r);
    var state :=
      if NonRevoked(infos) <= 1 then Alone
      else if ActiveNumbers(r) == {} || IsDead(hub, r) then Bootstrap
      else if !selfActivated then NeedActivation
      else if exists i | 0 <= i < |infos| :: infos[i].status == Registered then CanEndorse
      else AllActivated;
    (infos, state)
  }

  ghost predicate SomeListed(infos: seq<NodeInfo>, status: NodeStatus) {
    exists i | 0 <= i < |infos| :: infos[i].status == status
  }

  ghost predicate AllListed(infos: seq<NodeInfo>, status: NodeStatus) {
    forall i | 0 <= i < |infos| :: infos[i].status == status
  }

  lemma ListedActive(hub: seq<HubNode>, r: Roster, self: Int32)
    requires ActiveListed(hub, r)
    ensures exists i | 0 <= i < |hub| :: Infos(hub, r, self)[i].status == Activated && hub[i].number in ActiveNumbers(r)
  {
    var n :| n in ActiveNumbers(r) && n in HubNumbers(hub);
    var i :| 0 <= i < |hub| && hub[i].number == n;
    assert Infos(hub, r, self)[i].status == Activated;
  }

  lemma {:induction false} NonRevokedAll(infos: seq<NodeInfo>)
    ensures NonRevoked(infos) <= |infos|
    ensures NonRevoked(infos) == |infos| <==> forall i | 0 <= i < |infos| :: infos[i].status != Revoked
  {
    if infos != [] {
      NonRevokedAll(infos[..|infos| - 1]);
    }
  }

  /** Two entries that are not revoked, at different places. */
  ghost predicate HasCompany(infos: seq<NodeInfo>) {
    exists i, j | 0 <= i < j < |infos| :: infos[i].status != Revoked && infos[j].status != Revoked
  }

  lemma {:induction false} NonRevokedSome(infos: seq<NodeInfo>)
    ensures NonRevoked(infos) >= 1 <==> exists i | 0 <= i < |infos| :: infos[i].status != Revoked
  {
    if infos != [] {
      var n := |infos| - 1;
      NonRevokedSome(infos[..n]);
      if NonRevoked(infos[..n]) >= 1 {
        var i :| 0 <= i < n && infos[..n][i].status != Revoked;
        assert infos[i].status != Revoked;
      }
    }
  }

  lemma {:induction false} CompanyCounted(infos: seq<NodeInfo>)
    ensures HasCompany(infos) <==> NonRevoked(infos) >= 2
  {
    if infos != [] {
      var n := |infos| - 1;
      var front := infos[..n];
      CompanyCounted(front);
      NonRevokedSome(front);
      if NonRevoked(infos) >= 2 {
        if NonRevoked(front) >= 2 {
          var i, j :| 0 <= i < j < n && front[i].status != Revoked && front[j].status != Revoked;
          assert infos[i].status != Revoked && infos[j].status != Revoked;
        } else {
          var i :| 0 <= i < n && front[i].status != Revoked;
          assert infos[i].status != Revoked && infos[n].status != Revoked;
        }
      }
      if HasCompany(infos) {
        var i, j :| 0 <= i < j < |infos| && infos[i].status != Revoked && infos[j].status != Revoked;
        assert front[i].status != Revoked;
        if j < n { assert front[j].status != Revoked; }
      }
    }
  }

  /**
   What the reported state means: the list is kept in length and order, and each state is reported
   exactly when the listed statuses and our own membership say so.
   */
  ghost predicate Meaning(hub: seq<HubNode>, r: Roster, self: Int32) {
    var (infos, state) := Analyze(hub, r, self);
    && |infos| == |hub|
    && (forall i | 0 <= i < |hub| ::
          && infos[i].number == hub[i].number && infos[i].info == hub[i].info
          && (infos[i].isSelf <==> hub[i].number == self))
    && (state == Alone <==> !HasCompany(infos))
    && (state == Bootstrap <==> HasCompany(infos) && AllListed(infos, Registered))
    && (state == NeedActivation ==>
          exists i | 0 <= i < |infos| :: infos[i].status == Activated && !infos[i].isSelf)
    && (state == NeedActivation <==>
          HasCompany(infos) && SomeListed(infos, Activated) && self !in ActiveNumbers(r))
    && (state == CanEndorse <==>
          && HasCompany(infos) && SomeListed(infos, Activated) && self in ActiveNumbers(r)
          && SomeListed(infos, Registered))
    && (state == AllActivated <==>
          && HasCompany(infos) && self in ActiveNumbers(r)
          && forall i | 0 <= i < |infos| :: infos[i].status != Revoked ==> infos[i].status == Activated)
  }

  /** No entry revokes this number, or another one has it active. */
  predicate Unrevoked(r: Roster, number: Int32) {
    number in ActiveNumbers(r) || number !in RevokedNumbers(r)
  }

  /** Two listed nodes, at different places, that the roster does not revoke. */
  ghost predicate HubCompany(hub: seq<HubNode>, r: Roster) {
    exists i, j | 0 <= i < j < |hub| :: Unrevoked(r, hub[i].number) && Unrevoked(r, hub[j].number)
  }

  /** The roster has no active member and revokes no listed node. */
  predicate NobodyNamed(hub: seq<HubNode>, r: Roster) {
    ActiveNumbers(r) == {} && forall n | n in RevokedNumbers(r) :: n !in HubNumbers(hub)
  }

  lemma CompanyAtVersionZero(hub: seq<HubNode>, r: Roster, self: Int32)
    requires r.version <= 0
    ensures HasCompany(Infos(hub, r, self)) <==> HubCompany(hub, r)
  {
    var infos := Infos(hub, r, self);
    forall i | 0 <= i < |hub| ensures infos[i].status != Revoked <==> Unrevoked(r, hub[i].number) {
    }
    if HasCompany(infos) {
      var i, j :| 0 <= i < j < |infos| && infos[i].status != Revoked && infos[j].status != Revoked;
      assert Unrevoked(r, hub[i].number) && Unrevoked(r, hub[j].number);
    }
  }

  /**
   Exactly when the reported state has its meaning, for any hub list and any roster: always above
   version 0; at version 0 and below, where a roster is never taken for dead, if and only if there are
   no two nodes to speak of, or some active member is listed, or the roster is silent about the list.
   */
  lemma MeaningExactly(hub: seq<HubNode>, r: Roster, self: Int32)
    ensures Meaning(hub, r, self) <==>
            r.version > 0 || !HubCompany(hub, r) || ActiveListed(hub, r) || NobodyNamed(hub, r)
  {
    var infos := Infos(hub, r, self);
    CompanyCounted(infos);
    if r.version <= 0 {
      CompanyAtVersionZero(hub, r, self);
    }
    if !HasCompany(infos) {
      AloneMeans(hub, r, self);
    } else if ActiveListed(hub, r) {
      ListedActive(hub, r, self);
    } else {
      forall i | 0 <= i < |hub| ensures infos[i].status != Activated {
        assert hub[i] in hub && hub[i].number in HubNumbers(hub);
      }
      UnlistedMeans(hub, r, self);
    }
  }

  lemma AloneMeans(hub: seq<HubNode>, r: Roster, self: Int32)
    requires !HasCompany(Infos(hub, r, self))
    ensures Meaning(hub, r, self)
  {
    var infos := Infos(hub, r, self);
    CompanyCounted(infos);
  }

  lemma UnlistedMeans(hub: seq<HubNode>, r: Roster, self: Int32)
    requires HasCompany(Infos(hub, r, self)) && !ActiveListed(hub, r)
    requires forall i | 0 <= i < |hub| :: Infos(hub, r, self)[i].status != Activated
    ensures Meaning(hub, r, self) <==> r.version > 0 || NobodyNamed(hub, r)
  {
    var infos := Infos(hub, r, self);
    CompanyCounted(infos);
    var i, j :| 0 <= i < j < |infos| && infos[i].status != Revoked && infos[j].status != Revoked;
    assert infos[i].status == Registered;
    if r.version > 0 || NobodyNamed(hub, r) {
      forall k | 0 <= k < |hub| ensures infos[k].status == Registered {
        assert hub[k] in hub && hub[k].number in HubNumbers(hub);
      }
    } else if ActiveNumbers(r) == {} {
      var n :| n in RevokedNumbers(r) && n in HubNumbers(hub);
      var k :| 0 <= k < |hub| && hub[k].number == n;
      assert infos[k].status == Revoked;
    }
  }

  /** In particular for every roster that is empty at version 0, as a hub with nothing to tell sends it. */
  lemma StateMeans(hub: seq<HubNode>, r: Roster, self: Int32)
    requires r.version > 0 || r.nodes == []
    ensures Meaning(hub, r, self)
  {
    MeaningExactly(hub, r, self);
  }

  /** One side of that condition: `Bootstrap` reported of a group with a node shown as revoked. */
  lemma BootstrapWithRevokedAtVersionZero()
    ensures var r := Roster(0, [Node(3, [], true)], []);
            var hub := [HubNode(1, []), HubNode(2, []), HubNode(3, [])];
            var (infos, state) := Analyze(hub, r, 1);
            state == Bootstrap && infos[2].status == Revoked
  {
    var r := Roster(0, [Node(3, [], true)], []);
    var hub := [HubNode(1, []), HubNode(2, []), HubNode(3, [])];
    assert ActiveNumbers(r) == {};
    assert r.nodes[0] in r.nodes;
    assert RevokedNumbers(r) == {3};
    var infos := Infos(hub, r, 1);
    assert infos ==
           [NodeInfo(1, [], true, Registered), NodeInfo(2, [], false, Registered), NodeInfo(3, [], false, Revoked)];
    CompanyCounted(infos);
    assert infos[0].status != Revoked && infos[1].status != Revoked;
  }

  /** And the other: we are told to get activated by a group in which nobody is shown as activated. */
  lemma NeedActivationByNobodyAtVersionZero()
    ensures var r := Roster(0, [Node(3, [], false)], []);
            var hub := [HubNode(1, []), HubNode(2, [])];
            var (infos, state) := Analyze(hub, r, 1);
            state == NeedActivation && !SomeListed(infos, Activated)
  {
    var r := Roster(0, [Node(3, [], false)], []);
    var hub := [HubNode(1, []), HubNode(2, [])];
    assert r.nodes[0] in r.nodes;
    assert ActiveNumbers(r) == {3};
    var infos := Infos(hub, r, 1);
    assert infos == [NodeInfo(1, [], true, Registered), NodeInfo(2, [], false, Registered)];
    CompanyCounted(infos);
    assert infos[0].status != Revoked && infos[1].status != Revoked;
  }

  /** For a roster with a legal history and a listed active member, each status is the standing in that history. */
  lemma StatusOfMembers(s: Scheme, hub: seq<HubNode>, r: Roster, h: History, number: Int32)
    requires HistoryOf(s, r, h) && ActiveListed(hub, r)
    ensures StatusOf(hub, r, number) == Activated <==> number in GroupOf(h).active
    ensures StatusOf(hub, r, number) == Revoked <==> number in GroupOf(h).spkis && number !in GroupOf(h).active
    ensures StatusOf(hub, r, number) == Registered <==> number !in GroupOf(h).spkis
  {
    hide Legal, GroupOf, ActiveListed;
    LegalGroups(s, h);
    ActiveNumbersDenoted(GroupOf(h), h);
    LookupNodes(GroupOf(h), number);
    if number in GroupOf(h).spkis && number !in GroupOf(h).active {
      var n := Lookup(r.nodes, number).value;
      assert n in r.nodes && n.revoked && n.number == number;
    }
  }

  /** And of a roster none of whose active members is listed, all that is shown is that the nodes are registered. */
  lemma StatusOfStrangers(hub: seq<HubNode>, r: Roster, number: Int32)
    requires r.version > 0 && !ActiveListed(hub, r)
    ensures StatusOf(hub, r, number) == Registered
  {
  }
}
