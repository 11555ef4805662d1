/**
 Succession of a workspace owner: a named successor takes over alone, otherwise a candidate needs
 votes from a majority of the editors that the owner's policy lists and that are not revoked.
 */
module Succession {
  import opened Roles
  import opened Wrappers
  import opened Ordering
  import opened Finite

  const MAX_SUCCESSION_EDITORS: nat := 32
  const MAX_HEADS: nat := 256
  const MAX_EPOCH: nat := 0xFFFF_FFFF_FFFF_FFFF

  datatype Authority = Authority(personId: string, publicKey: string, certificates: seq<string>)

  /** An automation scope: whether its own checks pass, and when it expires. */
  datatype Scope = Scope(wellFormed: bool, expiresAt: nat)

  datatype Grant = Grant(personId: string, role: Role, accessEpoch: Option<nat>, automation: Option<Scope>,
                         signature: string)

  datatype Policy = Policy(kind: string, version: nat, workspaceId: string, ownerId: string, successor: Option<string>,
                           eligible: seq<string>, epoch: nat, updatedAt: string, signature: string)

  datatype Vote = Vote(kind: string, version: nat, workspaceId: string, ownerId: string, voter: string,
                       candidate: string,
                       policySignature: string, votedAt: string, publicKey: string, certificates: seq<string>,
                       grant: Grant,
                       signature: string)

  datatype Claim = Claim(kind: string, version: nat, workspaceId: string, fromOwner: string, next: Authority,
                         candidateGrant: Grant, formerOwnerGrant: Grant, policy: Policy, votes: seq<Vote>,
                         heads: seq<string>, epoch: nat, claimedAt: string, signature: string)

  /** Keys, clocks, sizes and signatures are the environment's. */
  datatype Crypto = Crypto(
    keyId: string -> Option<string>,
    timely: string -> bool,
    policyFits: Policy -> bool,
    voteFits: Vote -> bool,
    claimFits: Claim -> bool,
    policySigned: (Policy, Authority) -> bool,
    voteSigned: (Vote, Authority) -> bool,
    claimSigned: (Claim, Authority) -> bool,
    grantRole: (Grant, string, string, Authority) -> Option<Role>)

  ghost predicate ValidHeads(heads: seq<string>) {
    0 < |heads| <= MAX_HEADS && forall h :: h in heads ==> h != ""
  }

  /** The owner's policy: editors in strictly increasing order, none of them the owner, and the named one among them. */
  ghost predicate ValidPolicy(env: Crypto, p: Policy, workspace: string, owner: Authority) {
    && env.policyFits(p)
    && p.kind == "workspace-succession-policy" && p.version == 1 && p.workspaceId == workspace
    && p.ownerId == owner.personId && p.epoch >= 1 && env.timely(p.updatedAt)
    && |p.eligible| <= MAX_SUCCESSION_EDITORS
    && (forall i, j :: 0 <= i < j < |p.eligible| ==> StrLess(p.eligible[i], p.eligible[j]))
    && (forall id :: id in p.eligible ==> id != "" && id != owner.personId)
    && (p.successor.Some? ==> p.successor.value in p.eligible)
    && env.policySigned(p, owner)
  }

  ghost predicate ValidVote(env: Crypto, v: Vote, p: Policy, candidate: string, owner: Authority, revoked: set<string>)
  {
    && env.voteFits(v)
    && v.kind == "workspace-succession-vote" && v.version == 1 && v.workspaceId == p.workspaceId
    && v.ownerId == owner.personId && v.policySignature == p.signature && v.candidate == candidate
    && v.voter in p.eligible && v.candidate in p.eligible && v.voter !in revoked
    && env.timely(v.votedAt) && v.publicKey != ""
    && env.keyId(v.publicKey) == Some(v.voter)
    && env.voteSigned(v, Authority(v.voter, v.publicKey, v.certificates))
    && env.grantRole(v.grant, v.workspaceId, v.voter, owner) == Some(Editor)
  }

  ghost function Active(eligible: seq<string>, revoked: set<string>): set<string> {
    set id | id in eligible && id !in revoked
  }

  ghost function Voters(votes: seq<Vote>): set<string> {
    set v | v in votes :: v.voter
  }

  ghost predicate OneVoteEach(votes: seq<Vote>) {
    forall i, j :: 0 <= i < j < |votes| ==> votes[i].voter != votes[j].voter
  }

  /**
   An active named successor has priority; without one, more than half of the active editors must vote for the
   candidate.
   */
  ghost predicate Elected(env: Crypto, c: Claim, owner: Authority, revoked: set<string>) {
    var named, candidate := c.policy.successor, c.next.personId;
    if named.Some? && named.value !in revoked then named.value == candidate
    else
      && candidate in c.policy.eligible
      && (forall v :: v in c.votes ==> ValidVote(env, v, c.policy, candidate, owner, revoked))
      && OneVoteEach(c.votes)
      && 2 * |Voters(c.votes)| > |Active(c.policy.eligible, revoked)|
  }

  ghost predicate ClaimWellFormed(env: Crypto, c: Claim, workspace: string, owner: Authority, epoch: nat,
                            revoked: set<string>)
  {
    && env.claimFits(c)
    && c.kind == "workspace-succession-claim" && c.version == 1 && c.workspaceId == workspace
    && c.fromOwner == owner.personId
    && c.next.personId != "" && c.next.personId != owner.personId && c.next.personId !in revoked
    && env.keyId(c.next.publicKey) == Some(c.next.personId) && c.next.certificates != []
    && ValidHeads(c.heads) && epoch < MAX_EPOCH && c.epoch == epoch + 1 && env.timely(c.claimedAt)
    && |c.votes| <= MAX_SUCCESSION_EDITORS
    && ValidPolicy(env, c.policy, workspace, owner) && c.policy.epoch == epoch
    && env.grantRole(c.candidateGrant, workspace, c.next.personId, owner) == Some(Editor)
    && env.claimSigned(c, c.next)
  }

  ghost predicate ValidClaim(env: Crypto, c: Claim, workspace: string, owner: Authority, epoch: nat,
                             revoked: set<string>)
  {
    && ClaimWellFormed(env, c, workspace, owner, epoch, revoked)
    && Elected(env, c, owner, revoked)
    && env.grantRole(c.formerOwnerGrant, workspace, owner.personId, c.next) == Some(Editor)
  }

  function CountActive(eligible: seq<string>, revoked: set<string>): nat {
    if eligible == [] then 0
    else CountActive(eligible[..|eligible| - 1], revoked) + if eligible[|eligible| - 1] in revoked then 0 else 1
  }

  lemma ActiveSnoc(init: seq<string>, last: string, revoked: set<string>)
    ensures Active(init + [last], revoked) == Active(init, revoked) + if last in revoked then {} else {last}
  {
  }

  lemma {:induction false} ActiveCount(eligible: seq<string>, revoked: set<string>)
    requires Distinct(eligible)
    ensures CountActive(eligible, revoked) == |Active(eligible, revoked)|
  {
    if eligible == [] {
      assert Active(eligible, revoked) == {};
    } else {
      var init, last := eligible[..|eligible| - 1], eligible[|eligible| - 1];
      assert eligible == init + [last] && last !in init;
      ActiveCount(init, revoked);
      ActiveSnoc(init, last, revoked);
    }
  }

  lemma PolicyDistinct(env: Crypto, p: Policy, workspace: string, owner: Authority)
    requires ValidPolicy(env, p, workspace, owner)
    ensures Distinct(p.eligible)
  {
    StrOrder();
  }

  /** A list is its own sorted copy without repetition exactly when it strictly increases. */
  lemma SortedAndUnique(ids: seq<string>)
    ensures Sort(StrLess, ids) == ids && |Elements(ids)| == |ids| <==> Sorted(StrLess, ids)
  {
    StrOrder();
    if |Elements(ids)| == |ids| {
      SizeDistinct(ids);
      SortSorted(StrLess, ids);
    }
    if Sorted(StrLess, ids) {
      SortedDistinct(StrLess, ids);
      DistinctSize(ids);
      SortSorted(StrLess, ids);
      SortElements(StrLess, ids);
      SortedUnique(StrLess, Sort(StrLess, ids), ids);
    }
  }

  lemma {:induction false} SizeDistinct<T(!new)>(q: seq<T>)
    requires |Elements(q)| == |q|
    ensures Distinct(q)
  {
    if q != [] {
      var init, last := q[..|q| - 1], q[|q| - 1];
      assert q == init + [last];
      assert Elements(q) == Elements(init) + {last};
      FewElements(init);
      SizeDistinct(init);
    }
  }

  lemma {:induction false} FewElements<T>(q: seq<T>)
    ensures |Elements(q)| <= |q|
  {
    if q == [] {
      assert Elements(q) == {};
    } else {
      var init, last := q[..|q| - 1], q[|q| - 1];
      FewElements(init);
      assert q == init + [last];
      assert Elements(q) == Elements(init) + {last};
    }
  }

  method CheckHeads(heads: seq<string>) returns (ok: bool)
    ensures ok <==> ValidHeads(heads)
  {
    ok := heads != [] && |heads| <= MAX_HEADS && "" !in heads;
  }

  method VerifyPolicy(env: Crypto, p: Policy, workspace: string, owner: Authority) returns (ok: bool)
    ensures ok <==> ValidPolicy(env, p, workspace, owner)
  {
    if !env.policyFits(p) {
      return false;
    }
    var sorted := Sort(StrLess, p.eligible);
    var unique := |set id | id in p.eligible| == |p.eligible|;
    SortedAndUnique(p.eligible);
    assert Elements(p.eligible) == set id | id in p.eligible;
    if p.kind != "workspace-succession-policy" || p.version != 1 || p.workspaceId != workspace
      || p.ownerId != owner.personId || p.epoch < 1 || !env.timely(p.updatedAt)
      || |p.eligible| > MAX_SUCCESSION_EDITORS || !unique || "" in p.eligible || owner.personId in p.eligible
      || sorted != p.eligible
      || (p.successor.Some? && p.successor.value !in p.eligible) {
      return false;
    }
    ok := env.policySigned(p, owner);
  }

  method VerifyVote(env: Crypto, v: Vote, p: Policy, candidate: string, owner: Authority, revoked: set<string>)
    returns (ok: bool)
    ensures ok <==> ValidVote(env, v, p, candidate, owner, revoked)
  {
    if !env.voteFits(v) || v.kind != "workspace-succession-vote" || v.version != 1 || v.workspaceId != p.workspaceId
      || v.ownerId != owner.personId || v.policySignature != p.signature || v.candidate != candidate
      || v.voter !in p.eligible || v.candidate !in p.eligible || v.voter in revoked
      || !env.timely(v.votedAt) || v.publicKey == "" {
      return false;
    }
    if env.keyId(v.publicKey) != Some(v.voter) {
      return false;
    }
    if !env.voteSigned(v, Authority(v.voter, v.publicKey, v.certificates)) {
      return false;
    }
    ok := env.grantRole(v.grant, v.workspaceId, v.voter, owner) == Some(Editor);
  }

  lemma VotersSnoc(votes: seq<Vote>, i: nat)
    requires i < |votes|
    ensures Voters(votes[..i + 1]) == Voters(votes[..i]) + {votes[i].voter}
    ensures OneVoteEach(votes[..i + 1]) <==> OneVoteEach(votes[..i]) && votes[i].voter !in Voters(votes[..i])
  {
    var before, now := votes[..i], votes[..i + 1];
    assert now == before + [votes[i]];
    if votes[i].voter in Voters(before) {
      var k :| 0 <= k < i && before[k].voter == votes[i].voter;
      assert now[k].voter == now[i].voter;
    } else {
      assert forall k :: 0 <= k < i ==> before[k] in before;
    }
  }

  /** Collects the voters of a claim; a duplicate, an invalid vote or too few voters fails it. */
  method CountVotes(env: Crypto, c: Claim, owner: Authority, revoked: set<string>) returns (ok: bool)
    requires Distinct(c.policy.eligible)
    ensures ok <==> && (forall v :: v in c.votes ==> ValidVote(env, v, c.policy, c.next.personId, owner, revoked))
                    && OneVoteEach(c.votes)
                    && 2 * |Voters(c.votes)| > |Active(c.policy.eligible, revoked)|
  {
    ActiveCount(c.policy.eligible, revoked);
    var active := CountActive(c.policy.eligible, revoked);
    var quorum := active / 2 + 1;
    var voters: set<string> := {};
    for i := 0 to |c.votes|
      invariant voters == Voters(c.votes[..i]) && OneVoteEach(c.votes[..i])
      invariant forall v :: v in c.votes[..i] ==> ValidVote(env, v, c.policy, c.next.personId, owner, revoked)
    {
      VotersSnoc(c.votes, i);
      assert c.votes[i] in c.votes;
      var valid := VerifyVote(env, c.votes[i], c.policy, c.next.personId, owner, revoked);
      if !valid {
        return false;
      }
      if c.votes[i].voter in voters {
        assert !OneVoteEach(c.votes[..i + 1]);
        return false;
      }
      voters := voters + {c.votes[i].voter};
    }
    assert c.votes[..|c.votes|] == c.votes;
    ok := |voters| >= quorum;
  }

  method VerifyClaim(env: Crypto, c: Claim, workspace: string, owner: Authority, epoch: nat, revoked: set<string>)
    returns (ok: bool)
    ensures ok <==> ValidClaim(env, c, workspace, owner, epoch, revoked)
  {
    var headsOk := CheckHeads(c.heads);
    if !env.claimFits(c) || c.kind != "workspace-succession-claim" || c.version != 1 || c.workspaceId != workspace
      || c.fromOwner != owner.personId || c.next.personId == "" || c.next.personId == owner.personId
      || c.next.personId in revoked || env.keyId(c.next.publicKey) != Some(c.next.personId)
      || c.next.certificates == [] || !headsOk || epoch >= MAX_EPOCH || c.epoch != epoch + 1
      || !env.timely(c.claimedAt) || |c.votes| > MAX_SUCCESSION_EDITORS {
      return false;
    }
    var policyOk := VerifyPolicy(env, c.policy, workspace, owner);
    if !policyOk || c.policy.epoch != epoch
      || env.grantRole(c.candidateGrant, workspace, c.next.personId, owner) != Some(Editor)
      || !env.claimSigned(c, c.next) {
      return false;
    }
    PolicyDistinct(env, c.policy, workspace, owner);
    var named := c.policy.successor;
    if named.None? || named.value in revoked {
      if c.next.personId !in c.policy.eligible {
        return false;
      }
      var counted := CountVotes(env, c, owner, revoked);
      if !counted {
        return false;
      }
    } else if named != Some(c.next.personId) {
      return false;
    }
    ok := env.grantRole(c.formerOwnerGrant, workspace, owner.personId, c.next) == Some(Editor);
  }

  /** Rival claims under one policy need a voter who voted for both, whom neither may count as revoked. */
  lemma RivalsShareVoter(env: Crypto, a: Claim, b: Claim, workspace: string, owner: Authority, epoch: nat,
                         revoked: set<string>)
    returns (i: nat, j: nat)
    requires ValidClaim(env, a, workspace, owner, epoch, revoked)
             && ValidClaim(env, b, workspace, owner, epoch, revoked)
    requires a.policy == b.policy && a.next.personId != b.next.personId
    ensures i < |a.votes| && j < |b.votes| && a.votes[i].voter == b.votes[j].voter
    ensures a.votes[i].voter in Active(a.policy.eligible, revoked)
    ensures a.votes[i].candidate == a.next.personId && b.votes[j].candidate == b.next.personId
  {
    var active := Active(a.policy.eligible, revoked);
    VotersActive(env, a, owner, revoked);
    VotersActive(env, b, owner, revoked);
    MajoritiesMeet(Voters(a.votes), Voters(b.votes), active);
    var voter :| voter in Voters(a.votes) * Voters(b.votes);
    i :| 0 <= i < |a.votes| && a.votes[i].voter == voter;
    j :| 0 <= j < |b.votes| && b.votes[j].voter == voter;
    assert a.votes[i] in a.votes && b.votes[j] in b.votes;
  }

  lemma VotersActive(env: Crypto, c: Claim, owner: Authority, revoked: set<string>)
    requires forall v :: v in c.votes ==> ValidVote(env, v, c.policy, c.next.personId, owner, revoked)
    ensures Voters(c.votes) <= Active(c.policy.eligible, revoked)
  {
  }
}
