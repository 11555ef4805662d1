/**
 The roles under which changes are evaluated. Several signed records may cover one change; each that
 passes its provenance checks offers a role, and an owner's record wins. The roles are those that
 the admission plan reads, so an admitted change is one that some author was authorized to make.
 */
module CausalRoles {
  import opened Roles
  import opened Wrappers
  import opened WriteAuthorization
  import S = Succession
  import A = AdmissionPlan
  import C = CausalAdmission

  // ----- Offers -----

  /** What one verified record offers: a role for its hashes, each subject to a provenance verdict. */
  datatype Offer = Offer(role: Role, hashes: seq<string>, good: string -> bool, scope: Option<S.Scope>)

  predicate Offered(o: Offer, h: string) {
    h in o.hashes && o.good(h) && (o.role == Automation ==> o.scope.Some?)
  }

  predicate OfferedAs(o: Offer, h: string, role: Role) {
    Offered(o, h) && o.role == role
  }

  type RoleMap = map<string, Role>
  type ScopeMap = map<string, S.Scope>

  function Get<T>(m: map<string, T>, h: string): Option<T> {
    if h in m then Some(m[h]) else None
  }

  /** The offer is not from an automation bound to another scope. */
  predicate Takes(o: Offer, scopes: ScopeMap, h: string) {
    Offered(o, h) && (o.role == Automation && h in scopes ==> o.scope == Some(scopes[h]))
  }

  function RoleAfter(o: Offer, roles: RoleMap, scopes: ScopeMap, h: string): Option<Role> {
    if Takes(o, scopes, h) && Get(roles, h) != Some(Owner) then Some(o.role) else Get(roles, h)
  }

  function ScopeAfter(o: Offer, scopes: ScopeMap, h: string): Option<S.Scope> {
    if o.role == Automation && Takes(o, scopes, h) then o.scope else Get(scopes, h)
  }

  /** Walks the hashes of one offer; an owner's role is never replaced. */
  method Absorb(o: Offer, roles: RoleMap, scopes: ScopeMap) returns (roles': RoleMap, scopes': ScopeMap)
    ensures forall h :: Get(roles', h) == RoleAfter(o, roles, scopes, h)
    ensures forall h :: Get(scopes', h) == ScopeAfter(o, scopes, h)
  {
    roles', scopes' := roles, scopes;
    for i := 0 to |o.hashes|
      invariant forall h ::
                Get(roles', h) == if h in o.hashes[..i] then RoleAfter(o, roles, scopes, h) else Get(roles, h)
      invariant forall h :: Get(scopes', h) == if h in o.hashes[..i] then ScopeAfter(o, scopes, h) else Get(scopes, h)
    {
      var h := o.hashes[i];
      assert o.hashes[..i + 1] == o.hashes[..i] + [h] && h in o.hashes;
      roles', scopes' := AbsorbHash(o, roles, scopes, roles', scopes', h, h in o.hashes[..i]);
    }
    assert o.hashes[..|o.hashes|] == o.hashes;
  }

  method AbsorbHash(o: Offer, ghost roles: RoleMap, ghost scopes: ScopeMap, now: RoleMap, bound: ScopeMap, h: string,
                    ghost again: bool)
    returns (roles': RoleMap, scopes': ScopeMap)
    requires h in o.hashes
    requires Get(now, h) == (if again then RoleAfter(o, roles, scopes, h) else Get(roles, h))
    requires Get(bound, h) == (if again then ScopeAfter(o, scopes, h) else Get(scopes, h))
    ensures Get(roles', h) == RoleAfter(o, roles, scopes, h) && Get(scopes', h) == ScopeAfter(o, scopes, h)
    ensures forall x :: x != h ==> Get(roles', x) == Get(now, x) && Get(scopes', x) == Get(bound, x)
  {
    roles', scopes' := now, bound;
    if !o.good(h) {
      return;
    }
    if o.role == Automation {
      if o.scope.None? || (h in bound && bound[h] != o.scope.value) {
        return;
      }
      scopes' := bound[h := o.scope.value];
    }
    if !(h in now && now[h] == Owner) {
      roles' := now[h := o.role];
    }
  }

  // ----- What a list of offers decides -----

  /** The scope of the first automation offer for the change binds all later ones. */
  ghost predicate FirstScope(offers: seq<Offer>, h: string, scope: S.Scope) {
    exists i :: 0 <= i < |offers| && OfferedAs(offers[i], h, Automation) && offers[i].scope == Some(scope)
      && forall j :: 0 <= j < i ==> !OfferedAs(offers[j], h, Automation)
  }

  ghost predicate Counts(offers: seq<Offer>, o: Offer, h: string) {
    Offered(o, h) && (o.role == Automation ==> FirstScope(offers, h, o.scope.value))
  }

  ghost predicate OwnerOffered(offers: seq<Offer>, h: string) {
    exists o :: o in offers && OfferedAs(o, h, Owner)
  }

  ghost predicate SomeOffered(offers: seq<Offer>, h: string) {
    exists o :: o in offers && Offered(o, h)
  }

  /** The last offer that counts has this role. */
  ghost predicate LastCounts(offers: seq<Offer>, h: string, role: Role) {
    exists i :: 0 <= i < |offers| && Counts(offers, offers[i], h) && offers[i].role == role
      && forall j :: i < j < |offers| ==> !Counts(offers, offers[j], h)
  }

  /** An owner's offer wins; otherwise the last one that counts. */
  ghost predicate RoleDecided(offers: seq<Offer>, h: string, role: Option<Role>) {
    && (role.Some? <==> SomeOffered(offers, h))
    && (role == Some(Owner) <==> OwnerOffered(offers, h))
    && (role.Some? && role.value != Owner ==> LastCounts(offers, h, role.value))
  }

  ghost predicate ScopeDecided(offers: seq<Offer>, h: string, scope: Option<S.Scope>) {
    && (scope.Some? <==> exists o :: o in offers && OfferedAs(o, h, Automation))
    && (scope.Some? ==> FirstScope(offers, h, scope.value))
  }

  ghost predicate Decided(offers: seq<Offer>, roles: RoleMap, scopes: ScopeMap) {
    forall h :: RoleDecided(offers, h, Get(roles, h)) && ScopeDecided(offers, h, Get(scopes, h))
  }

  lemma FirstScopeStays(offers: seq<Offer>, o: Offer, h: string, scope: S.Scope)
    requires exists x :: x in offers && OfferedAs(x, h, Automation)
    ensures FirstScope(offers + [o], h, scope) <==> FirstScope(offers, h, scope)
  {
    var all := offers + [o];
    var x :| x in offers && OfferedAs(x, h, Automation);
    var k :| 0 <= k < |offers| && offers[k] == x;
    assert all[k] == x;
    if FirstScope(offers, h, scope) {
      var i :| 0 <= i < |offers| && OfferedAs(offers[i], h, Automation) && offers[i].scope == Some(scope)
        && forall j :: 0 <= j < i ==> !OfferedAs(offers[j], h, Automation);
      assert all[i] == offers[i] && forall j :: 0 <= j < i ==> all[j] == offers[j];
    }
    if FirstScope(all, h, scope) {
      var i :| 0 <= i < |all| && OfferedAs(all[i], h, Automation) && all[i].scope == Some(scope)
        && forall j :: 0 <= j < i ==> !OfferedAs(all[j], h, Automation);
      assert i <= k && all[i] == offers[i] && forall j :: 0 <= j < i ==> all[j] == offers[j];
    }
  }

  lemma FirstScopeOne(offers: seq<Offer>, h: string, s: S.Scope, t: S.Scope)
    requires FirstScope(offers, h, s) && FirstScope(offers, h, t)
    ensures s == t
  {
  }

  lemma FirstScopeStarts(offers: seq<Offer>, o: Offer, h: string)
    requires !(exists x :: x in offers && OfferedAs(x, h, Automation)) && OfferedAs(o, h, Automation)
    ensures FirstScope(offers + [o], h, o.scope.value)
  {
    var all := offers + [o];
    assert all[|offers|] == o;
    forall j | 0 <= j < |offers| ensures !OfferedAs(all[j], h, Automation) { assert all[j] in offers; }
  }

  lemma ScopeSnoc(offers: seq<Offer>, o: Offer, scopes: ScopeMap, h: string)
    requires ScopeDecided(offers, h, Get(scopes, h))
    ensures ScopeDecided(offers + [o], h, ScopeAfter(o, scopes, h))
    ensures Takes(o, scopes, h) <==> Counts(offers + [o], o, h)
  {
    var all := offers + [o];
    assert o in all && forall x :: x in all <==> x in offers || x == o;
    if h in scopes {
      FirstScopeStays(offers, o, h, scopes[h]);
      if o.role == Automation && Offered(o, h) {
        FirstScopeStays(offers, o, h, o.scope.value);
        if FirstScope(all, h, o.scope.value) { FirstScopeOne(offers, h, o.scope.value, scopes[h]); }
      }
    } else if OfferedAs(o, h, Automation) {
      FirstScopeStarts(offers, o, h);
    }
  }

  /** Earlier offers count after one more exactly if they counted before. */
  lemma CountsStay(offers: seq<Offer>, o: Offer, x: Offer, h: string)
    requires x in offers
    ensures Counts(offers + [o], x, h) <==> Counts(offers, x, h)
  {
    if Offered(x, h) && x.role == Automation { FirstScopeStays(offers, o, h, x.scope.value); }
  }

  lemma LastStays(offers: seq<Offer>, o: Offer, h: string, role: Role)
    requires LastCounts(offers, h, role) && !Counts(offers + [o], o, h)
    ensures LastCounts(offers + [o], h, role)
  {
    var all := offers + [o];
    var i :| 0 <= i < |offers| && Counts(offers, offers[i], h) && offers[i].role == role
      && forall j :: i < j < |offers| ==> !Counts(offers, offers[j], h);
    forall j | 0 <= j < |offers| ensures Counts(all, all[j], h) <==> Counts(offers, offers[j], h) {
      assert all[j] == offers[j];
      CountsStay(offers, o, offers[j], h);
    }
    assert all[i] == offers[i];
  }

  lemma LastIs(offers: seq<Offer>, o: Offer, h: string)
    requires Counts(offers + [o], o, h)
    ensures LastCounts(offers + [o], h, o.role)
  {
    assert (offers + [o])[|offers|] == o;
  }

  lemma RoleSnoc(offers: seq<Offer>, o: Offer, roles: RoleMap, scopes: ScopeMap, h: string)
    requires RoleDecided(offers, h, Get(roles, h)) && ScopeDecided(offers, h, Get(scopes, h))
    ensures RoleDecided(offers + [o], h, RoleAfter(o, roles, scopes, h))
  {
    var all := offers + [o];
    assert o in all && forall x :: x in all <==> x in offers || x == o;
    ScopeSnoc(offers, o, scopes, h);
    if Takes(o, scopes, h) {
      LastIs(offers, o, h);
    } else if h in roles && roles[h] != Owner {
      LastStays(offers, o, h, roles[h]);
    }
    if Offered(o, h) && !Takes(o, scopes, h) { assert exists x :: x in offers && OfferedAs(x, h, Automation); }
  }

  /** Which changes have a role, and which of them an owner's, does not depend on the order of the offers. */
  lemma OwnersOrderFree(offers: seq<Offer>, offers': seq<Offer>, roles: RoleMap, scopes: ScopeMap, roles': RoleMap,
                        scopes': ScopeMap)
    requires forall o :: o in offers <==> o in offers'
    requires Decided(offers, roles, scopes) && Decided(offers', roles', scopes')
    ensures roles.Keys == roles'.Keys && scopes.Keys == scopes'.Keys
    ensures forall h :: h in roles ==> (roles[h] == Owner <==> roles'[h] == Owner)
  {
    forall h
      ensures h in roles <==> h in roles'
      ensures h in scopes <==> h in scopes'
      ensures Get(roles, h) == Some(Owner) <==> Get(roles', h) == Some(Owner)
    {
      assert RoleDecided(offers, h, Get(roles, h)) && RoleDecided(offers', h, Get(roles', h));
      assert ScopeDecided(offers, h, Get(scopes, h)) && ScopeDecided(offers', h, Get(scopes', h));
    }
  }

  // ----- Records -----

  /** The context, the changes to cover, and the verdict on the provenance of one change under one record. */
  datatype Gathering = Gathering(checks: Checks, context: Context, needed: set<string>,
                                 vouched: (Proof, string, Role) -> bool)

  ghost predicate Covers(k: Gathering, p: Proof) {
    exists h :: h in p.hashes && h in k.needed
  }

  function Verdict(k: Gathering, p: Proof): Result<(Role, seq<string>), AuthError> {
    Admit(k.checks, k.context, p, k.needed, true)
  }

  const NOTHING := Offer(Visitor, [], (h: string) => false, None)

  /** A record that is not admitted, for instance because it covers no change, offers nothing. */
  function OfferOf(k: Gathering, p: Proof): Offer {
    if Verdict(k, p).Err? then NOTHING
    else
      var (role, hashes) := Verdict(k, p).value;
      Offer(role, hashes, (h: string) => k.vouched(p, h, role), if p.grant.Some?
            then p.grant.value.automation else None)
  }

  function OffersOf(k: Gathering, records: seq<Proof>): seq<Offer> {
    seq(|records|, i requires 0 <= i < |records| => OfferOf(k, records[i]))
  }

  lemma OffersSnoc(k: Gathering, records: seq<Proof>, i: nat)
    requires i < |records|
    ensures OffersOf(k, records[..i + 1]) == OffersOf(k, records[..i]) + [OfferOf(k, records[i])]
  {
  }

  lemma DecidedSnoc(offers: seq<Offer>, o: Offer, roles: RoleMap, scopes: ScopeMap, roles': RoleMap, scopes': ScopeMap)
    requires Decided(offers, roles, scopes)
    requires forall h :: Get(roles', h) == RoleAfter(o, roles, scopes, h)
    requires forall h :: Get(scopes', h) == ScopeAfter(o, scopes, h)
    ensures Decided(offers + [o], roles', scopes')
  {
    forall h ensures RoleDecided(offers + [o], h, Get(roles', h)) && ScopeDecided(offers + [o], h, Get(scopes', h)) {
      RoleSnoc(offers, o, roles, scopes, h);
      ScopeSnoc(offers, o, scopes, h);
    }
  }

  /**
   Fails if and only if a record that covers a change is not admitted; otherwise an owner's record wins for each
   change.
   */
  method GatherRoles(k: Gathering, records: seq<Proof>) returns (r: Result<(RoleMap, ScopeMap), AuthError>)
    ensures r.Ok? <==> forall p :: p in records && Covers(k, p) ==> Verdict(k, p).Ok?
    ensures r.Ok? ==> Decided(OffersOf(k, records), r.value.0, r.value.1)
  {
    var roles: RoleMap, scopes: ScopeMap := map[], map[];
    for i := 0 to |records|
      invariant forall p :: p in records[..i] && Covers(k, p) ==> Verdict(k, p).Ok?
      invariant Decided(OffersOf(k, records[..i]), roles, scopes)
    {
      var p := records[i];
      assert p in records && records[..i + 1] == records[..i] + [p];
      OffersSnoc(k, records, i);
      var covered := set h | h in p.hashes && h in k.needed;
      assert covered == {} <==> !Covers(k, p) by {
        if Covers(k, p) {
          var h :| h in p.hashes && h in k.needed;
          assert h in covered;
        }
      }
      if covered != {} && Verdict(k, p).Err? {
        return Err(Verdict(k, p).error);
      }
      var roles', scopes' := Absorb(OfferOf(k, p), roles, scopes);
      DecidedSnoc(OffersOf(k, records[..i]), OfferOf(k, p), roles, scopes, roles', scopes');
      roles, scopes := roles', scopes';
    }
    assert records[..|records|] == records;
    r := Ok((roles, scopes));
  }

  // ----- Authors -----

  /** One of the records is signed by somebody who may write the change in this role, with good provenance. */
  ghost predicate Authored(k: Gathering, records: seq<Proof>, h: string, role: Role) {
    exists p, epoch {:trigger MayWrite(k.checks, k.context, p, role, epoch, h)} ::
      && p in records && ProofAuthentic(k.checks, p) && h in p.hashes && h in k.needed && k.vouched(p, h, role)
      && MayWrite(k.checks, k.context, p, role, epoch, h)
  }

  lemma OfferAuthored(k: Gathering, records: seq<Proof>, p: Proof, h: string)
    requires p in records && Offered(OfferOf(k, p), h)
    ensures Authored(k, records, h, OfferOf(k, p).role)
  {
    WriterAuthorized(k.checks, k.context, p, k.needed, true, h);
    var (role, epoch) := RoleFor(k.checks, k.context, p.personId, p.grant).value;
    assert MayWrite(k.checks, k.context, p, role, epoch, h);
  }

  lemma OfferAt(k: Gathering, records: seq<Proof>, i: nat)
    requires i < |records|
    ensures OffersOf(k, records)[i] == OfferOf(k, records[i])
  {
  }

  lemma DecidingOffer(offers: seq<Offer>, h: string, role: Role) returns (i: nat)
    requires RoleDecided(offers, h, Some(role))
    ensures i < |offers| && OfferedAs(offers[i], h, role)
  {
    if role == Owner {
      var o :| o in offers && OfferedAs(o, h, Owner);
      i :| 0 <= i < |offers| && offers[i] == o;
    } else {
      assert LastCounts(offers, h, role);
      i :| 0 <= i < |offers| && Counts(offers, offers[i], h) && offers[i].role == role;
    }
  }

  /** Every gathered role is one that an author of a covering record holds. */
  lemma RolesAuthored(k: Gathering, records: seq<Proof>, roles: RoleMap, scopes: ScopeMap, h: string)
    requires Decided(OffersOf(k, records), roles, scopes) && h in roles
    ensures Authored(k, records, h, roles[h])
  {
    var offers := OffersOf(k, records);
    assert RoleDecided(offers, h, Get(roles, h));
    var i := DecidingOffer(offers, h, roles[h]);
    OfferAt(k, records, i);
    OfferAuthored(k, records, records[i], h);
  }

  /** The roles that the changes of the graph carry are the gathered ones. */
  ghost predicate Carries(g: C.Graph, roles: RoleMap) {
    forall h :: h in g ==> g[h].evidence.role == Get(roles, h)
  }

  /**
   From signed records to the plan: whatever is admitted beside the basis was written by an author who may write
   it in that role.
   */
  lemma AdmittedHasAuthor(k: Gathering, records: seq<Proof>, roles: RoleMap, scopes: ScopeMap, g: C.Graph,
                          basis: Option<C.Hash>,
                          conflicted: set<string>, conflict: (set<C.Hash>, string) -> bool, projected: set<C.Hash>,
                          plan: A.Plan, h: C.Hash)
    requires Decided(OffersOf(k, records), roles, scopes) && Carries(g, roles)
    requires A.PlanFor(g, basis, conflicted, conflict, projected, plan) && h in plan.document && basis != Some(h)
    ensures h in plan.statuses && plan.statuses[h].Admitted? && Authored(k, records, h, plan.statuses[h].role)
    ensures plan.statuses[h].role != Owner ==> !OwnerOffered(OffersOf(k, records), h)
  {
    A.PlanKeepsStatus(g, basis, conflicted, conflict, projected, plan, h);
    A.GraphRole(g, basis, h);
    assert C.Vetted(g[h], plan.statuses[h].role);
    assert h in roles && roles[h] == plan.statuses[h].role;
    assert RoleDecided(OffersOf(k, records), h, Get(roles, h));
    RolesAuthored(k, records, roles, scopes, h);
  }
}
