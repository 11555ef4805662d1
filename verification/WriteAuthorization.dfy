/**
 Which changes a signed authorization may admit. A snapshot of authority records is checked and
 turned into boundaries: each revocation, departure and device removal keeps only the history below
 its heads. What a proof admits is closed under covered ancestors, and more removals admit less.
 */
module WriteAuthorization {
  import opened Roles
  import opened Wrappers
  import opened Succession
  import opened OwnershipChain

  const MAX_HASHES: nat := 256
  const MAX_TRANSITIONS: nat := 32
  const MAX_RECORDS: nat := 512

  datatype Revocation = Revocation(ownerId: string, personId: string, epoch: nat, heads: seq<string>, evidence: string)

  datatype Departure = Departure(personId: string, accessEpoch: nat, heads: seq<string>, authority: Authority,
                                 evidence: string)

  datatype DeviceRecord = DeviceRecord(workspaceId: string, personId: string, deviceId: string, heads: seq<string>,
                                       restores: Option<seq<string>>, signer: Authority, signature: string)

  /** An unreadable document has no graph. */
  datatype Snapshot = Snapshot(workspace: string, genesisOwner: Authority, genesisEpoch: nat, expectedOwner: Authority,
                               document: Option<DocumentGraph>, transfers: seq<Transfer>, claims: seq<Claim>,
                               revocations: seq<Revocation>, devices: seq<DeviceRecord>, departures: seq<Departure>)

  datatype Proof = Proof(kind: string, version: nat, workspaceId: string, hashes: seq<string>, personId: string,
                         deviceId: string, publicKey: string, certificates: seq<string>, grant: Option<Grant>,
                         signature: string)

  /** Verdicts on single signed records. */
  datatype Checks = Checks(
    env: Crypto,
    transferValid: (Transfer, Authority, nat) -> bool,
    revocationValid: (Revocation, Authority) -> bool,
    departureValid: Departure -> bool,
    deviceValid: (DeviceRecord, string) -> bool,
    proofSigned: Proof -> bool)

  datatype Boundary = Boundary(epoch: nat, hashes: set<string>)

  datatype Context = Context(workspace: string, ownership: Ownership, now: int, enforceExpiry: bool,
                             revocations: map<string, seq<Boundary>>, departures: map<string, seq<Boundary>>,
                             devices: map<(string, string), seq<set<string>>>)

  datatype AuthError = InvalidContext | InvalidAuthority | Broken(cause: ChainError) | UnexpectedOwner | InvalidRecord
                     | InvalidProof | NotCovered | NotAllowed

  // ----- Valid snapshots -----

  ghost predicate ValidAuthority(env: Crypto, a: Authority) {
    a.personId != "" && a.publicKey != "" && env.keyId(a.publicKey) == Some(a.personId)
  }

  method CheckAuthority(env: Crypto, a: Authority) returns (ok: bool)
    ensures ok <==> ValidAuthority(env, a)
  {
    if a.personId == "" || a.publicKey == "" {
      return false;
    }
    ok := env.keyId(a.publicKey) == Some(a.personId);
  }

  function Bag(s: Snapshot): seq<Transition> {
    seq(|s.transfers|, i requires 0 <= i < |s.transfers| => Transferred(s.transfers[i]))
    + seq(|s.claims|, i requires 0 <= i < |s.claims| => Claimed(s.claims[i]))
  }

  function ChainOf(checks: Checks, s: Snapshot): Chain
    requires s.document.Some?
  {
    Chain(checks.env, checks.transferValid, s.workspace, s.genesisOwner, s.genesisEpoch, true, s.document.value)
  }

  ghost function OwnershipOf(checks: Checks, s: Snapshot): Ownership
    requires s.document.Some?
  {
    Outcome(ChainOf(checks, s), ByEpoch(Bag(s)))
  }

  /** The first of the authorities with this person id. */
  ghost predicate FirstWith(authorities: seq<Authority>, person: string, i: nat) {
    && i < |authorities| && authorities[i].personId == person
    && forall j :: 0 <= j < i ==> authorities[j].personId != person
  }

  method FindAuthority(authorities: seq<Authority>, person: string) returns (r: Option<Authority>)
    ensures r.Some? <==> exists i: nat :: FirstWith(authorities, person, i)
    ensures forall i: nat :: FirstWith(authorities, person, i) ==> r == Some(authorities[i])
  {
    for i := 0 to |authorities|
      invariant forall j :: 0 <= j < i ==> authorities[j].personId != person
    {
      if authorities[i].personId == person {
        assert FirstWith(authorities, person, i);
        return Some(authorities[i]);
      }
    }
    r := None;
  }

  /** A former owner may only bound history that its own frontier covers. */
  ghost predicate ControlAllowed(o: Ownership, person: string, heads: seq<string>) {
    person == o.current.personId || (person in o.frontiers && forall h :: h in heads ==> h in o.frontiers[person])
  }

  method CheckControl(o: Ownership, person: string, heads: seq<string>) returns (ok: bool)
    ensures ok <==> ControlAllowed(o, person, heads)
  {
    if person == o.current.personId {
      return true;
    }
    if person !in o.frontiers {
      return false;
    }
    ok := (set h | h in heads) <= o.frontiers[person];
    assert forall h :: h in heads <==> h in (set x | x in heads);
  }

  ghost predicate ValidRevocation(checks: Checks, graph: DocumentGraph, o: Ownership, r: Revocation) {
    var owners := o.history + [o.current];
    && (exists i: nat :: FirstWith(owners, r.ownerId, i) && checks.revocationValid(r, owners[i]))
    && ControlAllowed(o, r.ownerId, r.heads) && Present(graph, r.heads)
  }

  ghost predicate ValidDeparture(checks: Checks, graph: DocumentGraph, d: Departure) {
    ValidAuthority(checks.env, d.authority) && checks.departureValid(d) && Present(graph, d.heads)
  }

  ghost predicate SignedByOwner(checks: Checks, o: Ownership, d: DeviceRecord) {
    exists a :: a in [o.current] + o.history && SignedAs(checks, o, d, a)
  }

  ghost predicate SignedAs(checks: Checks, o: Ownership, d: DeviceRecord, a: Authority) {
    && a.personId == d.signer.personId && a.publicKey == d.signer.publicKey
    && ControlAllowed(o, a.personId, d.heads) && checks.deviceValid(d, a.personId)
  }

  ghost predicate Authentic(checks: Checks, o: Ownership, d: DeviceRecord) {
    ValidAuthority(checks.env, d.signer) && (SignedByOwner(checks, o, d) || checks.deviceValid(d, o.current.personId))
  }

  method CheckDevice(checks: Checks, o: Ownership, d: DeviceRecord) returns (ok: bool)
    ensures ok <==> Authentic(checks, o, d)
  {
    var signerOk := CheckAuthority(checks.env, d.signer);
    if !signerOk {
      return false;
    }
    var owners := [o.current] + o.history;
    for i := 0 to |owners|
      invariant forall j :: 0 <= j < i ==> !SignedAs(checks, o, d, owners[j])
    {
      var a := owners[i];
      if a.personId == d.signer.personId && a.publicKey == d.signer.publicKey {
        var allowed := CheckControl(o, a.personId, d.heads);
        if allowed && checks.deviceValid(d, a.personId) {
          assert SignedAs(checks, o, d, a) && a in owners;
          return true;
        }
      }
    }
    ok := checks.deviceValid(d, o.current.personId);
  }

  /** The first of the records with this signature. */
  ghost predicate FirstSigned(devices: seq<DeviceRecord>, signature: string, i: nat) {
    && i < |devices| && devices[i].signature == signature
    && forall j :: 0 <= j < i ==> devices[j].signature != signature
  }

  /** The approval may undo this removal: it is of the same device, and by the owner or by the remover. */
  ghost predicate Undoes(owner: string, approval: DeviceRecord, removal: DeviceRecord) {
    && removal.restores.None?
    && removal.workspaceId == approval.workspaceId && removal.personId == approval.personId
    && removal.deviceId == approval.deviceId
    && (approval.signer.personId == owner || approval.signer.personId == removal.signer.personId)
  }

  /** A restoration names retained removals of the same device, and only the owner or the remover may restore. */
  ghost predicate MayRestore(devices: seq<DeviceRecord>, owner: string, approval: DeviceRecord, signature: string) {
    exists i: nat :: FirstSigned(devices, signature, i) && Undoes(owner, approval, devices[i])
  }

  method CheckRestore(devices: seq<DeviceRecord>, owner: string, approval: DeviceRecord, signature: string)
    returns (ok: bool)
    ensures ok <==> MayRestore(devices, owner, approval, signature)
  {
    for i := 0 to |devices|
      invariant forall j :: 0 <= j < i ==> devices[j].signature != signature
    {
      if devices[i].signature == signature {
        var removal := devices[i];
        assert FirstSigned(devices, signature, i);
        if removal.restores.Some? || removal.workspaceId != approval.workspaceId
          || removal.personId != approval.personId || removal.deviceId != approval.deviceId
          || (approval.signer.personId != owner && approval.signer.personId != removal.signer.personId) {
          assert !Undoes(owner, approval, removal);
          return false;
        }
        return true;
      }
    }
    ok := false;
  }

  ghost predicate RestorationsValid(devices: seq<DeviceRecord>, owner: string) {
    forall a, x :: a in devices && a.restores.Some? && x in a.restores.value ==> MayRestore(devices, owner, a, x)
  }

  ghost function RestoredBy(devices: seq<DeviceRecord>): set<string> {
    set a, x | a in devices && a.restores.Some? && x in a.restores.value :: x
  }

  ghost predicate Effective(devices: seq<DeviceRecord>, d: DeviceRecord) {
    d in devices && d.restores.None? && d.signature !in RestoredBy(devices)
  }

  ghost predicate ValidDevices(checks: Checks, graph: DocumentGraph, o: Ownership, devices: seq<DeviceRecord>) {
    && RestorationsValid(devices, o.current.personId)
    && (forall d :: d in devices ==> Authentic(checks, o, d))
    && (forall d :: Effective(devices, d) ==> Present(graph, d.heads))
  }

  ghost function Revoked(s: Snapshot): set<string> {
    set r | r in s.revocations :: r.personId
  }

  ghost predicate WithinLimits(s: Snapshot) {
    && s.workspace != "" && s.document.Some? && |s.transfers| <= MAX_TRANSITIONS && |s.claims| <= MAX_TRANSITIONS
    && |s.revocations| <= MAX_RECORDS && |s.departures| <= MAX_RECORDS && |s.devices| <= MAX_RECORDS
  }

  ghost predicate ExpectedOwner(s: Snapshot, current: Authority) {
    current.personId == s.expectedOwner.personId && current.publicKey == s.expectedOwner.publicKey
  }

  ghost predicate ValidSnapshot(checks: Checks, s: Snapshot) {
    && WithinLimits(s) && ValidAuthority(checks.env, s.genesisOwner) && ValidAuthority(checks.env, s.expectedOwner)
    && var chain, o, graph := ChainOf(checks, s), OwnershipOf(checks, s), s.document.value;
    && IsChain(chain, {}, ByEpoch(Bag(s))) && IsChain(chain, Revoked(s), ByEpoch(Bag(s)))
    && ExpectedOwner(s, o.current)
    && (forall r :: r in s.revocations ==> ValidRevocation(checks, graph, o, r))
    && ValidDevices(checks, graph, o, s.devices)
    && (forall d :: d in s.departures ==> ValidDeparture(checks, graph, d))
  }

  // ----- Boundaries -----

  ghost function Entries<K, B>(m: map<K, seq<B>>): set<(K, B)> {
    set k, b | k in m && b in m[k] :: (k, b)
  }

  function AddEntry<K(==), B>(m: map<K, seq<B>>, k: K, b: B): map<K, seq<B>> {
    m[k := (if k in m then m[k] else []) + [b]]
  }

  lemma EntriesGrow<K(!new), B(!new)>(m: map<K, seq<B>>, k: K, b: B)
    ensures Entries(AddEntry(m, k, b)) == Entries(m) + {(k, b)} && AddEntry(m, k, b).Keys == m.Keys + {k}
  {
    var more := AddEntry(m, k, b);
    assert b in more[k];
    forall x | x in Entries(m) ensures x in Entries(more) {
      assert x.0 in more && x.1 in more[x.0];
    }
    forall x | x in Entries(more) ensures x in Entries(m) + {(k, b)} {
      if x.0 != k { assert more[x.0] == m[x.0]; }
    }
  }

  ghost function RevocationEntry(graph: DocumentGraph, r: Revocation): (string, Boundary) {
    (r.personId, Boundary(r.epoch, Ancestors(graph, r.heads)))
  }

  ghost function DepartureEntry(graph: DocumentGraph, d: Departure): (string, Boundary) {
    (d.personId, Boundary(d.accessEpoch, Ancestors(graph, d.heads)))
  }

  ghost function DeviceEntry(graph: DocumentGraph, d: DeviceRecord): ((string, string), set<string>) {
    ((d.personId, d.deviceId), Ancestors(graph, d.heads))
  }

  ghost function RevocationEntries(graph: DocumentGraph, q: seq<Revocation>): set<(string, Boundary)> {
    set r | r in q :: RevocationEntry(graph, r)
  }

  ghost function DepartureEntries(graph: DocumentGraph, q: seq<Departure>): set<(string, Boundary)> {
    set d | d in q :: DepartureEntry(graph, d)
  }

  ghost function DeviceEntries(graph: DocumentGraph, devices: seq<DeviceRecord>,
                               part: seq<DeviceRecord>): set<((string, string), set<string>)>
  {
    set d | d in part && Effective(devices, d) :: DeviceEntry(graph, d)
  }

  /** The context holds the chain's outcome and exactly one boundary per effective record. */
  ghost predicate Reflects(checks: Checks, s: Snapshot, c: Context)
    requires s.document.Some?
  {
    var graph := s.document.value;
    && c.workspace == s.workspace && c.ownership == OwnershipOf(checks, s)
    && Entries(c.revocations) == RevocationEntries(graph, s.revocations)
    && Entries(c.departures) == DepartureEntries(graph, s.departures)
    && Entries(c.devices) == DeviceEntries(graph, s.devices, s.devices)
  }

  lemma Snoc<T>(q: seq<T>, i: nat)
    requires i < |q|
    ensures q[..i + 1] == q[..i] + [q[i]] && q[i] in q
  {
  }

  method CheckRevocation(checks: Checks, graph: DocumentGraph, o: Ownership, r: Revocation)
    returns (hashes: Option<set<string>>)
    ensures hashes.Some? <==> ValidRevocation(checks, graph, o, r)
    ensures hashes.Some? ==> hashes.value == Ancestors(graph, r.heads)
  {
    var authority := FindAuthority(o.history + [o.current], r.ownerId);
    if authority.None? {
      return None;
    }
    var allowed := CheckControl(o, authority.value.personId, r.heads);
    if !allowed || !checks.revocationValid(r, authority.value) {
      return None;
    }
    hashes := Ancestry(graph, r.heads);
  }

  /** `m` holds one boundary for each of the revocations. */
  ghost predicate Bounds(graph: DocumentGraph, q: seq<Revocation>, m: map<string, seq<Boundary>>) {
    Entries(m) == RevocationEntries(graph, q) && m.Keys == (set x | x in q :: x.personId)
  }

  lemma BoundsSnoc(graph: DocumentGraph, q: seq<Revocation>, i: nat, m: map<string, seq<Boundary>>)
    requires i < |q| && Bounds(graph, q[..i], m)
    ensures Bounds(graph, q[..i + 1],
                   AddEntry(m, q[i].personId, Boundary(q[i].epoch, Ancestors(graph, q[i].heads))))
  {
    Snoc(q, i);
    EntriesGrow(m, q[i].personId, Boundary(q[i].epoch, Ancestors(graph, q[i].heads)));
    assert RevocationEntries(graph, q[..i + 1]) == RevocationEntries(graph, q[..i]) + {RevocationEntry(graph, q[i])};
    assert (set x | x in q[..i + 1] :: x.personId) == (set x | x in q[..i] :: x.personId) + {q[i].personId};
  }

  method BuildRevocations(checks: Checks, graph: DocumentGraph, o: Ownership, q: seq<Revocation>)
    returns (r: Option<map<string, seq<Boundary>>>)
    ensures r.Some? <==> forall x :: x in q ==> ValidRevocation(checks, graph, o, x)
    ensures r.Some? ==>
            Entries(r.value) == RevocationEntries(graph, q) && r.value.Keys == (set x | x in q :: x.personId)
  {
    var m: map<string, seq<Boundary>> := map[];
    for i := 0 to |q|
      invariant forall x :: x in q[..i] ==> ValidRevocation(checks, graph, o, x)
      invariant Bounds(graph, q[..i], m)
    {
      Snoc(q, i);
      var hashes := CheckRevocation(checks, graph, o, q[i]);
      if hashes.None? {
        return None;
      }
      BoundsSnoc(graph, q, i, m);
      m := AddEntry(m, q[i].personId, Boundary(q[i].epoch, hashes.value));
    }
    assert q[..|q|] == q;
    r := Some(m);
  }

  method BuildDepartures(checks: Checks, graph: DocumentGraph, q: seq<Departure>)
    returns (r: Option<map<string, seq<Boundary>>>)
    ensures r.Some? <==> forall x :: x in q ==> ValidDeparture(checks, graph, x)
    ensures r.Some? ==> Entries(r.value) == DepartureEntries(graph, q)
  {
    var m: map<string, seq<Boundary>> := map[];
    for i := 0 to |q|
      invariant forall x :: x in q[..i] ==> ValidDeparture(checks, graph, x)
      invariant Entries(m) == DepartureEntries(graph, q[..i])
    {
      Snoc(q, i);
      var authorityOk := CheckAuthority(checks.env, q[i].authority);
      if !authorityOk || !checks.departureValid(q[i]) {
        return None;
      }
      var hashes := Ancestry(graph, q[i].heads);
      if hashes.None? {
        return None;
      }
      var b := Boundary(q[i].accessEpoch, hashes.value);
      EntriesGrow(m, q[i].personId, b);
      assert DepartureEntries(graph, q[..i + 1]) == DepartureEntries(graph, q[..i]) + {DepartureEntry(graph, q[i])};
      m := AddEntry(m, q[i].personId, b);
    }
    assert q[..|q|] == q;
    r := Some(m);
  }

  ghost predicate RestoredSoFar(devices: seq<DeviceRecord>, owner: string, part: seq<DeviceRecord>,
                                restored: set<string>)
  {
    && restored == RestoredBy(part)
    && forall a, x :: a in part && a.restores.Some? && x in a.restores.value ==> MayRestore(devices, owner, a, x)
  }

  /** The signatures that restorations name; each must be one its signer may restore. */
  method RestoredDevices(devices: seq<DeviceRecord>, owner: string) returns (r: Option<set<string>>)
    ensures r.Some? <==> RestorationsValid(devices, owner)
    ensures r.Some? ==> r.value == RestoredBy(devices)
  {
    var restored: set<string> := {};
    for i := 0 to |devices|
      invariant RestoredSoFar(devices, owner, devices[..i], restored)
    {
      Snoc(devices, i);
      var a := devices[i];
      if a.restores.Some? {
        var named := a.restores.value;
        for k := 0 to |named|
          invariant forall x :: x in named[..k] ==> MayRestore(devices, owner, a, x)
        {
          Snoc(named, k);
          var may := CheckRestore(devices, owner, a, named[k]);
          if !may {
            assert named[k] in a.restores.value;
            return None;
          }
        }
        assert named[..|named|] == named;
        restored := restored + set x | x in named;
      }
      assert forall d :: d in devices[..i + 1] <==> d in devices[..i] || d == a;
    }
    assert devices[..|devices|] == devices;
    r := Some(restored);
  }

  ghost predicate DevicesSoFar(checks: Checks, graph: DocumentGraph, o: Ownership, devices: seq<DeviceRecord>,
                               part: seq<DeviceRecord>, m: map<(string, string), seq<set<string>>>) {
    && Entries(m) == DeviceEntries(graph, devices, part)
    && (forall d :: d in part ==> Authentic(checks, o, d))
    && (forall d :: d in part && Effective(devices, d) ==> Present(graph, d.heads))
  }

  lemma DevicesSnoc(checks: Checks, graph: DocumentGraph, o: Ownership, devices: seq<DeviceRecord>, i: nat,
                    m: map<(string, string), seq<set<string>>>, more: map<(string, string), seq<set<string>>>)
    requires i < |devices| && DevicesSoFar(checks, graph, o, devices, devices[..i], m)
             && Authentic(checks, o, devices[i])
    requires !Effective(devices, devices[i]) ==> more == m
    requires Effective(devices, devices[i]) ==>
               Present(graph, devices[i].heads)
                 && more == AddEntry(m, (devices[i].personId, devices[i].deviceId), Ancestors(graph, devices[i].heads))
    ensures DevicesSoFar(checks, graph, o, devices, devices[..i + 1], more)
  {
    var d := devices[i];
    Snoc(devices, i);
    EntriesGrow(m, (d.personId, d.deviceId), Ancestors(graph, d.heads));
    assert forall x :: x in devices[..i + 1] <==> x in devices[..i] || x == d;
    assert DeviceEntries(graph, devices, devices[..i + 1]) ==
           DeviceEntries(graph, devices, devices[..i]) + if Effective(devices, d) then {DeviceEntry(graph, d)} else {};
  }

  method BuildDevices(checks: Checks, graph: DocumentGraph, o: Ownership, devices: seq<DeviceRecord>)
    returns (r: Option<map<(string, string), seq<set<string>>>>)
    ensures r.Some? <==> ValidDevices(checks, graph, o, devices)
    ensures r.Some? ==> Entries(r.value) == DeviceEntries(graph, devices, devices)
  {
    var restored := RestoredDevices(devices, o.current.personId);
    if restored.None? {
      return None;
    }
    var m: map<(string, string), seq<set<string>>> := map[];
    for i := 0 to |devices|
      invariant DevicesSoFar(checks, graph, o, devices, devices[..i], m)
    {
      var d := devices[i];
      assert d in devices;
      var authentic := CheckDevice(checks, o, d);
      if !authentic {
        return None;
      }
      ghost var before := m;
      if d.restores.None? && d.signature !in restored.value {
        assert Effective(devices, d);
        var hashes := Ancestry(graph, d.heads);
        if hashes.None? {
          return None;
        }
        m := AddEntry(m, (d.personId, d.deviceId), hashes.value);
      }
      DevicesSnoc(checks, graph, o, devices, i, before, m);
    }
    assert devices[..|devices|] == devices;
    r := Some(m);
  }

  /** Accepts exactly the valid snapshots. The owner is compared once, after the first pass over the chain. */
  method FromSnapshot(checks: Checks, s: Snapshot, now: int, enforceExpiry: bool)
    returns (r: Result<Context, AuthError>)
    ensures r.Ok? <==> ValidSnapshot(checks, s)
    ensures r.Ok? ==> Reflects(checks, s, r.value) && r.value.now == now && r.value.enforceExpiry == enforceExpiry
    ensures r.Ok? ==> ExpectedOwner(s, r.value.ownership.current)
  {
    if s.workspace == "" || s.document.None? || |s.transfers| > MAX_TRANSITIONS || |s.claims| > MAX_TRANSITIONS
      || |s.revocations| > MAX_RECORDS || |s.departures| > MAX_RECORDS || |s.devices| > MAX_RECORDS {
      return Err(InvalidContext);
    }
    var genesisOk := CheckAuthority(checks.env, s.genesisOwner);
    var expectedOk := CheckAuthority(checks.env, s.expectedOwner);
    if !genesisOk || !expectedOk {
      return Err(InvalidAuthority);
    }
    var chain, graph := ChainOf(checks, s), s.document.value;
    var first := VerifyChain(chain, {}, Bag(s));
    if first.Err? {
      return Err(Broken(first.error));
    }
    var current := first.value.current;
    if current.personId != s.expectedOwner.personId || current.publicKey != s.expectedOwner.publicKey {
      return Err(UnexpectedOwner);
    }
    var revocations := BuildRevocations(checks, graph, first.value, s.revocations);
    if revocations.None? {
      return Err(InvalidRecord);
    }
    var second := VerifyChain(chain, revocations.value.Keys, Bag(s));
    if second.Err? {
      return Err(Broken(second.error));
    }
    var devices := BuildDevices(checks, graph, second.value, s.devices);
    if devices.None? {
      return Err(InvalidRecord);
    }
    var departures := BuildDepartures(checks, graph, s.departures);
    if departures.None? {
      return Err(InvalidRecord);
    }
    r := Ok(Context(s.workspace, second.value, now, enforceExpiry, revocations.value, departures.value, devices.value));
  }

  // ----- Admission -----

  function Authorities(c: Context): seq<Authority> {
    [c.ownership.current] + c.ownership.history
  }

  function FindGrant(checks: Checks, c: Context, person: string, grant: Grant,
                     authorities: seq<Authority>): Option<Role>
  {
    if authorities == [] then None
    else
      var role := checks.env.grantRole(grant, c.workspace, person, authorities[0]);
      if role.Some? then role else FindGrant(checks, c, person, grant, authorities[1..])
  }

  function EffectiveEpoch(grant: Grant): nat {
    if grant.accessEpoch.Some? then grant.accessEpoch.value else 1
  }

  /** The role a person writes under, and the access epoch of its grant. */
  function RoleFor(checks: Checks, c: Context, person: string, grant: Option<Grant>): Option<(Role, Option<nat>)> {
    if person == c.ownership.current.personId then Some((Owner, None))
    else
      var verified := if grant.Some? then FindGrant(checks, c, person, grant.value, Authorities(c)) else None;
      match verified
      case Some(Editor) => Some((Editor, Some(EffectiveEpoch(grant.value))))
      case Some(Visitor) => Some((Visitor, Some(EffectiveEpoch(grant.value))))
      case Some(Automation) =>
        var scope := grant.value.automation;
        if checks.env.grantRole(grant.value, c.workspace, person, c.ownership.current) != Some(Automation) then None
        else if scope.None? || !scope.value.wellFormed then None
        else if c.enforceExpiry && scope.value.expiresAt <= c.now then None
        else Some((Automation, Some(EffectiveEpoch(grant.value))))
      case _ => if person in c.ownership.frontiers then Some((Owner, None)) else None
  }

  predicate BoundariesAllow(m: map<string, seq<Boundary>>, person: string, epoch: Option<nat>, hash: string) {
    person in m ==> forall b :: b in m[person] ==> (epoch.Some? && epoch.value > b.epoch) || hash in b.hashes
  }

  predicate DevicesAllow(m: map<(string, string), seq<set<string>>>, person: string, device: string, hash: string) {
    (person, device) in m ==> forall b :: b in m[(person, device)] ==> hash in b
  }

  predicate HashAllowed(c: Context, p: Proof, role: Role, epoch: Option<nat>, hash: string) {
    && BoundariesAllow(c.revocations, p.personId, epoch, hash) && BoundariesAllow(c.departures, p.personId, epoch, hash)
    && DevicesAllow(c.devices, p.personId, p.deviceId, hash)
    && (role == Owner && p.personId != c.ownership.current.personId ==>
          p.personId in c.ownership.frontiers && hash in c.ownership.frontiers[p.personId])
  }

  function Filter(hashes: seq<string>, keep: string -> bool): seq<string> {
    if hashes == [] then []
    else (if keep(hashes[0]) then [hashes[0]] else []) + Filter(hashes[1..], keep)
  }

  predicate ProofWellFormed(c: Context, p: Proof) {
    && p.kind == "workspace-changes" && p.version == 1 && p.workspaceId == c.workspace
    && 0 < |p.hashes| <= MAX_HASHES && (forall h :: h in p.hashes ==> h != "")
  }

  predicate ProofAuthentic(checks: Checks, p: Proof) {
    checks.env.keyId(p.publicKey) == Some(p.personId) && checks.proofSigned(p)
  }

  function Admit(checks: Checks, c: Context, p: Proof, needed: set<string>,
                 allowVisitor: bool): Result<(Role, seq<string>), AuthError>
  {
    if !ProofWellFormed(c, p) then Err(InvalidProof)
    else if !(exists h :: h in p.hashes && h in needed) then Err(NotCovered)
    else if !ProofAuthentic(checks, p) then Err(InvalidProof)
    else
      var role := RoleFor(checks, c, p.personId, p.grant);
      if role.None? || (role.value.0 == Visitor && !allowVisitor) then Err(NotAllowed)
      else Ok((role.value.0, Filter(p.hashes, h => h in needed && HashAllowed(c, p, role.value.0, role.value.1, h))))
  }

  lemma {:induction false} FilterExact(hashes: seq<string>, keep: string -> bool, h: string)
    ensures h in Filter(hashes, keep) <==> h in hashes && keep(h)
  {
    if hashes != [] {
      FilterExact(hashes[1..], keep, h);
      assert hashes == [hashes[0]] + hashes[1..];
    }
  }

  lemma Admitted(checks: Checks, c: Context, p: Proof, needed: set<string>, allowVisitor: bool, h: string)
    requires Admit(checks, c, p, needed, allowVisitor).Ok?
    ensures var role := RoleFor(checks, c, p.personId, p.grant).value;
            h in Admit(checks, c, p, needed, allowVisitor).value.1 <==>
              h in p.hashes && h in needed && HashAllowed(c, p, role.0, role.1, h)
  {
    var role := RoleFor(checks, c, p.personId, p.grant).value;
    FilterExact(p.hashes, h => h in needed && HashAllowed(c, p, role.0, role.1, h), h);
  }

  lemma {:induction false} FoundGrant(checks: Checks, c: Context, person: string, grant: Grant,
                                      authorities: seq<Authority>)
    ensures var role := FindGrant(checks, c, person, grant, authorities);
            role.Some? ==> exists a :: a in authorities && checks.env.grantRole(grant, c.workspace, person, a) == role
  {
    if authorities != [] {
      var role := checks.env.grantRole(grant, c.workspace, person, authorities[0]);
      assert authorities[0] in authorities;
      if role.None? {
        FoundGrant(checks, c, person, grant, authorities[1..]);
        assert forall a :: a in authorities[1..] ==> a in authorities;
      }
    }
  }

  /** The person owns the workspace, or owned it when `h` was already there, or holds an owner's grant for the role. */
  ghost predicate MayWrite(checks: Checks, c: Context, p: Proof, role: Role, epoch: Option<nat>, h: string) {
    var person, o := p.personId, c.ownership;
    match role
    case Owner => epoch.None? && (person == o.current.personId || (person in o.frontiers && h in o.frontiers[person]))
    case Automation =>
      && p.grant.Some? && epoch == Some(EffectiveEpoch(p.grant.value))
      && checks.env.grantRole(p.grant.value, c.workspace, person, o.current) == Some(Automation)
      && p.grant.value.automation.Some? && p.grant.value.automation.value.wellFormed
      && (c.enforceExpiry ==> p.grant.value.automation.value.expiresAt > c.now)
    case _ =>
      && p.grant.Some? && epoch == Some(EffectiveEpoch(p.grant.value))
      && exists a :: a in Authorities(c) && checks.env.grantRole(p.grant.value, c.workspace, person, a) == Some(role)
  }

  /** Whatever is admitted is signed by its author's device and written under a role the author really has. */
  lemma WriterAuthorized(checks: Checks, c: Context, p: Proof, needed: set<string>, allowVisitor: bool, h: string)
    requires Admit(checks, c, p, needed, allowVisitor).Ok? && h in Admit(checks, c, p, needed, allowVisitor).value.1
    ensures ProofAuthentic(checks, p) && p.workspaceId == c.workspace && h in p.hashes && h in needed
    ensures var (role, epoch) := RoleFor(checks, c, p.personId, p.grant).value;
            && Admit(checks, c, p, needed, allowVisitor).value.0 == role && (role == Visitor ==> allowVisitor)
            && MayWrite(checks, c, p, role, epoch, h)
  {
    Admitted(checks, c, p, needed, allowVisitor, h);
    if p.grant.Some? { FoundGrant(checks, c, p.personId, p.grant.value, Authorities(c)); }
  }

  // ----- Admission by the snapshot's own records -----

  /** The first owner, the current one before the earlier ones, under whom the grant verifies gives it this role. */
  ghost predicate GrantGives(checks: Checks, c: Context, p: Proof, role: Role) {
    var authorities := Authorities(c);
    && p.grant.Some?
    && exists i :: 0 <= i < |authorities|
                   && checks.env.grantRole(p.grant.value, c.workspace, p.personId, authorities[i]) == Some(role)
                   && forall j :: 0 <= j < i ==>
                        checks.env.grantRole(p.grant.value, c.workspace, p.personId, authorities[j]) == None
  }

  /** A transition of the snapshot ended this person's ownership. */
  ghost predicate Owned(s: Snapshot, person: string) {
    exists t :: t in Bag(s) && t.From() == person
  }

  /** The role the author writes under. */
  ghost predicate WritesAs(checks: Checks, s: Snapshot, c: Context, p: Proof, role: Role) {
    if p.personId == c.ownership.current.personId then role == Owner
    else match role
      case Owner => Owned(s, p.personId) && forall given :: GrantGives(checks, c, p, given) ==> given == Owner
      case Automation =>
        && GrantGives(checks, c, p, Automation)
        && checks.env.grantRole(p.grant.value, c.workspace, p.personId, c.ownership.current) == Some(Automation)
        && p.grant.value.automation.Some? && p.grant.value.automation.value.wellFormed
        && (c.enforceExpiry ==> c.now < p.grant.value.automation.value.expiresAt)
      case _ => GrantGives(checks, c, p, role)
  }

  /** The author writes under a grant of a later access epoch than the one that was ended. */
  ghost predicate GrantedAfter(p: Proof, role: Role, ended: nat) {
    role != Owner && p.grant.Some? && ended < match p.grant.value.accessEpoch { case Some(e) => e case None => 1 }
  }

  /** No record that ended this person's access, or removed this device, leaves `h` outside its heads. */
  ghost predicate NotCutOff(s: Snapshot, p: Proof, role: Role, h: string)
    requires s.document.Some?
  {
    var graph := s.document.value;
    && (forall r :: r in s.revocations && r.personId == p.personId ==>
          Reached(graph, r.heads, h) || GrantedAfter(p, role, r.epoch))
    && (forall d :: d in s.departures && d.personId == p.personId ==>
          Reached(graph, d.heads, h) || GrantedAfter(p, role, d.accessEpoch))
    && (forall d :: Effective(s.devices, d) && d.personId == p.personId && d.deviceId == p.deviceId ==>
          Reached(graph, d.heads, h))
  }

  /** The change lies below the heads of a transition that ended this person's ownership. */
  ghost predicate InOwnTerm(s: Snapshot, person: string, h: string)
    requires s.document.Some?
  {
    exists t :: t in Bag(s) && t.From() == person && Reached(s.document.value, t.Heads(), h)
  }

  lemma {:induction false} FirstGrant(checks: Checks, c: Context, p: Proof, authorities: seq<Authority>, role: Role)
    requires p.grant.Some?
    ensures FindGrant(checks, c, p.personId, p.grant.value, authorities) == Some(role) <==>
              exists i :: 0 <= i < |authorities|
                && checks.env.grantRole(p.grant.value, c.workspace, p.personId, authorities[i]) == Some(role)
                && forall j :: 0 <= j < i ==>
                     checks.env.grantRole(p.grant.value, c.workspace, p.personId, authorities[j]) == None
  {
    if authorities != [] {
      var rest := authorities[1..];
      FirstGrant(checks, c, p, rest, role);
      assert forall k :: 0 <= k < |rest| ==> authorities[k + 1] == rest[k];
      if checks.env.grantRole(p.grant.value, c.workspace, p.personId, authorities[0]) == None {
        if FindGrant(checks, c, p.personId, p.grant.value, rest) == Some(role) {
          var i :| 0 <= i < |rest|
                   && checks.env.grantRole(p.grant.value, c.workspace, p.personId, rest[i]) == Some(role)
                   && forall j :: 0 <= j < i ==>
                        checks.env.grantRole(p.grant.value, c.workspace, p.personId, rest[j]) == None;
          assert authorities[i + 1] == rest[i];
          assert forall j :: 0 < j < i + 1 ==> authorities[j] == rest[j - 1];
        }
      }
    }
  }

  lemma TermsAreTransitions(checks: Checks, s: Snapshot, i: nat)
    requires ValidSnapshot(checks, s) && i < |ByEpoch(Bag(s))|
    ensures var t := ByEpoch(Bag(s))[i];
            t in Bag(s) && t.From() == OwnerAt(ChainOf(checks, s), ByEpoch(Bag(s)), i).personId
            && Present(s.document.value, t.Heads())
  {
    SortMultiset(EpochLess, Bag(s));
    var order := ByEpoch(Bag(s));
    assert order[i] in multiset(order);
    assert Link(ChainOf(checks, s), {}, order, i);
  }

  lemma TransitionsAreTerms(s: Snapshot, t: Transition) returns (i: nat)
    requires t in Bag(s)
    ensures i < |ByEpoch(Bag(s))| && ByEpoch(Bag(s))[i] == t
  {
    SortMultiset(EpochLess, Bag(s));
    assert t in multiset(ByEpoch(Bag(s)));
    i :| i < |ByEpoch(Bag(s))| && ByEpoch(Bag(s))[i] == t;
  }

  lemma OwnedIsFormer(checks: Checks, s: Snapshot, person: string)
    requires ValidSnapshot(checks, s)
    ensures person in OwnershipOf(checks, s).frontiers <==> Owned(s, person)
  {
    var chain, order := ChainOf(checks, s), ByEpoch(Bag(s));
    if person in FormerOwners(chain, order) {
      var i :| 0 <= i < |order| && OwnerAt(chain, order, i).personId == person;
      TermsAreTransitions(checks, s, i);
    }
    if Owned(s, person) {
      var t :| t in Bag(s) && t.From() == person;
      var i := TransitionsAreTerms(s, t);
      TermsAreTransitions(checks, s, i);
    }
  }

  lemma FrontierIsOwnTerm(checks: Checks, s: Snapshot, person: string, h: string)
    requires ValidSnapshot(checks, s)
    ensures h in OwnFrontier(ChainOf(checks, s), ByEpoch(Bag(s)), person) <==> InOwnTerm(s, person, h)
  {
    var chain, order := ChainOf(checks, s), ByEpoch(Bag(s));
    if h in OwnFrontier(chain, order, person) {
      var i :| 0 <= i < |order| && OwnerAt(chain, order, i).personId == person && h in Frontier(chain, order[i]);
      TermsAreTransitions(checks, s, i);
    }
    if InOwnTerm(s, person, h) {
      var t :| t in Bag(s) && t.From() == person && Reached(s.document.value, t.Heads(), h);
      var i := TransitionsAreTerms(s, t);
      TermsAreTransitions(checks, s, i);
      assert h in Frontier(chain, order[i]);
    }
  }

  lemma WritesAsExact(checks: Checks, s: Snapshot, c: Context, p: Proof, role: Role)
    requires ValidSnapshot(checks, s) && Reflects(checks, s, c)
    ensures var r := RoleFor(checks, c, p.personId, p.grant);
            (r.Some? && r.value.0 == role) <==> WritesAs(checks, s, c, p, role)
  {
    OwnedIsFormer(checks, s, p.personId);
    if p.grant.Some? {
      forall given ensures GrantGives(checks, c, p, given) <==>
                             FindGrant(checks, c, p.personId, p.grant.value, Authorities(c)) == Some(given) {
        FirstGrant(checks, c, p, Authorities(c), given);
      }
    }
  }

  lemma RevocationsExact(checks: Checks, s: Snapshot, c: Context, person: string, epoch: Option<nat>, h: string)
    requires ValidSnapshot(checks, s) && Reflects(checks, s, c)
    ensures BoundariesAllow(c.revocations, person, epoch, h) <==>
              forall r :: r in s.revocations && r.personId == person ==>
                Reached(s.document.value, r.heads, h) || (epoch.Some? && r.epoch < epoch.value)
  {
    var graph := s.document.value;
    forall r | r in s.revocations && r.personId == person
      ensures RevocationEntry(graph, r) in Entries(c.revocations)
      ensures Reached(graph, r.heads, h) <==> h in Ancestors(graph, r.heads)
    {
      assert ValidRevocation(checks, graph, OwnershipOf(checks, s), r);
    }
    if person in c.revocations {
      forall b | b in c.revocations[person]
        ensures exists r :: r in s.revocations && RevocationEntry(graph, r) == (person, b)
      {
        assert (person, b) in Entries(c.revocations);
      }
    }
  }

  lemma DeparturesExact(checks: Checks, s: Snapshot, c: Context, person: string, epoch: Option<nat>, h: string)
    requires ValidSnapshot(checks, s) && Reflects(checks, s, c)
    ensures BoundariesAllow(c.departures, person, epoch, h) <==>
              forall d :: d in s.departures && d.personId == person ==>
                Reached(s.document.value, d.heads, h) || (epoch.Some? && d.accessEpoch < epoch.value)
  {
    var graph := s.document.value;
    forall d | d in s.departures && d.personId == person
      ensures DepartureEntry(graph, d) in Entries(c.departures)
      ensures Reached(graph, d.heads, h) <==> h in Ancestors(graph, d.heads)
    {
      assert ValidDeparture(checks, graph, d);
    }
    if person in c.departures {
      forall b | b in c.departures[person]
        ensures exists d :: d in s.departures && DepartureEntry(graph, d) == (person, b)
      {
        assert (person, b) in Entries(c.departures);
      }
    }
  }

  lemma DevicesExact(checks: Checks, s: Snapshot, c: Context, person: string, device: string, h: string)
    requires ValidSnapshot(checks, s) && Reflects(checks, s, c)
    ensures DevicesAllow(c.devices, person, device, h) <==>
              forall d :: Effective(s.devices, d) && d.personId == person && d.deviceId == device ==>
                Reached(s.document.value, d.heads, h)
  {
    var graph := s.document.value;
    forall d | Effective(s.devices, d) && d.personId == person && d.deviceId == device
      ensures DeviceEntry(graph, d) in Entries(c.devices)
      ensures Reached(graph, d.heads, h) <==> h in Ancestors(graph, d.heads)
    {
    }
    if (person, device) in c.devices {
      forall b | b in c.devices[(person, device)]
        ensures exists d :: Effective(s.devices, d) && DeviceEntry(graph, d) == ((person, device), b)
      {
        assert ((person, device), b) in Entries(c.devices);
      }
    }
  }

  lemma BoundariesExact(checks: Checks, s: Snapshot, c: Context, p: Proof, role: Role, epoch: Option<nat>, h: string)
    requires ValidSnapshot(checks, s) && Reflects(checks, s, c)
    requires RoleFor(checks, c, p.personId, p.grant) == Some((role, epoch))
    ensures NotCutOff(s, p, role, h) <==>
              && BoundariesAllow(c.revocations, p.personId, epoch, h)
              && BoundariesAllow(c.departures, p.personId, epoch, h)
              && DevicesAllow(c.devices, p.personId, p.deviceId, h)
  {
    RevocationsExact(checks, s, c, p.personId, epoch, h);
    DeparturesExact(checks, s, c, p.personId, epoch, h);
    DevicesExact(checks, s, c, p.personId, p.deviceId, h);
    assert forall ended: nat :: (epoch.Some? && ended < epoch.value) <==> GrantedAfter(p, role, ended);
  }

  /**
   A proof admits a change with a role exactly when it is well formed, signed and covers the needed change, its
   author writes under that role, no revocation, departure or device removal cuts the change off, and a
   former owner wrote it during the own term.
   */
  lemma AdmittedExact(checks: Checks, s: Snapshot, c: Context, p: Proof, needed: set<string>, allowVisitor: bool,
                      role: Role, h: string)
    requires ValidSnapshot(checks, s) && Reflects(checks, s, c)
    ensures var r := Admit(checks, c, p, needed, allowVisitor);
            (r.Ok? && r.value.0 == role && h in r.value.1) <==>
              && p.kind == "workspace-changes" && p.version == 1 && p.workspaceId == s.workspace
              && |p.hashes| <= MAX_HASHES && "" !in p.hashes && h in p.hashes && h in needed
              && checks.env.keyId(p.publicKey) == Some(p.personId) && checks.proofSigned(p)
              && WritesAs(checks, s, c, p, role) && (role == Visitor ==> allowVisitor)
              && NotCutOff(s, p, role, h)
              && (role == Owner && p.personId != c.ownership.current.personId ==> InOwnTerm(s, p.personId, h))
  {
    WritesAsExact(checks, s, c, p, role);
    OwnedIsFormer(checks, s, p.personId);
    FrontierIsOwnTerm(checks, s, p.personId, h);
    var r := RoleFor(checks, c, p.personId, p.grant);
    if r.Some? { BoundariesExact(checks, s, c, p, r.value.0, r.value.1, h); }
    if Admit(checks, c, p, needed, allowVisitor).Ok? { Admitted(checks, c, p, needed, allowVisitor, h); }
  }

  // ----- What a proof admits is closed under covered ancestors -----

  lemma BoundaryClosed(checks: Checks, s: Snapshot, c: Context, person: string, b: Boundary)
    requires ValidSnapshot(checks, s) && Reflects(checks, s, c)
    requires (person in c.revocations && b in c.revocations[person])
             || (person in c.departures && b in c.departures[person])
    ensures Closed(s.document.value, b.hashes)
  {
    var graph := s.document.value;
    if person in c.revocations && b in c.revocations[person] {
      assert (person, b) in Entries(c.revocations);
      var r :| r in s.revocations && RevocationEntry(graph, r) == (person, b);
      assert ValidRevocation(checks, graph, OwnershipOf(checks, s), r);
      AncestorsClosed(graph, r.heads);
    } else {
      assert (person, b) in Entries(c.departures);
      var d :| d in s.departures && DepartureEntry(graph, d) == (person, b);
      assert ValidDeparture(checks, graph, d);
      AncestorsClosed(graph, d.heads);
    }
  }

  lemma DeviceBoundaryClosed(checks: Checks, s: Snapshot, c: Context, key: (string, string), b: set<string>)
    requires ValidSnapshot(checks, s) && Reflects(checks, s, c) && key in c.devices && b in c.devices[key]
    ensures Closed(s.document.value, b)
  {
    var graph := s.document.value;
    assert (key, b) in Entries(c.devices);
    var d :| d in s.devices && Effective(s.devices, d) && DeviceEntry(graph, d) == (key, b);
    AncestorsClosed(graph, d.heads);
  }

  lemma FrontierClosed(checks: Checks, s: Snapshot, person: string)
    requires ValidSnapshot(checks, s) && person in OwnershipOf(checks, s).frontiers
    ensures Closed(s.document.value, OwnershipOf(checks, s).frontiers[person])
  {
    var graph, chain, order := s.document.value, ChainOf(checks, s), ByEpoch(Bag(s));
    var own := OwnFrontier(chain, order, person);
    forall h, d | h in own && h in graph && d in graph[h] ensures d in own {
      var i :| 0 <= i < |order| && OwnerAt(chain, order, i).personId == person && h in Frontier(chain, order[i]);
      assert Link(chain, {}, order, i);
      AncestorsClosed(graph, order[i].Heads());
      assert d in Frontier(chain, order[i]);
    }
  }

  lemma ClosedReaches(graph: DocumentGraph, s: set<string>, h: string, g: string)
    requires Closed(graph, s) && h in s && Reached(graph, [h], g)
    ensures g in s
  {
    ReachedStaysIn(graph, [h], s, g);
  }

  lemma AllowedCloses(checks: Checks, s: Snapshot, c: Context, p: Proof, role: Role, epoch: Option<nat>, h: string,
                      g: string)
    requires ValidSnapshot(checks, s) && Reflects(checks, s, c) && HashAllowed(c, p, role, epoch, h)
    requires Reached(s.document.value, [h], g)
    ensures HashAllowed(c, p, role, epoch, g)
  {
    var graph, person := s.document.value, p.personId;
    forall b | (person in c.revocations && b in c.revocations[person])
      || (person in c.departures && b in c.departures[person])
      ensures h in b.hashes ==> g in b.hashes
    {
      BoundaryClosed(checks, s, c, person, b);
      if h in b.hashes { ClosedReaches(graph, b.hashes, h, g); }
    }
    forall b | (person, p.deviceId) in c.devices && b in c.devices[(person, p.deviceId)] ensures g in b {
      DeviceBoundaryClosed(checks, s, c, (person, p.deviceId), b);
      ClosedReaches(graph, b, h, g);
    }
    if role == Owner && person != c.ownership.current.personId {
      FrontierClosed(checks, s, person);
      ClosedReaches(graph, c.ownership.frontiers[person], h, g);
    }
  }

  /** If a proof admits a change, it admits every ancestor of that change that it also covers. */
  lemma AdmittedCloses(checks: Checks, s: Snapshot, c: Context, p: Proof, needed: set<string>, allowVisitor: bool,
                       h: string, g: string)
    requires ValidSnapshot(checks, s) && Reflects(checks, s, c) && Admit(checks, c, p, needed, allowVisitor).Ok?
    requires h in Admit(checks, c, p, needed, allowVisitor).value.1
    requires Reached(s.document.value, [h], g) && g in p.hashes && g in needed
    ensures g in Admit(checks, c, p, needed, allowVisitor).value.1
  {
    Admitted(checks, c, p, needed, allowVisitor, h);
    Admitted(checks, c, p, needed, allowVisitor, g);
    var role := RoleFor(checks, c, p.personId, p.grant).value;
    AllowedCloses(checks, s, c, p, role.0, role.1, h, g);
  }

  // ----- More removals admit less -----

  /** The same authority records with more revocations, departures and device removals, and no new restoration. */
  ghost predicate Tightens(s: Snapshot, s': Snapshot) {
    && s' == s.(revocations := s'.revocations, departures := s'.departures, devices := s'.devices)
    && (forall r :: r in s.revocations ==> r in s'.revocations)
    && (forall d :: d in s.departures ==> d in s'.departures)
    && (forall d :: d in s.devices ==> d in s'.devices)
    && (forall d :: d in s'.devices && d.restores.Some? ==> d in s.devices)
  }

  lemma SameRestored(s: Snapshot, s': Snapshot)
    requires Tightens(s, s')
    ensures RestoredBy(s.devices) == RestoredBy(s'.devices)
  {
  }

  lemma TighterBoundaries(checks: Checks, s: Snapshot, s': Snapshot, c: Context, c': Context)
    requires ValidSnapshot(checks, s) && ValidSnapshot(checks, s') && Tightens(s, s') && Reflects(checks, s, c)
             && Reflects(checks, s', c')
    ensures Entries(c.revocations) <= Entries(c'.revocations) && Entries(c.departures) <= Entries(c'.departures)
    ensures Entries(c.devices) <= Entries(c'.devices)
  {
    SameRestored(s, s');
    forall d | Effective(s.devices, d) ensures Effective(s'.devices, d) { }
  }

  lemma FewerBoundariesAllow(m: map<string, seq<Boundary>>, m': map<string, seq<Boundary>>, person: string,
                             epoch: Option<nat>, hash: string)
    requires Entries(m) <= Entries(m') && BoundariesAllow(m', person, epoch, hash)
    ensures BoundariesAllow(m, person, epoch, hash)
  {
    if person in m {
      forall b | b in m[person] ensures (epoch.Some? && epoch.value > b.epoch) || hash in b.hashes {
        assert (person, b) in Entries(m) && (person, b) in Entries(m');
      }
    }
  }

  lemma FewerDevicesAllow(m: map<(string, string), seq<set<string>>>, m': map<(string, string), seq<set<string>>>,
                          person: string, device: string, hash: string)
    requires Entries(m) <= Entries(m') && DevicesAllow(m', person, device, hash)
    ensures DevicesAllow(m, person, device, hash)
  {
    var key := (person, device);
    if key in m {
      forall b | b in m[key] ensures hash in b {
        assert (key, b) in Entries(m) && (key, b) in Entries(m');
      }
    }
  }

  /** Adding removals to a snapshot that still validates keeps the verdict and the role, and never admits a new hash. */
  lemma TighterAdmitsLess(checks: Checks, s: Snapshot, s': Snapshot, c: Context, c': Context, p: Proof,
                          needed: set<string>, allowVisitor: bool)
    requires ValidSnapshot(checks, s) && ValidSnapshot(checks, s') && Tightens(s, s') && Reflects(checks, s, c)
             && Reflects(checks, s', c')
    requires c.now == c'.now && c.enforceExpiry == c'.enforceExpiry
    ensures var a, a' := Admit(checks, c, p, needed, allowVisitor), Admit(checks, c', p, needed, allowVisitor);
            (a.Ok? <==> a'.Ok?) && (a.Ok? ==> a.value.0 == a'.value.0 && forall h :: h in a'.value.1 ==> h in a.value.1)
  {
    var a, a' := Admit(checks, c, p, needed, allowVisitor), Admit(checks, c', p, needed, allowVisitor);
    SameOwnership(checks, s, s', c, c', p);
    if a.Ok? {
      TighterBoundaries(checks, s, s', c, c');
      var role := RoleFor(checks, c, p.personId, p.grant).value;
      forall h | h in a'.value.1 ensures h in a.value.1 {
        Admitted(checks, c', p, needed, allowVisitor, h);
        Admitted(checks, c, p, needed, allowVisitor, h);
        FewerBoundariesAllow(c.revocations, c'.revocations, p.personId, role.1, h);
        FewerBoundariesAllow(c.departures, c'.departures, p.personId, role.1, h);
        FewerDevicesAllow(c.devices, c'.devices, p.personId, p.deviceId, h);
      }
    }
  }

  lemma SameOwnership(checks: Checks, s: Snapshot, s': Snapshot, c: Context, c': Context, p: Proof)
    requires ValidSnapshot(checks, s) && ValidSnapshot(checks, s') && Tightens(s, s') && Reflects(checks, s, c)
             && Reflects(checks, s', c')
    requires c.now == c'.now && c.enforceExpiry == c'.enforceExpiry
    ensures c.ownership == c'.ownership
            && RoleFor(checks, c, p.personId, p.grant) == RoleFor(checks, c', p.personId, p.grant)
  {
    assert Bag(s) == Bag(s') && c.ownership == c'.ownership;
    if p.grant.Some? { SameGrant(checks, c, c', p.personId, p.grant.value, Authorities(c)); }
  }

  lemma {:induction false} SameGrant(checks: Checks, c: Context, c': Context, person: string, grant: Grant,
                                     authorities: seq<Authority>)
    requires c.workspace == c'.workspace
    ensures FindGrant(checks, c, person, grant, authorities) == FindGrant(checks, c', person, grant, authorities)
  {
    if authorities != [] { SameGrant(checks, c, c', person, grant, authorities[1..]); }
  }
}
