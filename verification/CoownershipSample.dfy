/**
 Ledgers at the limits of the source: a full one with 4096 transitions and one with a single further
 transition, which diverge; and two with differently signed genesis records.
 */
module CoownershipSample {
  import opened Wrappers
  import opened Ordering
  import opened Coownership
  import opened CoownershipMerge
  import opened CoownershipReplicas

  /** Every identity and signature is good, and no serialized size is exceeded. */
  function Open(less: (Hash, Hash) -> bool): Env {
    Env((id: Identity) => true, (p: Payload, key: string, signature: string, id: Identity) => true,
        (owners: seq<Identity>) => true, (p: Payload) => true, (l: Ledger) => true, less)
  }

  const CREATOR := Identity("owner", "key", [])
  const GENESIS := Genesis("scope-coownership-genesis", VERSION, "scope", CREATOR, Majority, 1)

  function Mark(c: char): string {
    seq(86, i => c)
  }

  function Begun(c: char): GenesisRecord {
    GenesisRecord(GENESIS, "owner", Mark(c))
  }

  // ----- Many transitions under one genesis -----

  function Name(i: nat): string
    requires i <= MAX_TRANSITIONS
  {
    [(i / 64 + 32) as char, (i % 64 + 32) as char]
  }

  lemma NameInjective(i: nat, j: nat)
    requires i <= MAX_TRANSITIONS && j <= MAX_TRANSITIONS && Name(i) == Name(j)
    ensures i == j
  {
    assert Name(i)[0] == Name(j)[0] && Name(i)[1] == Name(j)[1];
  }

  /** A transition to one new owner. */
  function Change(i: nat): Record
    requires i <= MAX_TRANSITIONS
  {
    Record(Transition("scope-coownership-transition", VERSION, "scope", HashOf(GENESIS), 2,
                      [Identity(Name(i), "key", [])], Majority),
           [Approval("owner", Mark('s'))])
  }

  lemma ChangeInjective(i: nat, j: nat)
    requires i <= MAX_TRANSITIONS && j <= MAX_TRANSITIONS && Change(i).payload == Change(j).payload
    ensures i == j
  {
    assert Change(i).payload.owners[0] == Change(j).payload.owners[0];
    NameInjective(i, j);
  }

  /** The transitions from `lo` up to `hi`. */
  function Changes(lo: nat, hi: nat): seq<Record>
    requires lo <= hi <= MAX_TRANSITIONS + 1
  {
    seq(hi - lo, i requires 0 <= i < hi - lo => Change(lo + i))
  }

  function Ranged(lo: nat, hi: nat): Ledger
    requires lo <= hi <= MAX_TRANSITIONS + 1
  {
    Ledger(Begun('s'), Changes(lo, hi), [])
  }

  lemma ChangeApproved(less: (Hash, Hash) -> bool, p: Payload, a: Approval)
    requires a == Approval("owner", Mark('s'))
    ensures Approved(Open(less), p, [a], [CREATOR], Majority)
  {
    var env, owners := Open(less), [CREATOR];
    assert owners[..0] == [];
    assert MatchOwners(env, p, a, owners) == One("owner");
    assert [a][0] == a && PersonOf(env, p, owners, a) == "owner";
    assert People(env, p, [a], owners) == {"owner"};
  }

  lemma ChangeGood(less: (Hash, Hash) -> bool, i: nat)
    requires i <= MAX_TRANSITIONS
    ensures Good(Open(less), Change(i))
  {
    ChangeApproved(less, Change(i).payload, Approval("owner", Mark('s')));
  }

  lemma RangedRecord(lo: nat, hi: nat, r: Record) returns (i: nat)
    requires lo <= hi <= MAX_TRANSITIONS + 1 && r in Changes(lo, hi)
    ensures lo <= i < hi && r == Change(i)
  {
    var k :| 0 <= k < |Changes(lo, hi)| && Changes(lo, hi)[k] == r;
    i := lo + k;
  }

  lemma ChangesDistinct(lo: nat, hi: nat)
    requires lo <= hi <= MAX_TRANSITIONS + 1
    ensures DistinctPayloads(Changes(lo, hi))
  {
    var q := Changes(lo, hi);
    forall i, j | 0 <= i < j < |q| ensures q[i].payload != q[j].payload {
      if q[i].payload == q[j].payload { ChangeInjective(lo + i, lo + j); }
    }
  }

  lemma RangedValid(less: (Hash, Hash) -> bool, lo: nat, hi: nat)
    requires lo <= hi <= MAX_TRANSITIONS + 1 && hi - lo <= MAX_TRANSITIONS
    ensures ValidLedger(Open(less), Ranged(lo, hi))
  {
    var env, q := Open(less), Changes(lo, hi);
    assert Records(Ranged(lo, hi)) == q;
    ChangesDistinct(lo, hi);
    forall r | r in q ensures r.payload.Transition? && Good(env, r) && Reaches(GENESIS, Payloads(q), r.payload) {
      var i := RangedRecord(lo, hi, r);
      ChangeGood(less, i);
      assert r.payload in Payloads(q);
    }
  }

  /**
   A full ledger and one with a single further transition of the same genesis, both valid, at the limits of the
   source: each replica stays with the one it received first.
   */
  lemma OrdersDiverge(less: (Hash, Hash) -> bool) returns (ab: Option<Ledger>, ba: Option<Ledger>)
    requires StrictOrder(less)
    ensures var env, a, b := Open(less), Ranged(0, MAX_TRANSITIONS), Ranged(MAX_TRANSITIONS, MAX_TRANSITIONS + 1);
            && FitsParts(env) && ValidLedger(env, a) && ValidLedger(env, b) && a.genesis == b.genesis
            && |a.transitions| == MAX_TRANSITIONS && |b.transitions| == 1
            && Replica(env, [a, b], ab) && Replica(env, [b, a], ba) && ab.Some? && ba.Some?
            && Facts(ab.value) == Facts(a) && Facts(ba.value) == Facts(b) && !SameLists(ab.value, ba.value)
  {
    var env, a, b := Open(less), Ranged(0, MAX_TRANSITIONS), Ranged(MAX_TRANSITIONS, MAX_TRANSITIONS + 1);
    RangedValid(less, 0, MAX_TRANSITIONS);
    RangedValid(less, MAX_TRANSITIONS, MAX_TRANSITIONS + 1);
    FurtherChange();
    ab, ba := FullOrdersDiverge(env, a, b, Change(MAX_TRANSITIONS).payload);
  }

  lemma FurtherChange()
    ensures Change(MAX_TRANSITIONS).payload in Payloads(Changes(MAX_TRANSITIONS, MAX_TRANSITIONS + 1))
    ensures Change(MAX_TRANSITIONS).payload !in Payloads(Changes(0, MAX_TRANSITIONS))
  {
    var r := Change(MAX_TRANSITIONS);
    assert Changes(MAX_TRANSITIONS, MAX_TRANSITIONS + 1)[0] == r;
    if r.payload in Payloads(Changes(0, MAX_TRANSITIONS)) {
      var x :| x in Changes(0, MAX_TRANSITIONS) && x.payload == r.payload;
      var i := RangedRecord(0, MAX_TRANSITIONS, x);
      ChangeInjective(i, MAX_TRANSITIONS);
    }
  }

  // ----- Two genesis records -----

  lemma BegunValid(less: (Hash, Hash) -> bool, c: char)
    ensures ValidLedger(Open(less), Ledger(Begun(c), [], []))
  {
    assert Records(Ledger(Begun(c), [], [])) == [];
  }

  lemma NothingMerged(env: Env, a: GenesisRecord, b: GenesisRecord)
    ensures IsMerge(env, Ledger(a, [], []), Ledger(b, [], []), Ledger(b, [], []))
  {
  }

  /** Two valid ledgers with differently signed genesis records: the merge keeps the record of the second. */
  lemma GenesisKept(less: (Hash, Hash) -> bool)
    ensures var env, a, b := Open(less), Ledger(Begun('a'), [], []), Ledger(Begun('b'), [], []);
            && ValidLedger(env, a) && ValidLedger(env, b) && a.genesis.payload == b.genesis.payload
            && IsMerge(env, a, b, b) && IsMerge(env, b, a, a) && a != b
  {
    BegunValid(less, 'a');
    BegunValid(less, 'b');
    NothingMerged(Open(less), Begun('a'), Begun('b'));
    NothingMerged(Open(less), Begun('b'), Begun('a'));
    assert Begun('a').signature[0] != Begun('b').signature[0];
  }
}
