/**
 The cache of verified signatures. A digest stands for its preimage, which is the key, the
 signature and the domain-separated canonical payload, so a hit can only repeat an earlier answer.
 */
module SignatureCache {
  import opened Wrappers
  import opened Finite
  import opened CanonicalJson

  const LIMIT: nat := 512
  const PREFIX := "meta-mesh/verified-ed25519/v1" + [0 as char]

  type Key = k: string | |k| == 32 witness seq(32, _ => 'k')
  type Signature = s: string | |s| == 64 witness seq(64, _ => 's')

  /** A collision-free digest: the hashed bytes themselves. */
  datatype Digest = Sha256(preimage: string)

  /** Decoding, the number format of ECMAScript, and Ed25519 are the environment's. */
  datatype Env = Env(
    decodeSignature: string -> Option<Signature>,
    decodeKey: string -> Option<Key>,
    format: Json -> string,
    verify: (Key, string, Signature) -> bool)

  datatype Envelope = Envelope(payload: Json, signature: string)

  datatype Request = Request(envelope: Envelope, publicKey: string, domain: string)

  datatype VerifyError = KindMissing | InvalidSignature | InvalidKey

  /** The Ed25519 relation: signed over the text with formatted numbers, or over the stored text. */
  predicate Verified(env: Env, key: Key, signature: Signature, payload: Json, domain: string)
    requires KindOf(payload).Some?
  {
    var text := SignedText(env.format, payload);
    || (text.Some? && env.verify(key, Input(text.value, payload, domain), signature))
    || env.verify(key, Input(StoredText(payload), payload, domain), signature)
  }

  /**
   A signature over signed text is accepted for every payload that differs in nothing but how equal numbers are
   written.
   */
  lemma AcceptedAlike(env: Env, key: Key, signature: Signature, a: Json, b: Json, domain: string)
    requires Formatter(env.format) && WellFormed(a) && WellFormed(b) && KindOf(a).Some? && KindOf(b).Some?
    requires SignedText(env.format, a).Some? && SignedText(env.format, b).Some?
             && Alike(SignedNumbers(env.format), a, b)
    requires env.verify(key, Input(SignedText(env.format, a).value, a, domain), signature)
    ensures Verified(env, key, signature, b, domain)
  {
    SignedInputExact(env.format, a, domain, b, domain);
  }

  /** Whatever a key signs in the way of the source, over signed text, verifies under it. */
  lemma SignedVerifies(env: Env, key: Key, sign: string -> Signature, payload: Json, domain: string)
    requires forall text :: env.verify(key, text, sign(text))
    requires KindOf(payload).Some? && Safe(payload)
    ensures SignedText(env.format, payload).Some?
    ensures Verified(env, key, sign(Input(SignedText(env.format, payload).value, payload, domain)), payload, domain)
  {
    TextsExact(env.format, payload);
  }

  /** What verification answers without a cache. */
  function Answer(env: Env, q: Request): Result<bool, VerifyError> {
    if KindOf(q.envelope.payload).None? then Err(KindMissing)
    else
      var signature, key := env.decodeSignature(q.envelope.signature), env.decodeKey(q.publicKey);
      if signature.None? then Err(InvalidSignature)
      else if key.None? then Err(InvalidKey)
      else Ok(Verified(env, key.value, signature.value, q.envelope.payload, q.domain))
  }

  function DigestOf(key: Key, signature: Signature, payload: Json, domain: string): Digest
    requires KindOf(payload).Some?
  {
    Sha256(PREFIX + key + signature + Input(StoredText(payload), payload, domain))
  }

  /** One digest, one question. */
  lemma DigestInjective(key: Key, signature: Signature, a: Json, domainA: string, key': Key, signature': Signature,
                        b: Json, domainB: string)
    requires WellFormed(a) && WellFormed(b) && KindOf(a).Some? && KindOf(b).Some?
    requires DigestOf(key, signature, a, domainA) == DigestOf(key', signature', b, domainB)
    ensures key == key' && signature == signature' && a == b && domainA == domainB
  {
    var x, y := Input(StoredText(a), a, domainA), Input(StoredText(b), b, domainB);
    var l, r := PREFIX + key + signature + x, PREFIX + key' + signature' + y;
    var n := |PREFIX|;
    assert l[n..n + 32] == key && r[n..n + 32] == key';
    assert l[n + 32..n + 96] == signature && r[n + 32..n + 96] == signature';
    assert l[n + 96..] == x && r[n + 96..] == y;
    StoredInputInjective(a, domainA, b, domainB);
  }

  /** The digest answers some question that Ed25519 has answered yes. */
  ghost predicate Vouched(env: Env, d: Digest) {
    exists key: Key, signature: Signature, payload, domain ::
      WellFormed(payload) && KindOf(payload).Some? && d == DigestOf(key, signature, payload, domain)
        && Verified(env, key, signature, payload, domain)
  }

  lemma VouchedAnswer(env: Env, key: Key, signature: Signature, payload: Json, domain: string)
    requires WellFormed(payload) && KindOf(payload).Some? && Vouched(env, DigestOf(key, signature, payload, domain))
    ensures Verified(env, key, signature, payload, domain)
  {
    var k: Key, s: Signature, p, d :|
      WellFormed(p) && KindOf(p).Some? && DigestOf(key, signature, payload, domain) == DigestOf(k, s, p, d)
        && Verified(env, k, s, p, d);
    DigestInjective(key, signature, payload, domain, k, s, p, d);
  }

  class Cache {
    var digests: set<Digest>
    var order: seq<Digest>

    /** The set is the queue, without duplicates and within the limit. */
    ghost predicate Valid()
      reads this
    {
      digests == Elements(order) && Distinct(order) && |order| <= LIMIT
    }

    ghost predicate Sound(env: Env)
      reads this
    {
      forall d :: d in digests ==> Vouched(env, d)
    }

    constructor ()
      ensures Valid() && order == []
    {
      digests, order := {}, [];
    }

    /** First in, first out: the oldest digest makes room when the cache is full. */
    method Insert(d: Digest)
      requires Valid()
      modifies this
      ensures Valid() && d in digests && digests <= old(digests) + {d}
      ensures order == if d in old(digests)
              then old(order) else (if |old(order)| == LIMIT then old(order)[1..] else old(order)) + [d]
    {
      if d in digests {
        return;
      }
      assert d !in order;
      if |order| == LIMIT {
        Dequeued(order);
        digests := digests - {order[0]};
        order := order[1..];
      }
      ElementsConcat(order, [d]);
      digests := digests + {d};
      order := order + [d];
    }

    /** The cached answer is the uncached one, and the cache stays sound. */
    method Verify(env: Env, q: Request) returns (r: Result<bool, VerifyError>)
      requires Valid() && Sound(env) && WellFormed(q.envelope.payload)
      modifies this
      ensures Valid() && Sound(env)
      ensures r == Answer(env, q)
    {
      var payload := q.envelope.payload;
      var kind := KindOf(payload);
      if kind.None? {
        return Err(KindMissing);
      }
      var signature, key := env.decodeSignature(q.envelope.signature), env.decodeKey(q.publicKey);
      if signature.None? {
        return Err(InvalidSignature);
      }
      if key.None? {
        return Err(InvalidKey);
      }
      var d := DigestOf(key.value, signature.value, payload, q.domain);
      if d in digests {
        VouchedAnswer(env, key.value, signature.value, payload, q.domain);
        return Ok(true);
      }
      var verified := Verified(env, key.value, signature.value, payload, q.domain);
      if verified {
        assert Vouched(env, d);
        Insert(d);
      }
      r := Ok(verified);
    }

    /** Every run of verifications through one cache answers as if there were none. */
    method VerifyAll(env: Env, requests: seq<Request>) returns (answers: seq<Result<bool, VerifyError>>)
      requires Valid() && Sound(env) && forall q :: q in requests ==> WellFormed(q.envelope.payload)
      modifies this
      ensures Valid() && Sound(env)
      ensures |answers| == |requests| && forall i :: 0 <= i < |requests| ==> answers[i] == Answer(env, requests[i])
    {
      answers := [];
      for i := 0 to |requests|
        invariant Valid() && Sound(env) && |answers| == i
        invariant forall j :: 0 <= j < i ==> answers[j] == Answer(env, requests[j])
      {
        assert requests[i] in requests;
        var answer := Verify(env, requests[i]);
        answers := answers + [answer];
      }
    }
  }

  lemma Dequeued<T(!new)>(q: seq<T>)
    requires Distinct(q) && q != []
    ensures Elements(q[1..]) == Elements(q) - {q[0]} && Distinct(q[1..])
  {
    assert q == [q[0]] + q[1..];
    ElementsConcat([q[0]], q[1..]);
    assert q[0] !in q[1..];
  }
}
