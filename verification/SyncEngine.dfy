/**
 The sync engine's optimistic receive: prepare on a copy, ask for admission, then commit if the
 document's revision is unchanged. The engine object is proved against a step function, and the
 step function against every interleaving of its operations across documents and peers.
 */
module SyncEngine {
  import opened Wrappers

  const DEFAULT_MAX_FRAME_BYTES: nat := 262144
  const MAX_REVISION: nat := 0xFFFF_FFFF_FFFF_FFFF

  datatype Document = Document(changes: set<string>)

  /** What a peer is known to have. */
  datatype PeerState = Unknown | Known(memory: string)

  type Key = (string, string)

  datatype Loaded = Loaded(scope: string, document: Document, revision: nat)

  datatype Prepared = Prepared(document: Document, peer: PeerState, revision: nat)

  datatype Frame = Frame(version: nat, scope: string, documentId: string, sender: string, receiver: string,
                         message: string)

  datatype Receipt = Receipt(accepted: set<string>, document: Document, response: Option<Frame>)

  /** Loading, decoding and the sync protocol itself are the environment's. */
  datatype Env = Env(
    load: string -> Option<Document>,
    decodes: string -> bool,
    receive: (Document, PeerState, string) -> Option<(Document, PeerState)>,
    generate: (Document, PeerState) -> (Option<string>, PeerState))

  datatype Config = Config(local: string, maximum: nat)

  datatype State = State(documents: map<string, Loaded>, peers: map<Key, PeerState>, prepared: map<Key, Prepared>)

  datatype Op =
    | Load(scope: string, documentId: string, bytes: string)
    | Generate(documentId: string, remote: string, authorized: bool)
    | Prepare(remote: string, frame: Frame, authorized: bool)
    | Commit(documentId: string, remote: string)
    | Abort(documentId: string, remote: string)
    | Reset(documentId: string, remote: string)

  datatype SyncError = InvalidIdentity | InvalidDocument | Unauthorized | InvalidRemote | AwaitingAdmission | NotLoaded
                     | InvalidDevice | InvalidLimit | InvalidFrame | InvalidMessage | SyncFailed
                     | NothingPrepared | DocumentChanged

  datatype Outcome = Done | Sent(frame: Option<Frame>) | Received(receipt: Receipt) | Failed(error: SyncError)

  const EMPTY := State(map[], map[], map[])

  // ----- The step function -----

  function PeerOf(s: State, key: Key): PeerState {
    if key in s.peers then s.peers[key] else Unknown
  }

  function Bump(revision: nat): nat {
    if revision < MAX_REVISION then revision + 1 else MAX_REVISION
  }

  predicate Sized(c: Config, message: string) {
    0 < |message| <= c.maximum
  }

  /** A receive on a copy of the document: the merged copy, the peer state, and the reply if any. */
  function Merge(env: Env, document: Document, peer: PeerState,
                 message: string): Option<(Document, PeerState, Option<string>)>
  {
    if !env.decodes(message) then None
    else
      var merged := env.receive(document, peer, message);
      if merged.None? then None
      else
        var reply := env.generate(merged.value.0, merged.value.1);
        Some((merged.value.0, reply.1, reply.0))
  }

  function LoadStep(env: Env, s: State, scope: string, id: string, bytes: string): (State, Outcome) {
    if scope == "" || id == "" then (s, Failed(InvalidIdentity))
    else
      var document := env.load(bytes);
      if document.None? then (s, Failed(InvalidDocument))
      else
        var revision := if id in s.documents then Bump(s.documents[id].revision) else 1;
        (s.(documents := s.documents[id := Loaded(scope, document.value, revision)]), Done)
  }

  function GenerateStep(env: Env, c: Config, s: State, id: string, remote: string, authorized: bool): (State, Outcome) {
    var key := (id, remote);
    if !authorized then (s, Failed(Unauthorized))
    else if remote == "" then (s, Failed(InvalidRemote))
    else if key in s.prepared then (s, Failed(AwaitingAdmission))
    else if id !in s.documents then (s, Failed(NotLoaded))
    else
      var (message, peer) := env.generate(s.documents[id].document, PeerOf(s, key));
      if message.Some? && !Sized(c, message.value) then (s, Failed(InvalidMessage))
      else
        (s.(peers := s.peers[key := peer]),
         Sent(if message.None?
              then None else Some(Frame(1, s.documents[id].scope, id, c.local, remote, message.value))))
  }

  predicate ValidFrame(c: Config, s: State, remote: string, f: Frame) {
    && f.documentId in s.documents && f.version == 1 && f.scope == s.documents[f.documentId].scope
    && f.sender == remote && f.receiver == c.local && Sized(c, f.message)
  }

  function PrepareStep(env: Env, c: Config, s: State, remote: string, f: Frame, authorized: bool): (State, Outcome) {
    var key := (f.documentId, remote);
    if !authorized then (s, Failed(Unauthorized))
    else if !ValidFrame(c, s, remote, f) then (s, Failed(InvalidFrame))
    else if key in s.prepared then (s, Failed(AwaitingAdmission))
    else
      var loaded := s.documents[f.documentId];
      var merged := Merge(env, loaded.document, PeerOf(s, key), f.message);
      if merged.None? then (s, Failed(SyncFailed))
      else
        var (document, peer, reply) := merged.value;
        if reply.Some? && !Sized(c, reply.value) then (s, Failed(InvalidMessage))
        else
          var response := if reply.None?
            then None else Some(Frame(1, loaded.scope, f.documentId, c.local, remote, reply.value));
          (s.(prepared := s.prepared[key := Prepared(document, peer, loaded.revision)]),
           Received(Receipt(document.changes - loaded.document.changes, document, response)))
  }

  function CommitStep(s: State, id: string, remote: string): (State, Outcome) {
    var key := (id, remote);
    if key !in s.prepared then (s, Failed(NothingPrepared))
    else
      var p, s' := s.prepared[key], s.(prepared := s.prepared - {key});
      if id !in s.documents then (s', Failed(NotLoaded))
      else
        var loaded := s.documents[id];
        if loaded.revision != p.revision then (s', Failed(DocumentChanged))
        else
          (s'.(documents := s.documents[id := loaded.(document := p.document, revision := Bump(loaded.revision))],
               peers := s.peers[key := p.peer]), Done)
  }

  function Step(env: Env, c: Config, s: State, op: Op): (State, Outcome) {
    match op
    case Load(scope, id, bytes) => LoadStep(env, s, scope, id, bytes)
    case Generate(id, remote, authorized) => GenerateStep(env, c, s, id, remote, authorized)
    case Prepare(remote, f, authorized) => PrepareStep(env, c, s, remote, f, authorized)
    case Commit(id, remote) => CommitStep(s, id, remote)
    case Abort(id, remote) => (s.(prepared := s.prepared - {(id, remote)}), Done)
    case Reset(id, remote) => (s.(peers := s.peers - {(id, remote)}, prepared := s.prepared - {(id, remote)}), Done)
  }

  // ----- The engine object -----

  class Engine {
    const env: Env
    const config: Config
    var documents: map<string, Loaded>
    var peers: map<Key, PeerState>
    var prepared: map<Key, Prepared>

    ghost function View(): State
      reads this
    {
      State(documents, peers, prepared)
    }

    constructor (env: Env, config: Config)
      ensures this.env == env && this.config == config && View() == EMPTY
    {
      this.env, this.config := env, config;
      documents, peers, prepared := map[], map[], map[];
    }

    method LoadDocument(scope: string, id: string, bytes: string) returns (r: Outcome)
      modifies this
      ensures (View(), r) == Step(env, config, old(View()), Load(scope, id, bytes))
    {
      if scope == "" || id == "" {
        return Failed(InvalidIdentity);
      }
      var document := env.load(bytes);
      if document.None? {
        return Failed(InvalidDocument);
      }
      var revision := 1;
      if id in documents {
        revision := Bump(documents[id].revision);
      }
      documents := documents[id := Loaded(scope, document.value, revision)];
      r := Done;
    }

    method GenerateFrame(id: string, remote: string, authorized: bool) returns (r: Outcome)
      modifies this
      ensures (View(), r) == Step(env, config, old(View()), Generate(id, remote, authorized))
    {
      if !authorized {
        return Failed(Unauthorized);
      }
      if remote == "" {
        return Failed(InvalidRemote);
      }
      var key := (id, remote);
      if key in prepared {
        return Failed(AwaitingAdmission);
      }
      var peer := if key in peers then peers[key] else Unknown;
      if id !in documents {
        return Failed(NotLoaded);
      }
      var (message, told) := env.generate(documents[id].document, peer);
      if message.None? {
        peers := peers[key := told];
        return Sent(None);
      }
      if !Sized(config, message.value) {
        return Failed(InvalidMessage);
      }
      peers := peers[key := told];
      r := Sent(Some(Frame(1, documents[id].scope, id, config.local, remote, message.value)));
    }

    method PrepareReceive(remote: string, f: Frame, authorized: bool) returns (r: Outcome)
      modifies this
      ensures (View(), r) == Step(env, config, old(View()), Prepare(remote, f, authorized))
    {
      if !authorized {
        return Failed(Unauthorized);
      }
      if f.documentId !in documents || f.version != 1 || f.scope != documents[f.documentId].scope || f.sender != remote
         || f.receiver != config.local || !Sized(config, f.message) {
        return Failed(InvalidFrame);
      }
      var key := (f.documentId, remote);
      if key in prepared {
        return Failed(AwaitingAdmission);
      }
      var loaded := documents[f.documentId];
      var merged := Merge(env, loaded.document, if key in peers then peers[key] else Unknown, f.message);
      if merged.None? {
        return Failed(SyncFailed);
      }
      var (document, peer, reply) := merged.value;
      var response := None;
      if reply.Some? {
        if !Sized(config, reply.value) {
          return Failed(InvalidMessage);
        }
        response := Some(Frame(1, loaded.scope, f.documentId, config.local, remote, reply.value));
      }
      prepared := prepared[key := Prepared(document, peer, loaded.revision)];
      r := Received(Receipt(document.changes - loaded.document.changes, document, response));
    }

    method CommitPrepared(id: string, remote: string) returns (r: Outcome)
      modifies this
      ensures (View(), r) == Step(env, config, old(View()), Commit(id, remote))
    {
      var key := (id, remote);
      if key !in prepared {
        return Failed(NothingPrepared);
      }
      var pending := prepared[key];
      prepared := prepared - {key};
      if id !in documents {
        return Failed(NotLoaded);
      }
      var loaded := documents[id];
      if loaded.revision != pending.revision {
        return Failed(DocumentChanged);
      }
      documents := documents[id := Loaded(loaded.scope, pending.document, Bump(loaded.revision))];
      peers := peers[key := pending.peer];
      r := Done;
    }

    method AbortPrepared(id: string, remote: string)
      modifies this
      ensures (View(), Done) == Step(env, config, old(View()), Abort(id, remote))
    {
      prepared := prepared - {(id, remote)};
    }

    method ResetPeer(id: string, remote: string)
      modifies this
      ensures (View(), Done) == Step(env, config, old(View()), Reset(id, remote))
    {
      peers := peers - {(id, remote)};
      prepared := prepared - {(id, remote)};
    }

    /** Without anything in between, a prepared receive always commits; a failed one changes nothing. */
    method ReceiveFrame(remote: string, f: Frame, authorized: bool) returns (r: Outcome)
      modifies this
      ensures r == Step(env, config, old(View()), Prepare(remote, f, authorized)).1
      ensures r.Failed? ==> View() == old(View())
      ensures r.Received? ==>
                && f.documentId in documents && documents[f.documentId].document == r.receipt.document
                && documents == old(documents)[f.documentId := documents[f.documentId]]
                && (f.documentId, remote) in peers
                && peers == old(peers)[(f.documentId, remote) := peers[(f.documentId, remote)]]
                && prepared == old(prepared)
    {
      r := PrepareReceive(remote, f, authorized);
      if r.Received? {
        ghost var mid := View();
        var committed := CommitPrepared(f.documentId, remote);
        assert mid.prepared - {(f.documentId, remote)} == old(prepared);
      }
    }
  }

  /** An engine needs a device id and, if a frame limit is given, a positive one. */
  method New(env: Env, local: string, maximum: Option<nat>) returns (r: Result<Engine, SyncError>)
    ensures r.Ok? <==> local != "" && maximum != Some(0)
    ensures r.Ok? ==> fresh(r.value) && r.value.env == env && r.value.View() == EMPTY
    ensures r.Ok? ==> r.value.config == Config(local, if maximum.Some? then maximum.value else DEFAULT_MAX_FRAME_BYTES)
  {
    if local == "" {
      return Err(InvalidDevice);
    }
    var limit := if maximum.Some? then maximum.value else DEFAULT_MAX_FRAME_BYTES;
    if limit == 0 {
      return Err(InvalidLimit);
    }
    var engine := new Engine(env, Config(local, limit));
    r := Ok(engine);
  }

  // ----- Every interleaving -----

  /** What a prepared receive was computed from. */
  datatype Basis = Basis(document: Document, peer: PeerState, message: string)

  /** A run so far, with the basis of each prepared receive and the (document, revision) pairs that were committed. */
  datatype Trace = Trace(state: State, bases: map<Key, Basis>, committed: set<(string, nat)>)

  function Advance(env: Env, c: Config, t: Trace, op: Op): Trace {
    var s := t.state;
    var (s', outcome) := Step(env, c, s, op);
    var bases :=
      if op.Prepare? && outcome.Received? then
        var key := (op.frame.documentId, op.remote);
        t.bases[key := Basis(s.documents[op.frame.documentId].document, PeerOf(s, key), op.frame.message)]
      else t.bases;
    var committed :=
      if op.Commit? && outcome.Done?
        then t.committed + {(op.documentId, s.prepared[(op.documentId, op.remote)].revision)} else t.committed;
    Trace(s', bases, committed)
  }

  function Run(env: Env, c: Config, ops: seq<Op>): Trace {
    if ops == [] then Trace(EMPTY, map[], {}) else Advance(env, c, Run(env, c, ops[..|ops| - 1]), ops[|ops| - 1])
  }

  /** The prepared receive is the merge of its basis; the basis is current unless the revision has moved on. */
  ghost predicate PreparedFrom(env: Env, t: Trace, key: Key)
    requires key in t.state.prepared
  {
    var p, s := t.state.prepared[key], t.state;
    && key in t.bases && key.0 in s.documents
    && var b := t.bases[key];
    && Merge(env, b.document, b.peer, b.message).Some?
    && Merge(env, b.document, b.peer, b.message).value.0 == p.document
    && Merge(env, b.document, b.peer, b.message).value.1 == p.peer
    && b.peer == PeerOf(s, key)
    && p.revision <= s.documents[key.0].revision
    && (p.revision == s.documents[key.0].revision && p.revision < MAX_REVISION ==>
        b.document == s.documents[key.0].document)
  }

  ghost predicate Inv(env: Env, t: Trace) {
    && RevisionsBounded(t) && CommittedBelow(t)
    && forall key :: key in t.state.prepared ==> PreparedFrom(env, t, key)
  }

  ghost predicate RevisionsBounded(t: Trace) {
    forall id :: id in t.state.documents ==> t.state.documents[id].revision <= MAX_REVISION
  }

  /** What was committed lies below the current revision, except at the last one. */
  ghost predicate CommittedBelow(t: Trace) {
    forall x :: x in t.committed && x.1 < MAX_REVISION ==>
      x.0 in t.state.documents && x.1 < t.state.documents[x.0].revision
  }

  /** A step that leaves the documents and the peer states of prepared keys alone keeps their bases. */
  lemma UntouchedKeeps(env: Env, t: Trace, t': Trace)
    requires Inv(env, t) && t'.state.documents == t.state.documents && t'.bases == t.bases
             && t'.committed == t.committed
    requires forall key :: key in t'.state.prepared ==>
      key in t.state.prepared && t'.state.prepared[key] == t.state.prepared[key]
        && PeerOf(t'.state, key) == PeerOf(t.state, key)
    ensures Inv(env, t')
  {
    forall key | key in t'.state.prepared ensures PreparedFrom(env, t', key) {
      assert PreparedFrom(env, t, key);
    }
  }

  lemma LoadKeeps(env: Env, c: Config, t: Trace, op: Op)
    requires Inv(env, t) && op.Load?
    ensures Inv(env, Advance(env, c, t, op))
  {
    var t' := Advance(env, c, t, op);
    forall key | key in t'.state.prepared ensures PreparedFrom(env, t', key) {
      assert PreparedFrom(env, t, key);
    }
  }

  lemma PrepareKeeps(env: Env, c: Config, t: Trace, op: Op)
    requires Inv(env, t) && op.Prepare?
    ensures Inv(env, Advance(env, c, t, op))
  {
    var t' := Advance(env, c, t, op);
    forall key | key in t'.state.prepared ensures PreparedFrom(env, t', key) {
      if key in t.state.prepared { assert PreparedFrom(env, t, key); }
    }
  }

  lemma CommitKeepsBasis(env: Env, c: Config, t: Trace, op: Op, key: Key)
    requires Inv(env, t) && op.Commit? && key in Advance(env, c, t, op).state.prepared
    ensures PreparedFrom(env, Advance(env, c, t, op), key)
  {
    assert PreparedFrom(env, t, key);
  }

  lemma CommitKeepsRevisions(env: Env, c: Config, t: Trace, op: Op)
    requires Inv(env, t) && op.Commit?
    ensures RevisionsBounded(Advance(env, c, t, op)) && CommittedBelow(Advance(env, c, t, op))
  {
    var key := (op.documentId, op.remote);
    assert key in t.state.prepared ==> PreparedFrom(env, t, key);
  }

  lemma CommitKeeps(env: Env, c: Config, t: Trace, op: Op)
    requires Inv(env, t) && op.Commit?
    ensures Inv(env, Advance(env, c, t, op))
  {
    CommitKeepsRevisions(env, c, t, op);
    forall key | key in Advance(env, c, t, op).state.prepared ensures PreparedFrom(env, Advance(env, c, t, op), key) {
      CommitKeepsBasis(env, c, t, op, key);
    }
  }

  lemma GenerateKeeps(env: Env, c: Config, t: Trace, op: Op)
    requires Inv(env, t) && op.Generate?
    ensures Inv(env, Advance(env, c, t, op))
  {
    UntouchedKeeps(env, t, Advance(env, c, t, op));
  }

  lemma ForgetKeeps(env: Env, c: Config, t: Trace, op: Op)
    requires Inv(env, t) && (op.Abort? || op.Reset?)
    ensures Inv(env, Advance(env, c, t, op))
  {
    UntouchedKeeps(env, t, Advance(env, c, t, op));
  }

  lemma StepKeeps(env: Env, c: Config, t: Trace, op: Op)
    requires Inv(env, t)
    ensures Inv(env, Advance(env, c, t, op))
  {
    match op
    case Load(_, _, _) => LoadKeeps(env, c, t, op);
    case Prepare(_, _, _) => PrepareKeeps(env, c, t, op);
    case Commit(_, _) => CommitKeeps(env, c, t, op);
    case Generate(_, _, _) => GenerateKeeps(env, c, t, op);
    case _ => ForgetKeeps(env, c, t, op);
  }

  lemma {:induction false} RunKeeps(env: Env, c: Config, ops: seq<Op>)
    ensures Inv(env, Run(env, c, ops))
  {
    if ops != [] {
      RunKeeps(env, c, ops[..|ops| - 1]);
      StepKeeps(env, c, Run(env, c, ops[..|ops| - 1]), ops[|ops| - 1]);
    }
  }

  /**
   After any run, a commit that succeeds below the last revision installs the merge of the current document,
   peer state and message.
   */
  lemma CommitIsCurrent(env: Env, c: Config, ops: seq<Op>, id: string, remote: string)
    requires Step(env, c, Run(env, c, ops).state, Commit(id, remote)).1.Done?
    requires Run(env, c, ops).state.documents[id].revision < MAX_REVISION
    ensures var t, s' := Run(env, c, ops), Step(env, c, Run(env, c, ops).state, Commit(id, remote)).0;
            var key, s := (id, remote), Run(env, c, ops).state;
            && key in t.bases && id in s.documents
            && var merged := Merge(env, s.documents[id].document, PeerOf(s, key), t.bases[key].message);
            && merged.Some? && s'.documents[id].document == merged.value.0 && s'.peers[key] == merged.value.1
            && s'.documents[id].revision == s.documents[id].revision + 1
  {
    RunKeeps(env, c, ops);
    var t := Run(env, c, ops);
    assert PreparedFrom(env, t, (id, remote));
  }

  /** At most one receive prepared at a revision of a document commits, until revisions run out. */
  lemma OneCommitPerRevision(env: Env, c: Config, ops: seq<Op>, id: string, remote: string)
    requires Step(env, c, Run(env, c, ops).state, Commit(id, remote)).1.Done?
    requires Run(env, c, ops).state.prepared[(id, remote)].revision < MAX_REVISION
    ensures (id, Run(env, c, ops).state.prepared[(id, remote)].revision) !in Run(env, c, ops).committed
  {
    RunKeeps(env, c, ops);
  }

  /** Preparing, failing to commit and aborting leave every document and every peer as they were. */
  lemma FailureIsClean(env: Env, c: Config, s: State, op: Op)
    requires op.Prepare? || op.Abort? || Step(env, c, s, op).1.Failed?
    ensures Step(env, c, s, op).0.documents == s.documents && Step(env, c, s, op).0.peers == s.peers
  {
  }

  // ----- Frames between two engines -----

  /** What a step sends to a peer. */
  function FrameOf(outcome: Outcome): Option<Frame> {
    match outcome
    case Sent(frame) => frame
    case Received(receipt) => receipt.response
    case _ => None
  }

  /** The device and document that an operation speaks with. */
  function KeyOf(op: Op): Key {
    match op
    case Load(_, id, _) => (id, "")
    case Generate(id, remote, _) => (id, remote)
    case Prepare(remote, f, _) => (f.documentId, remote)
    case Commit(id, remote) => (id, remote)
    case Abort(id, remote) => (id, remote)
    case Reset(id, remote) => (id, remote)
  }

  /** The peer takes this frame for a sync of its own copy: nothing but the merge itself can fail. */
  ghost predicate Taken(env: Env, c: Config, s: State, from: string, f: Frame) {
    var (s', outcome) := Step(env, c, s, Prepare(from, f, true));
    && outcome != Failed(InvalidFrame)
    && ((f.documentId, from) !in s.prepared ==>
        outcome.Received? || outcome == Failed(SyncFailed) || outcome == Failed(InvalidMessage))
  }

  /**
   Every frame that an engine sends, by itself or in answer, is a valid one for the engine of the device it was
   meant for, if that engine has the document in the same scope and no smaller limit.
   */
  lemma FramesAreTaken(env: Env, c: Config, s: State, op: Op, peerEnv: Env, peer: Config, there: State)
    requires FrameOf(Step(env, c, s, op).1).Some?
    requires peer.local == KeyOf(op).1 && peer.maximum >= c.maximum
    requires KeyOf(op).0 in s.documents && KeyOf(op).0 in there.documents
             && there.documents[KeyOf(op).0].scope == s.documents[KeyOf(op).0].scope
    ensures Taken(peerEnv, peer, there, c.local, FrameOf(Step(env, c, s, op).1).value)
  {
    var f := FrameOf(Step(env, c, s, op).1).value;
    match op
    case Generate(id, remote, _) =>
      var generated := env.generate(s.documents[id].document, PeerOf(s, (id, remote)));
      assert f.message == generated.0.value && Sized(c, generated.0.value);
    case Prepare(remote, frame, _) =>
      var merged := Merge(env, s.documents[frame.documentId].document, PeerOf(s, KeyOf(op)), frame.message);
      assert f.message == merged.value.2.value && Sized(c, merged.value.2.value);
    case _ =>
  }

  /**
   A receive is prepared only for an authorized sender's frame, addressed to this device for the document's own
   scope and within the limit. The receipt has the merge of document and message, and when a merge only
   adds changes, that is the document plus exactly the accepted changes.
   */
  lemma ReceiptExact(env: Env, c: Config, s: State, remote: string, f: Frame, authorized: bool)
    requires Step(env, c, s, Prepare(remote, f, authorized)).1.Received?
    ensures authorized && f.version == 1 && f.sender == remote && f.receiver == c.local
            && 0 < |f.message| <= c.maximum
            && f.documentId in s.documents && f.scope == s.documents[f.documentId].scope
            && (f.documentId, remote) !in s.prepared && env.decodes(f.message)
    ensures var receipt, before := Step(env, c, s, Prepare(remote, f, authorized)).1.receipt, s.documents[f.documentId];
            var merged := env.receive(before.document, PeerOf(s, (f.documentId, remote)), f.message);
            && merged.Some? && receipt.document == merged.value.0
            && var reply := env.generate(merged.value.0, merged.value.1);
            && (receipt.response.Some? <==> reply.0.Some?)
            && (reply.0.Some? ==> receipt.response.value.message == reply.0.value && 0 < |reply.0.value| <= c.maximum)
            && Step(env, c, s, Prepare(remote, f, authorized)).0.prepared ==
               s.prepared[(f.documentId, remote) := Prepared(merged.value.0, reply.1, before.revision)]
            && receipt.accepted !! before.document.changes && receipt.accepted <= receipt.document.changes
            && (before.document.changes <= receipt.document.changes ==>
                before.document.changes + receipt.accepted == receipt.document.changes)
  {
  }

  /** A load that succeeds installs that document in that scope and leaves no revision to be taken for a later one. */
  lemma LoadExact(env: Env, c: Config, s: State, scope: string, id: string, bytes: string)
    requires id in s.documents ==> s.documents[id].revision <= MAX_REVISION
    ensures var (s', outcome) := Step(env, c, s, Load(scope, id, bytes));
            && (outcome.Done? <==> scope != "" && id != "" && env.load(bytes).Some?)
            && (outcome.Done? ==>
                && id in s'.documents && s'.documents[id].scope == scope
                && Some(s'.documents[id].document) == env.load(bytes)
                && s'.documents[id].revision > 0
                && (id in s.documents && s.documents[id].revision < MAX_REVISION ==>
                    s'.documents[id].revision == s.documents[id].revision + 1)
                && (forall other :: other != id && other in s.documents ==>
                    other in s'.documents && s'.documents[other] == s.documents[other]))
  {
  }

  /** At the last revision the check is blind: a reload in between goes unnoticed, and the commit discards it. */
  lemma SaturatedCommitIsStale(env: Env, c: Config, s: State, id: string, remote: string, scope: string, bytes: string)
    requires id in s.documents && s.documents[id].revision == MAX_REVISION && (id, remote) in s.prepared
    requires s.prepared[(id, remote)].revision == MAX_REVISION && scope != "" && id != "" && env.load(bytes).Some?
    ensures var s1 := Step(env, c, s, Load(scope, id, bytes)).0;
            var (s2, outcome) := Step(env, c, s1, Commit(id, remote));
            && s1.documents[id].document == env.load(bytes).value
            && outcome.Done? && s2.documents[id].document == s.prepared[(id, remote)].document
  {
  }

  // ----- A run that exhausts the revisions -----

  /** Loads merge nothing, receives add their message as a change, and nobody answers. */
  function Sample(): Env {
    Env((bytes: string) => Some(Document({bytes})), (message: string) => true,
        (d: Document, peer: PeerState, message: string) => Some((Document(d.changes + {message}), peer)),
        (d: Document, peer: PeerState) => (None, peer))
  }

  const FIRST := Load("scope", "doc", "one")
  const SECOND := Load("scope", "doc", "two")

  lemma RunSnoc(env: Env, c: Config, ops: seq<Op>, op: Op)
    ensures Run(env, c, ops + [op]) == Advance(env, c, Run(env, c, ops), op)
  {
    assert (ops + [op])[..|ops|] == ops;
  }

  /** The document was loaded `n` times, and nothing is known of a peer. */
  predicate LoadedOnly(s: State, n: nat) {
    && s.peers == map[] && s.prepared == map[]
    && (n == 0 ==> "doc" !in s.documents)
    && (n > 0 ==> "doc" in s.documents && s.documents["doc"] == Loaded("scope", Document({"one"}), Last(n)))
  }

  function Last(n: nat): nat {
    if n < MAX_REVISION then n else MAX_REVISION
  }

  lemma LoadAgain(env: Env, c: Config, t: Trace, n: nat)
    requires env.load("one") == Some(Document({"one"})) && LoadedOnly(t.state, n)
    ensures LoadedOnly(Advance(env, c, t, FIRST).state, n + 1)
  {
  }

  lemma OneMoreLoad(env: Env, c: Config, ops: seq<Op>, n: nat)
    requires env.load("one") == Some(Document({"one"})) && LoadedOnly(Run(env, c, ops).state, n)
    ensures LoadedOnly(Run(env, c, ops + [FIRST]).state, n + 1)
  {
    RunSnoc(env, c, ops, FIRST);
    LoadAgain(env, c, Run(env, c, ops), n);
  }

  lemma {:induction false} LoadsReach(env: Env, c: Config, n: nat) returns (ops: seq<Op>)
    requires env.load("one") == Some(Document({"one"}))
    ensures |ops| == n && LoadedOnly(Run(env, c, ops).state, n)
  {
    ops := [];
    if n > 0 {
      var fewer := LoadsReach(env, c, n - 1);
      OneMoreLoad(env, c, fewer, n - 1);
      ops := fewer + [FIRST];
    }
  }

  /** At the last revision: prepared on the first document, reloaded with the second, and still committed. */
  lemma StaleAtLast(c: Config, t: Trace)
    requires c.maximum >= 1 && LoadedOnly(t.state, MAX_REVISION)
    ensures var t1 := Advance(Sample(), c, t, Prepare("peer", Frame(1, "scope", "doc", "peer", c.local, "m"), true));
            var t2 := Advance(Sample(), c, t1, SECOND);
            var (s, outcome) := Step(Sample(), c, t2.state, Commit("doc", "peer"));
            && "doc" in t2.state.documents && t2.state.documents["doc"].document == Document({"two"})
            && outcome.Done? && s.documents["doc"].document == Document({"one", "m"})
  {
    var t1 := Advance(Sample(), c, t, Prepare("peer", Frame(1, "scope", "doc", "peer", c.local, "m"), true));
    assert t1.state.prepared[("doc", "peer")].document == Document({"one"} + {"m"});
    assert {"one"} + {"m"} == {"one", "m"};
  }

  /**
   The revisions run out after as many loads, and then a run commits a receive over a document it was not
   computed from.
   */
  lemma SaturationReached(c: Config) returns (ops: seq<Op>)
    requires c.maximum >= 1
    ensures var s := Run(Sample(), c, ops).state;
            var (s', outcome) := Step(Sample(), c, s, Commit("doc", "peer"));
            && "doc" in s.documents && s.documents["doc"].document == Document({"two"})
            && s.documents["doc"].revision == MAX_REVISION
            && outcome.Done? && s'.documents["doc"].document == Document({"one", "m"})
  {
    var prepare := Prepare("peer", Frame(1, "scope", "doc", "peer", c.local, "m"), true);
    var loads := LoadsReach(Sample(), c, MAX_REVISION);
    StaleAtLast(c, Run(Sample(), c, loads));
    RunSnoc(Sample(), c, loads, prepare);
    RunSnoc(Sample(), c, loads + [prepare], SECOND);
    ops := loads + [prepare] + [SECOND];
  }

  /**
   A change of the document between prepare and commit is always noticed exactly when the revision was not the
   last.
   */
  lemma ReloadNoticed(env: Env, c: Config, s: State, id: string, remote: string, scope: string, bytes: string)
    requires id in s.documents && s.documents[id].revision <= MAX_REVISION && (id, remote) in s.prepared
    requires s.prepared[(id, remote)].revision == s.documents[id].revision && scope != "" && id != ""
             && env.load(bytes).Some?
    ensures var s1 := Step(env, c, s, Load(scope, id, bytes)).0;
            Step(env, c, s1, Commit(id, remote)).1 == Failed(DocumentChanged) <==>
              s.documents[id].revision < MAX_REVISION
  {
  }
}
