/**
 What an automation grant may do to a board. A transition of several cards is accepted when it can
 be replayed as one-card steps that are each allowed. Whatever is accepted keeps every entity, all
 settings, every application source, and of a card all but its approved parts.
 */
module Automation {
  import opened Wrappers
  import opened CanonicalJson

  type Entities = map<string, Json>

  datatype Scope = Scope(version: nat, boardId: string, lead: string, interview: string, rejected: string,
                         applied: Option<string>, fieldIds: seq<string>)

  /** Reads JSON text. */
  type Parser = string -> Option<Json>

  // ----- Reading entities -----

  function Get(m: Entities, k: string): Option<Json> {
    if k in m then Some(m[k]) else None
  }

  function Field(v: Json, k: string): Option<Json> {
    if v.Obj? then Get(v.fields, k) else None
  }

  function Text(v: Option<Json>): Option<string> {
    if v.Some? && v.value.Str? then Some(v.value.s) else None
  }

  function Parent(v: Json): Option<string> {
    var placement := Field(v, "placement");
    if placement.Some? then Text(Field(placement.value, "parentId")) else None
  }

  predicate IsItem(v: Json) {
    && Field(v, "body").Some? && Field(v, "body").value.Str?
    && Field(v, "values").Some? && Field(v, "values").value.Obj?
  }

  predicate IsSource(id: string) {
    var prefix := "application-source:";
    |prefix| <= |id| && id[..|prefix|] == prefix
  }

  predicate Archived(v: Json) {
    Text(Field(v, "archivedAt")).Some?
  }

  function Without(m: Entities, keys: set<string>): Entities {
    m - keys
  }

  function Placement(v: Json): Option<Json> {
    Field(v, "placement")
  }

  /** The same card but for its rank. */
  predicate RankOnly(x: Json, y: Json) {
    && IsItem(x) && IsItem(y) && Parent(x) == Parent(y)
    && Placement(x).Some? && Placement(x).value.Obj? && Placement(y).Some? && Placement(y).value.Obj?
    && Without(x.fields, {"placement"}) == Without(y.fields, {"placement"})
    && Without(Placement(x).value.fields, {"rank"}) == Without(Placement(y).value.fields, {"rank"})
    && Get(Placement(x).value.fields, "rank") != Get(Placement(y).value.fields, "rank")
  }

  predicate HasChild(entities: Entities, id: string) {
    exists k ::
      k in entities && Text(Field(entities[k], "kind")) != Some("application_source") && Parent(entities[k]) == Some(id)
  }

  // ----- The board -----

  function ArchiveColumn(entities: Entities, scope: Scope): Option<string> {
    if scope.boardId in entities then Text(Field(entities[scope.boardId], "archiveColumnId")) else None
  }

  /** The active columns of the board, other than its archive. */
  function Columns(entities: Entities, scope: Scope): set<string> {
    set id | id in entities && Text(Field(entities[id], "kind")) == Some("column")
             && Parent(entities[id]) == Some(scope.boardId)
             && ArchiveColumn(entities, scope) != Some(id) && !Archived(entities[id])
  }

  predicate BoardReady(entities: Entities, scope: Scope) {
    && scope.boardId in entities && Text(Field(entities[scope.boardId], "kind")) == Some("board")
    && !Archived(entities[scope.boardId])
    && scope.lead in Columns(entities, scope) && scope.interview in Columns(entities, scope)
    && scope.rejected in Columns(entities, scope)
    && (scope.applied.Some? ==> scope.applied.value in Columns(entities, scope))
    && (forall f :: f in scope.fieldIds ==>
          f in entities && Text(Field(entities[f], "kind")) == Some("field")
            && Parent(entities[f]) == Some(scope.boardId))
  }

  // ----- One card -----

  /** What a delta must not touch: everything but times, workflow, approved values, rank and parent. */
  function Frozen(v: Json, allowed: seq<string>): (Entities, Option<Json>, Option<Json>)
    requires v.Obj?
  {
    var values, placement := Field(v, "values"), Placement(v);
    (Without(v.fields, {"updatedAt", "lastActivityAt", "workflow", "values", "placement"}),
     if values.Some? && values.value.Obj?
       then Some(Obj(Without(values.value.fields, set f | f in allowed))) else values,
     if placement.Some? && placement.value.Obj?
       then Some(Obj(Without(placement.value.fields, {"rank", "parentId"}))) else placement)
  }

  /** The column and the time that a workflow record names, if it names nothing else. */
  function Workflow(parse: Parser, v: Json): Option<(string, string)> {
    var record := if v.Obj? then Some(v) else if v.Str? then parse(v.s) else None;
    if record.None? || !record.value.Obj? || |record.value.fields| != 2 then None
    else
      var column, time := Text(Field(record.value, "columnId")), Text(Field(record.value, "changedAt"));
      if column.None? || time.None? || column.value == "" || time.value == ""
        then None else Some((column.value, time.value))
  }

  predicate WorkflowMatches(parse: Parser, card: Json, parent: string) {
    var w := Field(card, "workflow");
    w.Some? ==> Workflow(parse, w.value).Some? && Workflow(parse, w.value).value.0 == parent
  }

  predicate MayEnter(scope: Scope, parent: string) {
    parent == scope.interview || parent == scope.rejected || scope.applied == Some(parent)
  }

  predicate MayAppear(scope: Scope, parent: string) {
    parent == scope.lead || scope.applied == Some(parent)
  }

  /** A new original comes with a new card; a refresh comes with a card whose original is already there. */
  predicate SourceAppended(parse: Parser, source: Json, id: string, existing: bool, left: Entities) {
    && Parent(source) == Some(id) && Text(Field(source, "data")).Some?
    && var data := parse(Text(Field(source, "data")).value);
    && data.Some? && Field(data.value, "observation").Some?
    && var o := Field(data.value, "observation").value;
    if existing then
      && Text(Field(o, "phase")) == Some("refresh") && Text(Field(o, "originalRecordId")).Some?
      && "application-source:" + Text(Field(o, "originalRecordId")).value in left
    else Text(Field(o, "phase")) == Some("original")
  }

  predicate ChangeAllowed(parse: Parser, left: Entities, scope: Scope, columns: set<string>, id: string, x: Json,
                          y: Json, sourced: bool)
  {
    && x.Obj? && y.Obj? && Parent(x).Some? && Parent(y).Some? && IsItem(x) && !HasChild(left, id) && !Archived(x)
    && !Archived(y)
    && Parent(x).value in columns
    && (Parent(x) != Parent(y) ==> MayEnter(scope, Parent(y).value))
    && Frozen(x, scope.fieldIds) == Frozen(y, scope.fieldIds)
    && (Parent(x) == Parent(y) && Field(x, "values") == Field(y, "values") ==> sourced)
    && (Field(x, "workflow") != Field(y, "workflow") ==>
        Parent(x) != Parent(y) && WorkflowMatches(parse, y, Parent(y).value))
  }

  const CARD_KEYS: set<string> :=
    {"id", "title", "body", "values", "placement", "archivedAt", "createdAt", "updatedAt", "lastActivityAt", "workflow",
     "lifecycle"}

  predicate CreationAllowed(parse: Parser, scope: Scope, y: Json) {
    && y.Obj? && Parent(y).Some? && MayAppear(scope, Parent(y).value) && !Archived(y)
    && (forall k :: k in y.fields ==> k in CARD_KEYS)
    && Field(y, "values").Some? && Field(y, "values").value.Obj?
    && (forall f :: f in Field(y, "values").value.fields ==> f in scope.fieldIds)
    && WorkflowMatches(parse, y, Parent(y).value)
  }

  // ----- One step -----

  function Changed(left: Entities, right: Entities): set<string> {
    set id | id in left.Keys + right.Keys && Get(left, id) != Get(right, id)
  }

  function Sources(left: Entities, right: Entities): set<string> {
    set id | id in Changed(left, right) && IsSource(id)
  }

  function Ranks(left: Entities, right: Entities): set<string> {
    set id | id in Changed(left, right) && !IsSource(id) && id in left && id in right && RankOnly(left[id], right[id])
  }

  /** The card of a step: the one entity changed otherwise, or the card that a lone new source belongs to. */
  function Cards(left: Entities, right: Entities): set<string> {
    var cards := Changed(left, right) - Sources(left, right) - Ranks(left, right);
    if cards == {} then set s | s in Sources(left, right) && s in right && Parent(right[s]).Some? ::
      Parent(right[s]).value else cards
  }

  predicate SiblingsAllowed(left: Entities, right: Entities, columns: set<string>, from: string, to: string) {
    forall id :: id in Ranks(left, right) ==>
      var p := Parent(left[id]);
      p.Some? && (p.value == from || p.value == to) && p.value in columns
  }

  predicate CardAllowed(parse: Parser, left: Entities, right: Entities, scope: Scope, id: string) {
    var columns, sources := Columns(right, scope), Sources(left, right);
    && id in right && IsItem(right[id]) && !HasChild(right, id) && Text(Field(right[id], "id")) == Some(id)
    && Parent(right[id]).Some?
    && (forall s :: s in sources ==> s in right && SourceAppended(parse, right[s], id, id in left, left))
    && (if id in left then
          && ChangeAllowed(parse, left, scope, columns, id, left[id], right[id], sources != {})
          && SiblingsAllowed(left, right, columns, Parent(left[id]).value, Parent(right[id]).value)
        else
          && CreationAllowed(parse, scope, right[id])
          && SiblingsAllowed(left, right, columns, scope.lead, Parent(right[id]).value))
  }

  predicate EntitiesAllowed(parse: Parser, left: Entities, right: Entities, scope: Scope) {
    && BoardReady(right, scope)
    && (forall s :: s in Sources(left, right) ==> scope.version == 2 && s !in left && s in right)
    && |Sources(left, right)| <= 1
    && |Cards(left, right)| == 1
    && (forall id :: id in Cards(left, right) ==> CardAllowed(parse, left, right, scope, id))
  }

  predicate IsBoard(v: Json) {
    v.Obj? && "entities" in v.fields && v.fields["entities"].Obj?
  }

  function EntitiesOf(v: Json): Entities
    requires IsBoard(v)
  {
    v.fields["entities"].fields
  }

  function Settings(v: Json): Entities
    requires v.Obj?
  {
    Without(v.fields, {"entities"})
  }

  /** The causal admission policy for one change of one card. */
  predicate StepAllowed(parse: Parser, before: Json, after: Json, scope: Scope) {
    && IsBoard(before) && IsBoard(after) && Settings(before) == Settings(after)
    && EntitiesAllowed(parse, EntitiesOf(before), EntitiesOf(after), scope)
  }

  // ----- Several cards -----

  /** Which single steps are allowed. */
  type Policy = (Json, Json) -> bool

  function CardPolicy(parse: Parser, scope: Scope): Policy {
    (before: Json, after: Json) => StepAllowed(parse, before, after, scope)
  }

  ghost predicate Steps(allowed: Policy, chain: seq<Json>) {
    chain != [] && forall i, j :: 0 <= i && j == i + 1 && j < |chain| ==> allowed(chain[i], chain[j])
  }

  /** `m` with the given keys as they are in `after`. */
  function Overlay(m: Entities, after: Entities, keys: set<string>): Entities {
    map id | id in m.Keys + after.Keys && (if id in keys then id in after else id in m) ::
      if id in keys then after[id] else m[id]
  }

  function SourceCard(before: Entities, after: Entities, id: string): Option<string> {
    var there := if id in after then Parent(after[id]) else None;
    if there.Some? then there else if id in before then Parent(before[id]) else None
  }

  function ParentIn(m: Entities, id: string): Option<string> {
    if id in m then Parent(m[id]) else None
  }

  /** A rank change goes with the first card that leaves or enters its column. */
  predicate Relevant(current: Entities, after: Entities, card: string, id: string) {
    var from, to := ParentIn(current, card), ParentIn(after, card);
    || (from.Some? && (ParentIn(current, id) == from || ParentIn(after, id) == from))
    || (to.Some? && (ParentIn(current, id) == to || ParentIn(after, id) == to))
  }

  function WithEntities(v: Json, entities: Entities): Json
    requires v.Obj?
  {
    Obj(v.fields["entities" := Obj(entities)])
  }

  /** Every differing entity that is neither a source nor a rank change. */
  function CardChanges(left: Entities, right: Entities): set<string> {
    Changed(left, right) - Sources(left, right) - Ranks(left, right)
  }

  predicate OnlyItems(left: Entities, right: Entities) {
    forall id :: id in CardChanges(left, right) ==>
      (id in left && IsItem(left[id])) || (id in right && IsItem(right[id]))
  }

  function Moved(current: Json, after: Entities, card: string, ranks: set<string>): set<string>
    requires IsBoard(current)
  {
    set id | id in ranks && Relevant(EntitiesOf(current), after, card, id)
  }

  function OwnSources(before: Entities, after: Entities, card: string): set<string> {
    set s | s in Sources(before, after) && SourceCard(before, after, s) == Some(card)
  }

  /** The board with one card, its sources and the rank changes that go with it as they are afterwards. */
  function NextBoard(current: Json, before: Entities, after: Entities, card: string, ranks: set<string>): Json
    requires IsBoard(current)
  {
    WithEntities(current,
                 Overlay(EntitiesOf(current), after,
                         {card} + OwnSources(before, after, card) + Moved(current, after, card, ranks)))
  }

  /** The board after the listed cards, one allowed step each. */
  ghost function Replay(allowed: Policy, current: Json, before: Entities, after: Entities, cards: seq<string>,
                        ranks: set<string>): Option<Json>
    requires IsBoard(current)
    decreases |cards|
  {
    if cards == [] then Some(current)
    else
      var next := NextBoard(current, before, after, cards[0], ranks);
      if !allowed(current, next) then None
      else Replay(allowed, next, before, after, cards[1..], ranks - Moved(current, after, cards[0], ranks))
  }

  function SourceCards(left: Entities, right: Entities): set<string> {
    set s | s in Sources(left, right) && SourceCard(left, right, s).Some? :: SourceCard(left, right, s).value
  }

  function AffectedCards(left: Entities, right: Entities): set<string> {
    CardChanges(left, right) + SourceCards(left, right)
  }

  /** Settings and other entities agree, and each source names a card. */
  predicate Decomposable(before: Json, after: Json) {
    && IsBoard(before) && IsBoard(after) && Settings(before) == Settings(after)
    && OnlyItems(EntitiesOf(before), EntitiesOf(after))
    && (forall s :: s in Sources(EntitiesOf(before), EntitiesOf(after)) ==>
        SourceCard(EntitiesOf(before), EntitiesOf(after), s).Some?)
    && AffectedCards(EntitiesOf(before), EntitiesOf(after)) != {}
  }

  /** The affected cards, in order, replay to `after`. */
  ghost predicate Accepts(allowed: Policy, before: Json, after: Json) {
    && Decomposable(before, after)
    && var left, right := EntitiesOf(before), EntitiesOf(after);
    Replay(allowed, before, left, right, SortedKeys(AffectedCards(left, right)), Ranks(left, right)) == Some(after)
  }

  /** Accepts exactly what replays, and then returns the allowed one-card steps from `before` to `after`. */
  method ValidateTransitions(parse: Parser, before: Json, after: Json, scope: Scope)
    returns (ok: bool, ghost chain: seq<Json>)
    ensures ok <==> Accepts(CardPolicy(parse, scope), before, after)
    ensures ok ==>
            Steps(CardPolicy(parse, scope), chain) && |chain| >= 2 && chain[0] == before && chain[|chain| - 1] == after
  {
    ok, chain := ReplayCards(CardPolicy(parse, scope), before, after);
  }

  method ReplayCards(allowed: Policy, before: Json, after: Json) returns (ok: bool, ghost chain: seq<Json>)
    ensures ok <==> Accepts(allowed, before, after)
    ensures ok ==> Steps(allowed, chain) && |chain| >= 2 && chain[0] == before && chain[|chain| - 1] == after
  {
    chain := [before];
    if !Decomposable(before, after) {
      return false, chain;
    }
    var left, right := EntitiesOf(before), EntitiesOf(after);
    SomeKey(AffectedCards(left, right));
    var replayed;
    replayed, chain :=
      ReplayEach(allowed, before, left, right, SortedKeys(AffectedCards(left, right)), Ranks(left, right));
    ok := replayed == Some(after);
  }

  /** One card after the other; stops at the first step that is not allowed. */
  method ReplayEach(allowed: Policy, board: Json, before: Entities, after: Entities, cards: seq<string>,
                    ranks: set<string>)
    returns (r: Option<Json>, ghost chain: seq<Json>)
    requires IsBoard(board)
    ensures r == Replay(allowed, board, before, after, cards, ranks)
    ensures r.Some? ==>
            Steps(allowed, chain) && |chain| == |cards| + 1 && chain[0] == board && chain[|cards|] == r.value
  {
    var current, left := board, ranks;
    chain := [board];
    assert cards[0..] == cards;
    for i := 0 to |cards|
      invariant Steps(allowed, chain) && |chain| == i + 1 && chain[0] == board && chain[i] == current
                && IsBoard(current)
      invariant Replay(allowed, board, before, after, cards, ranks) ==
                Replay(allowed, current, before, after, cards[i..], left)
    {
      var next := NextBoard(current, before, after, cards[i], left);
      ReplayStep(allowed, current, before, after, cards, i, left);
      if !allowed(current, next) {
        return None, chain;
      }
      left := left - Moved(current, after, cards[i], left);
      chain := chain + [next];
      current := next;
    }
    r := Some(current);
  }

  lemma SomeKey(keys: set<string>)
    requires keys != {}
    ensures SortedKeys(keys) != []
  {
    var k :| k in keys;
    assert k in SortedKeys(keys);
  }

  lemma ReplayStep(allowed: Policy, current: Json, before: Entities, after: Entities, cards: seq<string>, i: nat,
                   ranks: set<string>)
    requires IsBoard(current) && i < |cards|
    ensures var next := NextBoard(current, before, after, cards[i], ranks);
            Replay(allowed, current, before, after, cards[i..], ranks) ==
              if allowed(current, next)
              then Replay(allowed, next, before, after, cards[i + 1..], ranks - Moved(current, after, cards[i], ranks))
                else None
  {
    assert cards[i..][0] == cards[i] && cards[i..][1..] == cards[i + 1..];
  }

  // ----- One card against several -----

  lemma SingleKey(k: string)
    ensures SortedKeys({k}) == [k]
  {
    assert Least({k}, k);
    LeastKey({k});
    assert {k} - {k} == {};
  }

  lemma OneElement<T>(s: set<T>, x: T)
    requires |s| == 1 && x in s
    ensures s == {x}
  {
    assert |s - {x}| == 0;
    assert s == (s - {x}) + {x};
  }

  /** Taking every difference from `right` gives `right`; leaving one out does not. */
  lemma OverlayIs(left: Entities, right: Entities, keys: set<string>)
    ensures Overlay(left, right, keys) == right <==> Changed(left, right) <= keys
  {
    var m := Overlay(left, right, keys);
    if Changed(left, right) <= keys {
      forall id ensures Get(m, id) == Get(right, id) {
        if id in left || id in right { assert id in Changed(left, right) <==> Get(left, id) != Get(right, id); }
      }
      SameMaps(m, right);
    }
    if m == right {
      forall id | id in Changed(left, right) ensures id in keys { assert Get(m, id) == Get(right, id); }
    }
  }

  lemma SameMaps(m: Entities, n: Entities)
    requires forall k :: Get(m, k) == Get(n, k)
    ensures m == n
  {
    forall k ensures k in m <==> k in n { assert Get(m, k) == Get(n, k); }
    forall k | k in m ensures m[k] == n[k] { assert Get(m, k) == Get(n, k); }
  }

  lemma SameBoard(before: Json, after: Json, entities: Entities)
    requires IsBoard(before) && IsBoard(after) && Settings(before) == Settings(after)
    ensures WithEntities(before, entities) == after <==> entities == EntitiesOf(after)
  {
    var m := WithEntities(before, entities).fields;
    if entities == EntitiesOf(after) {
      forall k ensures Get(m, k) == Get(after.fields, k) {
        if k != "entities" {
          assert Get(Settings(before), k) == Get(before.fields, k) && Get(Settings(after), k) == Get(after.fields, k);
        }
      }
      SameMaps(m, after.fields);
    }
  }

  /**
   With one affected card, one step is replayed; it reaches `after` exactly when every rank change goes with
   that card.
   */
  lemma OneStepReplay(allowed: Policy, before: Json, after: Json, card: string)
    requires Decomposable(before, after) && allowed(before, after)
    requires AffectedCards(EntitiesOf(before), EntitiesOf(after)) == {card}
    ensures var left, right := EntitiesOf(before), EntitiesOf(after);
            Accepts(allowed, before, after) <==>
              Ranks(left, right) - {card} <= Moved(before, right, card, Ranks(left, right))
  {
    var left, right := EntitiesOf(before), EntitiesOf(after);
    var ranks := Ranks(left, right);
    SingleKey(card);
    ReplayStep(allowed, before, left, right, [card], 0, ranks);
    assert [card][0..] == [card] && [card][1..] == [];
    var keys := {card} + OwnSources(left, right, card) + Moved(before, right, card, ranks);
    OverlayIs(left, right, keys);
    SameBoard(before, after, Overlay(left, right, keys));
    DifferencesCovered(left, right, card, Moved(before, right, card, ranks));
  }

  lemma DifferencesCovered(left: Entities, right: Entities, card: string, moved: set<string>)
    requires AffectedCards(left, right) == {card}
             && (forall s :: s in Sources(left, right) ==> SourceCard(left, right, s).Some?)
    requires moved <= Ranks(left, right)
    ensures Changed(left, right) <= {card} + OwnSources(left, right, card) + moved <==>
            Ranks(left, right) - {card} <= moved
  {
    forall s | s in Sources(left, right) ensures SourceCard(left, right, s) == Some(card) {
      assert SourceCard(left, right, s).value in SourceCards(left, right);
    }
    assert OwnSources(left, right, card) == Sources(left, right);
    assert CardChanges(left, right) <= {card};
  }

  lemma OnlyCard(parse: Parser, left: Entities, right: Entities, scope: Scope, card: string)
    requires EntitiesAllowed(parse, left, right, scope) && card in Cards(left, right)
    ensures Cards(left, right) == {card} && CardAllowed(parse, left, right, scope, card)
  {
    OneElement(Cards(left, right), card);
  }

  lemma OwnSource(parse: Parser, left: Entities, right: Entities, scope: Scope, card: string)
    requires CardAllowed(parse, left, right, scope, card)
    ensures card in right && IsItem(right[card])
    ensures forall s :: s in Sources(left, right) ==> SourceCard(left, right, s) == Some(card)
  {
    forall s | s in Sources(left, right) ensures SourceCard(left, right, s) == Some(card) {
      assert SourceAppended(parse, right[s], card, card in left, left);
    }
  }

  lemma OneAffected(left: Entities, right: Entities, card: string)
    requires Cards(left, right) == {card} && card in right && IsItem(right[card])
    requires forall s :: s in Sources(left, right) ==> SourceCard(left, right, s) == Some(card)
    ensures AffectedCards(left, right) == {card} && OnlyItems(left, right)
  {
    if CardChanges(left, right) == {} {
      var s :| s in Sources(left, right);
      assert card in SourceCards(left, right);
    }
  }

  /**
   The two validators on one card: an allowed step is accepted as a transition exactly when the card
   was there already or every rank change is in the new card's own column.
   */
  lemma OneCardExact(parse: Parser, before: Json, after: Json, scope: Scope, card: string)
    requires StepAllowed(parse, before, after, scope) && card in Cards(EntitiesOf(before), EntitiesOf(after))
    ensures var left, right := EntitiesOf(before), EntitiesOf(after);
            card in right &&
            (Accepts(CardPolicy(parse, scope), before, after) <==>
              card in left || forall id :: id in Ranks(left, right) ==> Parent(left[id]) == Parent(right[card]))
  {
    var left, right := EntitiesOf(before), EntitiesOf(after);
    OnlyCard(parse, left, right, scope, card);
    OwnSource(parse, left, right, scope, card);
    OneAffected(left, right, card);
    OneStepReplay(CardPolicy(parse, scope), before, after, card);
    RanksMove(parse, left, right, scope, before, card);
  }

  lemma SiblingRelevant(left: Entities, right: Entities, lead: string, card: string, id: string)
    requires card in right && Parent(right[card]).Some? && (card in left ==> Parent(left[card]).Some?)
    requires id in left && id in right && Parent(left[id]) == Parent(right[id])
    requires Parent(left[id]) == Some(if card in left then Parent(left[card]).value else lead)
             || Parent(left[id]) == Parent(right[card])
    ensures Relevant(left, right, card, id) <==> card in left || Parent(left[id]) == Parent(right[card])
  {
  }

  lemma AllowedSiblings(parse: Parser, left: Entities, right: Entities, scope: Scope, card: string, id: string)
    requires CardAllowed(parse, left, right, scope, card) && id in Ranks(left, right)
    ensures card in right && Parent(right[card]).Some? && (card in left ==> Parent(left[card]).Some?)
    ensures id in left && id in right && Parent(left[id]) == Parent(right[id])
    ensures Parent(left[id]) == Some(if card in left then Parent(left[card]).value else scope.lead)
            || Parent(left[id]) == Parent(right[card])
  {
  }

  lemma RanksMove(parse: Parser, left: Entities, right: Entities, scope: Scope, before: Json, card: string)
    requires IsBoard(before) && EntitiesOf(before) == left && card in right
             && CardAllowed(parse, left, right, scope, card)
    ensures Ranks(left, right) - {card} <= Moved(before, right, card, Ranks(left, right)) <==>
              card in left || forall id :: id in Ranks(left, right) ==> Parent(left[id]) == Parent(right[card])
  {
    forall id | id in Ranks(left, right)
      ensures id in Moved(before, right, card, Ranks(left, right)) <==>
              card in left || Parent(left[id]) == Parent(right[card])
    {
      AllowedSiblings(parse, left, right, scope, card, id);
      SiblingRelevant(left, right, scope.lead, card, id);
    }
    assert card in Ranks(left, right) ==> card in left;
  }

  // ----- What every accepted transition keeps -----

  /** The card in all but its approved parts, still where it was or in an approved column. */
  ghost predicate Kept(scope: Scope, x: Json, y: Json) {
    || x == y
    || (&& IsItem(x) && IsItem(y) && Frozen(x, scope.fieldIds) == Frozen(y, scope.fieldIds)
        && (|| Parent(y) == Parent(x) || Parent(y) == Some(scope.interview) || Parent(y) == Some(scope.rejected)
            || (scope.applied.Some? && Parent(y) == scope.applied)))
  }

  /** What may be new in one step: a source under a version 2 grant, or a card in Lead or Applied. */
  ghost predicate Created(scope: Scope, id: string, y: Json) {
    || (IsSource(id) && scope.version == 2)
    || (IsItem(y) && (Parent(y) == Some(scope.lead) || (scope.applied.Some? && Parent(y) == scope.applied)))
  }

  /** What may be new after several: a card created on the way may also have moved on. */
  ghost predicate Appeared(scope: Scope, id: string, y: Json) {
    || Created(scope, id, y)
    || (IsItem(y) && (Parent(y) == Some(scope.interview) || Parent(y) == Some(scope.rejected)))
  }

  ghost predicate Preserves(scope: Scope, before: Json, after: Json) {
    && IsBoard(before) && IsBoard(after) && Settings(before) == Settings(after)
    && forall id :: PreservedAt(scope, EntitiesOf(before), EntitiesOf(after), id)
  }

  ghost predicate PreservedAt(scope: Scope, left: Entities, right: Entities, id: string) {
    && (id in left ==> id in right && Kept(scope, left[id], right[id]) && (IsSource(id) ==> left[id] == right[id]))
    && (id in right && id !in left ==> Appeared(scope, id, right[id]))
  }

  ghost predicate CreatedAt(scope: Scope, left: Entities, right: Entities, id: string) {
    id in right && id !in left ==> Created(scope, id, right[id])
  }

  /** Two ranks of one card: everything protected is the same. */
  lemma RankFrozen(x: Json, y: Json, allowed: seq<string>)
    requires RankOnly(x, y)
    ensures Frozen(x, allowed) == Frozen(y, allowed)
  {
    var rest := {"updatedAt", "lastActivityAt", "workflow", "values", "placement"};
    var p, q := Placement(x).value.fields, Placement(y).value.fields;
    assert Without(x.fields, rest) == Without(Without(x.fields, {"placement"}), rest);
    assert Without(y.fields, rest) == Without(Without(y.fields, {"placement"}), rest);
    assert Without(p, {"rank", "parentId"}) == Without(Without(p, {"rank"}), {"rank", "parentId"});
    assert Without(q, {"rank", "parentId"}) == Without(Without(q, {"rank"}), {"rank", "parentId"});
    assert Without(x.fields, {"placement"}) == Without(y.fields, {"placement"});
    assert Get(Without(x.fields, {"placement"}), "values") == Get(x.fields, "values");
    assert Get(Without(y.fields, {"placement"}), "values") == Get(y.fields, "values");
  }

  lemma RankKept(scope: Scope, x: Json, y: Json)
    requires RankOnly(x, y)
    ensures Kept(scope, x, y)
  {
    RankFrozen(x, y, scope.fieldIds);
  }

  lemma CardKept(parse: Parser, left: Entities, right: Entities, scope: Scope, id: string)
    requires CardAllowed(parse, left, right, scope, id)
    ensures id in right && IsItem(right[id])
    ensures if id in left then Kept(scope, left[id], right[id]) else Created(scope, id, right[id])
  {
    if id in left {
      assert ChangeAllowed(parse, left, scope, Columns(right, scope), id, left[id], right[id],
                           Sources(left, right) != {});
    }
  }

  lemma ChangedCardsKept(parse: Parser, left: Entities, right: Entities, scope: Scope)
    requires EntitiesAllowed(parse, left, right, scope)
    ensures forall s :: s in Sources(left, right) ==> s !in left && s in right && scope.version == 2
    ensures forall id :: id in CardChanges(left, right) ==>
      id in right && if id in left then Kept(scope, left[id], right[id]) else Created(scope, id, right[id])
  {
    forall id | id in CardChanges(left, right)
      ensures id in right && if id in left then Kept(scope, left[id], right[id]) else Created(scope, id, right[id])
    {
      assert id in Cards(left, right);
      CardKept(parse, left, right, scope, id);
    }
  }

  lemma EntityKept(left: Entities, right: Entities, scope: Scope, id: string)
    requires forall s :: s in Sources(left, right) ==> s !in left && s in right && scope.version == 2
    requires forall c :: c in CardChanges(left, right) ==>
      c in right && if c in left then Kept(scope, left[c], right[c]) else Created(scope, c, right[c])
    ensures PreservedAt(scope, left, right, id) && CreatedAt(scope, left, right, id)
  {
    assert id in left || id in right ==> (id in Changed(left, right) <==> Get(left, id) != Get(right, id));
    if id in Ranks(left, right) {
      RankKept(scope, left[id], right[id]);
    } else if id in Changed(left, right) && !IsSource(id) {
      assert id in CardChanges(left, right);
    } else if id in Changed(left, right) {
      assert id in Sources(left, right);
    }
  }

  lemma StepPreserves(parse: Parser, before: Json, after: Json, scope: Scope)
    requires StepAllowed(parse, before, after, scope)
    ensures Preserves(scope, before, after)
    ensures forall id :: CreatedAt(scope, EntitiesOf(before), EntitiesOf(after), id)
  {
    var left, right := EntitiesOf(before), EntitiesOf(after);
    ChangedCardsKept(parse, left, right, scope);
    forall id ensures PreservedAt(scope, left, right, id) && CreatedAt(scope, left, right, id) {
      EntityKept(left, right, scope, id);
    }
  }

  lemma KeptTransitive(scope: Scope, x: Json, y: Json, z: Json)
    requires Kept(scope, x, y) && Kept(scope, y, z)
    ensures Kept(scope, x, z)
  {
  }

  lemma PreservesTransitive(scope: Scope, a: Json, b: Json, c: Json)
    requires Preserves(scope, a, b) && Preserves(scope, b, c)
    ensures Preserves(scope, a, c)
  {
    var left, middle, right := EntitiesOf(a), EntitiesOf(b), EntitiesOf(c);
    forall id ensures PreservedAt(scope, left, right, id) {
      assert PreservedAt(scope, left, middle, id) && PreservedAt(scope, middle, right, id);
      if id in left {
        KeptTransitive(scope, left[id], middle[id], right[id]);
      }
    }
  }

  /** Any chain of allowed steps, however long, keeps every entity, every setting and every source. */
  lemma {:induction false} ChainPreserves(parse: Parser, scope: Scope, chain: seq<Json>)
    requires Steps(CardPolicy(parse, scope), chain) && |chain| >= 2
    ensures Preserves(scope, chain[0], chain[|chain| - 1])
    decreases |chain|
  {
    var n := |chain| - 1;
    assert CardPolicy(parse, scope)(chain[n - 1], chain[n]);
    StepPreserves(parse, chain[n - 1], chain[n], scope);
    if n > 1 {
      var init := chain[..n];
      ChainPreserves(parse, scope, init);
      PreservesTransitive(scope, chain[0], chain[n - 1], chain[n]);
    }
  }

  /** So whatever is not a card is the same before and after an accepted transition, or is a new source. */
  lemma OthersUnchanged(parse: Parser, scope: Scope, chain: seq<Json>, id: string)
    requires Steps(CardPolicy(parse, scope), chain) && |chain| >= 2 && IsBoard(chain[0]) && IsBoard(chain[|chain| - 1])
    requires id in EntitiesOf(chain[0]) ==> !IsItem(EntitiesOf(chain[0])[id])
    requires id in EntitiesOf(chain[|chain| - 1]) ==> !IsItem(EntitiesOf(chain[|chain| - 1])[id])
    ensures Get(EntitiesOf(chain[0]), id) == Get(EntitiesOf(chain[|chain| - 1]), id)
            || (id !in EntitiesOf(chain[0]) && IsSource(id))
  {
    ChainPreserves(parse, scope, chain);
    assert PreservedAt(scope, EntitiesOf(chain[0]), EntitiesOf(chain[|chain| - 1]), id);
  }
}
