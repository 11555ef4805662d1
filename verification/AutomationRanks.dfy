/**
 How rank changes are shared among the cards of a transition. The several-card validator gives each
 rank change to the first card that leaves or enters its column. It is compared with every other way
 of giving rank changes to cards, and the transitions that only another way accepts are characterized.
 */
module AutomationRanks {
  import opened Wrappers
  import opened CanonicalJson
  import opened Automation

  // ----- Entities that differ in nothing but a rank -----

  predicate Twin(x: Json, y: Json) {
    x == y || RankOnly(x, y)
  }

  lemma TwinReads(x: Json, y: Json)
    requires Twin(x, y)
    ensures x.Obj? == y.Obj? && IsItem(x) == IsItem(y) && Parent(x) == Parent(y) && Archived(x) == Archived(y)
    ensures forall k :: k != "placement" ==> Field(x, k) == Field(y, k)
    ensures x.Obj? ==> x.fields.Keys == y.fields.Keys
  {
    if x != y {
      forall k | k != "placement" ensures Field(x, k) == Field(y, k) {
        assert Get(Without(x.fields, {"placement"}), k) == Get(Without(y.fields, {"placement"}), k);
      }
      forall k ensures k in x.fields <==> k in y.fields {
        if k != "placement" { assert Field(x, k) == Field(y, k); }
      }
    }
  }

  lemma TwinFrozen(x: Json, y: Json, allowed: seq<string>)
    requires Twin(x, y) && x.Obj? && y.Obj?
    ensures Frozen(x, allowed) == Frozen(y, allowed)
  {
    if x != y { RankFrozen(x, y, allowed); }
  }

  ghost predicate Twins(m: Entities, n: Entities) {
    m.Keys == n.Keys && forall id :: id in m ==> Twin(m[id], n[id])
  }

  lemma TwinColumn(m: Entities, n: Entities, scope: Scope, id: string)
    requires Twins(m, n)
    ensures id in Columns(m, scope) <==> id in Columns(n, scope)
  {
    if scope.boardId in m { TwinReads(m[scope.boardId], n[scope.boardId]); }
    if id in m { TwinReads(m[id], n[id]); }
  }

  lemma TwinColumns(m: Entities, n: Entities, scope: Scope)
    requires Twins(m, n)
    ensures Columns(m, scope) == Columns(n, scope)
  {
    forall id ensures id in Columns(m, scope) <==> id in Columns(n, scope) { TwinColumn(m, n, scope, id); }
  }

  lemma TwinReady(m: Entities, n: Entities, scope: Scope)
    requires Twins(m, n) && BoardReady(m, scope)
    ensures BoardReady(n, scope)
  {
    TwinColumns(m, n, scope);
    TwinReads(m[scope.boardId], n[scope.boardId]);
    forall f | f in scope.fieldIds
      ensures f in n && Text(Field(n[f], "kind")) == Some("field") && Parent(n[f]) == Some(scope.boardId)
    {
      TwinReads(m[f], n[f]);
    }
  }

  lemma TwinChild(m: Entities, n: Entities, id: string)
    requires Twins(m, n) && HasChild(m, id)
    ensures HasChild(n, id)
  {
    var k :| k in m && Text(Field(m[k], "kind")) != Some("application_source") && Parent(m[k]) == Some(id);
    TwinReads(m[k], n[k]);
  }

  // ----- A step on a partly replayed board -----

  lemma OverlayGet(m: Entities, after: Entities, keys: set<string>, id: string)
    ensures Get(Overlay(m, after, keys), id) == if id in keys then Get(after, id) else Get(m, id)
  {
  }

  /** What differs before and after one more step is what the step adds. */
  lemma StepDiffers(left: Entities, right: Entities, done: set<string>, keys: set<string>, id: string)
    ensures var m, n := Overlay(left, right, done), Overlay(left, right, done + keys);
            && (id in Changed(m, n) <==> id in Changed(left, right) && id in keys && id !in done)
            && (id in Sources(m, n) <==> id in Sources(left, right) && id in keys && id !in done)
            && (id in Ranks(m, n) <==> id in Ranks(left, right) && id in keys && id !in done)
  {
    var m, n := Overlay(left, right, done), Overlay(left, right, done + keys);
    OverlayGet(left, right, done, id);
    OverlayGet(left, right, done + keys, id);
    InChanged(m, n, id);
    InChanged(left, right, id);
    if id in keys && id !in done {
      assert Get(m, id) == Get(left, id) && Get(n, id) == Get(right, id);
    }
  }

  lemma InChanged(m: Entities, n: Entities, id: string)
    ensures id in Changed(m, n) <==> Get(m, id) != Get(n, id)
  {
  }

  /** Boards on which the same cards and sources were replayed differ in ranks alone. */
  lemma OverlayTwins(left: Entities, right: Entities, done: set<string>, done': set<string>)
    requires done - Ranks(left, right) == done' - Ranks(left, right)
    ensures Twins(Overlay(left, right, done), Overlay(left, right, done'))
  {
    var m, n := Overlay(left, right, done), Overlay(left, right, done');
    forall id ensures (id in m <==> id in n) && (id in m ==> Twin(m[id], n[id])) {
      OverlayGet(left, right, done, id);
      OverlayGet(left, right, done', id);
      if id in Ranks(left, right) {
        assert Twin(left[id], right[id]) && Twin(right[id], left[id]);
      } else {
        assert id in done <==> id in done - Ranks(left, right);
        assert id in done' <==> id in done' - Ranks(left, right);
      }
    }
  }

  function StepKeys(left: Entities, right: Entities, card: string, ranks: set<string>): set<string> {
    {card} + OwnSources(left, right, card) + ranks
  }

  // ----- A step without its rank changes -----

  /** The column that the card leaves; a new card comes from Lead. */
  function Origin(left: Entities, scope: Scope, card: string): string {
    var from := ParentIn(left, card);
    if from.Some? then from.value else scope.lead
  }

  function Target(right: Entities, card: string): string {
    var to := ParentIn(right, card);
    if to.Some? then to.value else ""
  }

  /** Every rank change of the step is in the column that the card leaves or enters. */
  predicate RanksAllowed(left: Entities, right: Entities, scope: Scope, card: string) {
    SiblingsAllowed(left, right, Columns(right, scope), Origin(left, scope, card), Target(right, card))
  }

  /** The card may change as it does, whatever ranks change with it. */
  predicate CardAlone(parse: Parser, left: Entities, right: Entities, scope: Scope, id: string) {
    && id in right && IsItem(right[id]) && !HasChild(right, id) && Text(Field(right[id], "id")) == Some(id)
    && Parent(right[id]).Some?
    && (forall s :: s in Sources(left, right) ==> s in right && SourceAppended(parse, right[s], id, id in left, left))
    && if id in left
       then ChangeAllowed(parse, left, scope, Columns(right, scope), id, left[id], right[id],
                          Sources(left, right) != {})
       else CreationAllowed(parse, scope, right[id])
  }

  /** What is asked of a step apart from its card. */
  predicate Framed(left: Entities, right: Entities, scope: Scope) {
    && BoardReady(right, scope)
    && (forall s :: s in Sources(left, right) ==> scope.version == 2 && s !in left && s in right)
    && |Sources(left, right)| <= 1 && |Cards(left, right)| == 1
  }

  predicate StepAlone(parse: Parser, left: Entities, right: Entities, scope: Scope) {
    Framed(left, right, scope) && forall id :: id in Cards(left, right) ==> CardAlone(parse, left, right, scope, id)
  }

  lemma CardSplits(parse: Parser, left: Entities, right: Entities, scope: Scope, id: string)
    ensures CardAllowed(parse, left, right, scope, id) <==>
            CardAlone(parse, left, right, scope, id) && RanksAllowed(left, right, scope, id)
  {
  }

  /** The columns that an allowed card leaves and enters are active columns of the board. */
  lemma ColumnsHold(parse: Parser, left: Entities, right: Entities, scope: Scope, id: string)
    requires BoardReady(right, scope) && CardAlone(parse, left, right, scope, id)
    ensures Origin(left, scope, id) in Columns(right, scope) && Target(right, id) in Columns(right, scope)
    ensures ParentIn(right, id).Some?
  {
    var to := Target(right, id);
    if id in left && Parent(left[id]) == Parent(right[id]) {
      assert to in Columns(right, scope);
    } else {
      ApprovedColumn(right, scope, to);
    }
  }

  lemma ApprovedColumn(entities: Entities, scope: Scope, column: string)
    requires BoardReady(entities, scope) && (MayEnter(scope, column) || MayAppear(scope, column))
    ensures column in Columns(entities, scope)
  {
  }

  lemma TwinChange(parse: Parser, m: Entities, n: Entities, scope: Scope, columns: set<string>, id: string,
                   x: Json, y: Json, x': Json, y': Json, sourced: bool)
    requires Twins(m, n) && Twin(x, x') && Twin(y, y') && ChangeAllowed(parse, m, scope, columns, id, x, y, sourced)
    ensures ChangeAllowed(parse, n, scope, columns, id, x', y', sourced)
  {
    TwinReads(x, x');
    TwinReads(y, y');
    TwinFrozen(x, x', scope.fieldIds);
    TwinFrozen(y, y', scope.fieldIds);
    if HasChild(n, id) { TwinChild(n, m, id); }
  }

  lemma TwinCreation(parse: Parser, scope: Scope, y: Json, y': Json)
    requires Twin(y, y') && CreationAllowed(parse, scope, y)
    ensures CreationAllowed(parse, scope, y')
  {
    TwinReads(y, y');
  }

  lemma TwinAlone(parse: Parser, m: Entities, m': Entities, n: Entities, n': Entities, scope: Scope, id: string)
    requires Twins(m, n) && Twins(m', n') && Sources(m, m') == Sources(n, n')
    requires forall s :: s in Sources(m, m') ==> Get(m', s) == Get(n', s)
    requires CardAlone(parse, m, m', scope, id)
    ensures CardAlone(parse, n, n', scope, id)
  {
    TwinReads(m'[id], n'[id]);
    if HasChild(n', id) { TwinChild(n', m', id); }
    forall s | s in Sources(n, n') ensures s in n' && SourceAppended(parse, n'[s], id, id in n, n) {
      assert Get(m', s) == Get(n', s) && SourceAppended(parse, m'[s], id, id in m, m);
    }
    TwinColumns(m', n', scope);
    if id in m {
      TwinChange(parse, m, n, scope, Columns(m', scope), id, m[id], m'[id], n[id], n'[id], Sources(m, m') != {});
    } else {
      TwinCreation(parse, scope, m'[id], n'[id]);
    }
  }

  // ----- A step with its rank changes -----

  /** The rank change is in a column that the card leaves or enters; for a new card also in Lead. */
  predicate Joins(left: Entities, right: Entities, scope: Scope, card: string, id: string) {
    var p := ParentIn(left, id);
    p.Some? && (p.value == Origin(left, scope, card) || p == ParentIn(right, card))
  }

  /** The step of one card, its sources and some rank changes, on the board where `done` is replayed. */
  predicate StepOk(parse: Parser, scope: Scope, left: Entities, right: Entities, done: set<string>, card: string,
                   ranks: set<string>)
  {
    EntitiesAllowed(parse, Overlay(left, right, done),
                    Overlay(left, right, done + StepKeys(left, right, card, ranks)), scope)
  }

  /** A card that is no changed source, and not yet replayed unless only its rank changes. */
  ghost predicate Fresh(left: Entities, right: Entities, done: set<string>, card: string) {
    card !in Sources(left, right) && (card in CardChanges(left, right) ==> card !in done)
  }

  lemma StepSources(left: Entities, right: Entities, done: set<string>, card: string, ranks: set<string>)
    requires ranks <= Ranks(left, right) && card !in Sources(left, right)
    ensures var m, n := Overlay(left, right, done), Overlay(left, right, done + StepKeys(left, right, card, ranks));
            && Sources(m, n) == OwnSources(left, right, card) - done
            && CardChanges(m, n) == (if card in CardChanges(left, right) && card !in done then {card} else {})
            && Ranks(m, n) == (ranks + {card} * Ranks(left, right)) - done
            && (forall s :: s in Sources(m, n) ==> Get(n, s) == Get(right, s))
  {
    var keys := StepKeys(left, right, card, ranks);
    var m, n := Overlay(left, right, done), Overlay(left, right, done + keys);
    forall id
      ensures id in Sources(m, n) <==> id in OwnSources(left, right, card) - done
      ensures id in CardChanges(m, n) <==> id == card && card in CardChanges(left, right) && card !in done
      ensures id in Ranks(m, n) <==> id in (ranks + {card} * Ranks(left, right)) - done
      ensures id in Sources(m, n) ==> Get(n, id) == Get(right, id)
    {
      StepDiffers(left, right, done, keys, id);
      OverlayGet(left, right, done + keys, id);
    }
  }

  lemma CardsFrom(m: Entities, n: Entities, right: Entities, card: string)
    requires CardChanges(m, n) <= {card} && forall s :: s in Sources(m, n) ==> Get(n, s) == Get(right, s)
    ensures Cards(m, n) == if card in CardChanges(m, n) then {card} else SourceParents(right, Sources(m, n))
  {
    if card in CardChanges(m, n) {
      assert CardChanges(m, n) == {card};
    } else {
      assert CardChanges(m, n) == {};
      forall p ensures p in Cards(m, n) <==> p in SourceParents(right, Sources(m, n)) {
        if p in Cards(m, n) {
          var s :| s in Sources(m, n) && s in n && Parent(n[s]) == Some(p);
          assert Get(n, s) == Get(right, s);
        }
        if p in SourceParents(right, Sources(m, n)) {
          var s :| s in Sources(m, n) && s in right && Parent(right[s]) == Some(p);
          assert Get(n, s) == Get(right, s);
        }
      }
    }
  }

  ghost function SourceParents(right: Entities, sources: set<string>): set<string> {
    set s | s in sources && s in right && Parent(right[s]).Some? :: Parent(right[s]).value
  }

  /** The card of the step is the card it is made for. */
  lemma StepCard(left: Entities, right: Entities, done: set<string>, card: string, ranks: set<string>)
    requires ranks <= Ranks(left, right) && card !in Sources(left, right)
    ensures var m, n := Overlay(left, right, done), Overlay(left, right, done + StepKeys(left, right, card, ranks));
            Cards(m, n) <= {card}
  {
    var m, n := Overlay(left, right, done), Overlay(left, right, done + StepKeys(left, right, card, ranks));
    StepSources(left, right, done, card, ranks);
    CardsFrom(m, n, right, card);
    forall p | p in SourceParents(right, Sources(m, n)) ensures p == card {
      var s :| s in Sources(m, n) && s in right && Parent(right[s]) == Some(p);
      assert SourceCard(left, right, s) == Some(card);
    }
  }

  lemma AllowedForOne(parse: Parser, m: Entities, n: Entities, scope: Scope, card: string)
    requires Cards(m, n) == {card} && EntitiesAllowed(parse, m, n, scope)
    ensures Framed(m, n, scope) && CardAllowed(parse, m, n, scope, card)
  {
    assert card in Cards(m, n);
  }

  lemma OneIsAllowed(parse: Parser, m: Entities, n: Entities, scope: Scope, card: string)
    requires Cards(m, n) == {card} && Framed(m, n, scope) && CardAllowed(parse, m, n, scope, card)
    ensures EntitiesAllowed(parse, m, n, scope)
  {
  }

  lemma StepSplits(parse: Parser, m: Entities, n: Entities, scope: Scope, card: string)
    requires Cards(m, n) == {card}
    ensures EntitiesAllowed(parse, m, n, scope) <==>
            StepAlone(parse, m, n, scope) && RanksAllowed(m, n, scope, card)
  {
    CardSplits(parse, m, n, scope, card);
    AloneForOne(parse, m, n, scope, card);
    if EntitiesAllowed(parse, m, n, scope) {
      AllowedForOne(parse, m, n, scope, card);
    } else if Framed(m, n, scope) && CardAllowed(parse, m, n, scope, card) {
      OneIsAllowed(parse, m, n, scope, card);
    }
  }

  lemma AloneForOne(parse: Parser, m: Entities, n: Entities, scope: Scope, card: string)
    requires Cards(m, n) == {card}
    ensures StepAlone(parse, m, n, scope) <==> Framed(m, n, scope) && CardAlone(parse, m, n, scope, card)
  {
    assert card in Cards(m, n);
  }

  lemma SameOrigin(left: Entities, right: Entities, scope: Scope, done: set<string>, card: string)
    requires Fresh(left, right, done, card)
    ensures Origin(Overlay(left, right, done), scope, card) == Origin(left, scope, card)
    ensures ParentIn(Overlay(left, right, done), card) == ParentIn(left, card)
  {
    OverlayGet(left, right, done, card);
    InChanged(left, right, card);
    if card in Ranks(left, right) { TwinReads(left[card], right[card]); }
  }

  /** A rank change not yet replayed fits the step exactly when it joins the card. */
  lemma RankJoins(scope: Scope, left: Entities, right: Entities, done: set<string>, card: string, from: string,
                  to: string, columns: set<string>, id: string)
    requires id in left && id !in done && from == Origin(left, scope, card) && ParentIn(right, card) == Some(to)
    requires from in columns && to in columns
    ensures RankFits(Overlay(left, right, done), from, to, columns, id) <==> Joins(left, right, scope, card, id)
  {
    OverlayGet(left, right, done, id);
  }

  lemma OwnRankJoins(left: Entities, right: Entities, scope: Scope, card: string)
    requires card in Ranks(left, right) && ParentIn(right, card).Some?
    ensures Joins(left, right, scope, card, card)
  {
  }

  /** The rank changes of a step are allowed exactly when each joins its card. */
  lemma RanksJoin(scope: Scope, left: Entities, right: Entities, done: set<string>, card: string, ranks: set<string>)
    requires ranks <= Ranks(left, right) && Fresh(left, right, done, card)
    requires var m, n := Overlay(left, right, done), Overlay(left, right, done + StepKeys(left, right, card, ranks));
             && ParentIn(n, card).Some?
             && Origin(m, scope, card) in Columns(n, scope) && Target(n, card) in Columns(n, scope)
    ensures var m, n := Overlay(left, right, done), Overlay(left, right, done + StepKeys(left, right, card, ranks));
            RanksAllowed(m, n, scope, card) <==>
            forall id :: id in ranks - done - {card} ==> Joins(left, right, scope, card, id)
  {
    var keys := StepKeys(left, right, card, ranks);
    var m, n := Overlay(left, right, done), Overlay(left, right, done + keys);
    SameOrigin(left, right, scope, done, card);
    assert ParentIn(right, card) == Some(Target(n, card)) by { OverlayGet(left, right, done + keys, card); }
    assert Ranks(m, n) == (ranks + {card} * Ranks(left, right)) - done by {
      StepSources(left, right, done, card, ranks);
    }
    FitsJoin(scope, left, right, done, card, ranks, n);
  }

  lemma FitsJoin(scope: Scope, left: Entities, right: Entities, done: set<string>, card: string, ranks: set<string>,
                 n: Entities)
    requires ranks <= Ranks(left, right) && ParentIn(right, card) == Some(Target(n, card))
    requires Origin(left, scope, card) in Columns(n, scope) && Target(n, card) in Columns(n, scope)
    requires var m := Overlay(left, right, done);
             && Origin(m, scope, card) == Origin(left, scope, card)
             && Ranks(m, n) == (ranks + {card} * Ranks(left, right)) - done
    ensures RanksAllowed(Overlay(left, right, done), n, scope, card) <==>
            forall id :: id in ranks - done - {card} ==> Joins(left, right, scope, card, id)
  {
    var m, columns := Overlay(left, right, done), Columns(n, scope);
    var from, to := Origin(left, scope, card), Target(n, card);
    var fits := (id: string) => RankFits(m, from, to, columns, id);
    var joins := (id: string) => Joins(left, right, scope, card, id);
    forall id | id in Ranks(m, n) ensures fits(id) <==> joins(id) {
      RankJoins(scope, left, right, done, card, from, to, columns, id);
    }
    if card in Ranks(left, right) { OwnRankJoins(left, right, scope, card); }
    AllButOne(fits, joins, Ranks(m, n), ranks - done, card);
    FitsAll(m, n, scope, card);
  }

  lemma AllButOne<T>(p: T -> bool, q: T -> bool, all: set<T>, some: set<T>, x: T)
    requires some <= all <= some + {x} && (x in all ==> q(x)) && forall y :: y in all ==> (p(y) <==> q(y))
    ensures (forall y :: y in all ==> p(y)) <==> forall y :: y in some - {x} ==> q(y)
  {
  }

  predicate RankFits(m: Entities, from: string, to: string, columns: set<string>, id: string) {
    var p := ParentIn(m, id);
    p.Some? && (p.value == from || p.value == to) && p.value in columns
  }

  lemma FitsAll(m: Entities, n: Entities, scope: Scope, card: string)
    ensures RanksAllowed(m, n, scope, card) <==>
            forall id :: id in Ranks(m, n) ==>
              RankFits(m, Origin(m, scope, card), Target(n, card), Columns(n, scope), id)
  {
  }

  /** Two steps with the same cards and sources, on boards that differ in ranks alone. */
  ghost predicate Alike(m: Entities, n: Entities, m': Entities, n': Entities) {
    && Twins(m, m') && Twins(n, n') && Sources(m, n) == Sources(m', n') && Cards(m, n) == Cards(m', n')
    && forall s :: s in Sources(m, n) ==> Get(n, s) == Get(n', s)
  }

  lemma StepsAlike(left: Entities, right: Entities, done: set<string>, done': set<string>, card: string,
                   ranks: set<string>, ranks': set<string>)
    requires done - Ranks(left, right) == done' - Ranks(left, right) && card !in Sources(left, right)
    requires ranks <= Ranks(left, right) && ranks' <= Ranks(left, right)
    ensures Alike(Overlay(left, right, done), Overlay(left, right, done + StepKeys(left, right, card, ranks)),
                  Overlay(left, right, done'), Overlay(left, right, done' + StepKeys(left, right, card, ranks')))
  {
    var keys, keys' := StepKeys(left, right, card, ranks), StepKeys(left, right, card, ranks');
    OverlayTwins(left, right, done, done');
    SameBut(done, done', keys, keys', Ranks(left, right));
    OverlayTwins(left, right, done + keys, done' + keys');
    SameCards(left, right, done, done', card, ranks, ranks');
  }

  lemma TwinStep(parse: Parser, m: Entities, n: Entities, m': Entities, n': Entities, scope: Scope)
    requires Alike(m, n, m', n') && StepAlone(parse, m, n, scope)
    ensures StepAlone(parse, m', n', scope)
  {
    TwinReady(n, n', scope);
    forall id | id in Cards(m', n') ensures CardAlone(parse, m', n', scope, id) {
      TwinAlone(parse, m, n, m', n', scope, id);
    }
  }

  lemma AlikeFlips(m: Entities, n: Entities, m': Entities, n': Entities)
    requires Alike(m, n, m', n')
    ensures Alike(m', n', m, n)
  {
  }

  lemma AlikeAlone(parse: Parser, m: Entities, n: Entities, m': Entities, n': Entities, scope: Scope)
    requires Alike(m, n, m', n')
    ensures StepAlone(parse, m, n, scope) <==> StepAlone(parse, m', n', scope)
  {
    AlikeFlips(m, n, m', n');
    if StepAlone(parse, m, n, scope) { TwinStep(parse, m, n, m', n', scope); }
    if StepAlone(parse, m', n', scope) { TwinStep(parse, m', n', m, n, scope); }
  }

  lemma SameCards(left: Entities, right: Entities, done: set<string>, done': set<string>, card: string,
                  ranks: set<string>, ranks': set<string>)
    requires done - Ranks(left, right) == done' - Ranks(left, right) && card !in Sources(left, right)
    requires ranks <= Ranks(left, right) && ranks' <= Ranks(left, right)
    ensures var m, n := Overlay(left, right, done), Overlay(left, right, done + StepKeys(left, right, card, ranks));
            var m' := Overlay(left, right, done');
            var n' := Overlay(left, right, done' + StepKeys(left, right, card, ranks'));
            && Sources(m, n) == Sources(m', n') && Cards(m, n) == Cards(m', n')
            && (forall s :: s in Sources(m, n) ==> Get(n, s) == Get(n', s))
  {
    CardsShape(left, right, done, card, ranks);
    CardsShape(left, right, done', card, ranks');
    SameOutside(left, right, done, done');
    assert OwnSources(left, right, card) - done == OwnSources(left, right, card) - done';
  }

  lemma CardsShape(left: Entities, right: Entities, done: set<string>, card: string, ranks: set<string>)
    requires ranks <= Ranks(left, right) && card !in Sources(left, right)
    ensures var m, n := Overlay(left, right, done), Overlay(left, right, done + StepKeys(left, right, card, ranks));
            var sources := OwnSources(left, right, card) - done;
            && Sources(m, n) == sources && (forall s :: s in sources ==> Get(n, s) == Get(right, s))
            && Cards(m, n) == if card in CardChanges(left, right) && card !in done then {card}
                              else SourceParents(right, sources)
  {
    var m, n := Overlay(left, right, done), Overlay(left, right, done + StepKeys(left, right, card, ranks));
    StepSources(left, right, done, card, ranks);
    CardsFrom(m, n, right, card);
  }

  lemma SameBut<T>(done: set<T>, done': set<T>, keys: set<T>, keys': set<T>, but: set<T>)
    requires done - but == done' - but && keys - but == keys' - but
    ensures (done + keys) - but == (done' + keys') - but
  {
    forall x ensures x in (done + keys) - but <==> x in (done' + keys') - but {
      assert x in done - but <==> x in done' - but;
      assert x in keys - but <==> x in keys' - but;
    }
  }

  lemma SameOutside(left: Entities, right: Entities, done: set<string>, done': set<string>)
    requires done - Ranks(left, right) == done' - Ranks(left, right)
    ensures forall id :: id !in Ranks(left, right) ==> (id in done <==> id in done')
  {
    forall id | id !in Ranks(left, right) ensures id in done <==> id in done' {
      assert id in done <==> id in done - Ranks(left, right);
      assert id in done' <==> id in done' - Ranks(left, right);
    }
  }

  /** A step is allowed exactly when it is without its rank changes and each of them joins the card. */
  lemma StepExact(parse: Parser, scope: Scope, left: Entities, right: Entities, done: set<string>, done': set<string>,
                  card: string, ranks: set<string>)
    requires done - Ranks(left, right) == done' - Ranks(left, right) && ranks <= Ranks(left, right)
    requires Fresh(left, right, done, card) && Fresh(left, right, done', card)
    ensures StepOk(parse, scope, left, right, done, card, ranks) <==>
            && StepOk(parse, scope, left, right, done', card, {})
            && forall id :: id in ranks - done - {card} ==> Joins(left, right, scope, card, id)
  {
    StepOkAlone(parse, scope, left, right, done, card, ranks);
    StepOkAlone(parse, scope, left, right, done', card, {});
    StepsAlike(left, right, done, done', card, ranks, {});
    AlikeAlone(parse, Overlay(left, right, done), Overlay(left, right, done + StepKeys(left, right, card, ranks)),
               Overlay(left, right, done'), Overlay(left, right, done' + StepKeys(left, right, card, {})), scope);
  }

  lemma StepOkAlone(parse: Parser, scope: Scope, left: Entities, right: Entities, done: set<string>, card: string,
                    ranks: set<string>)
    requires ranks <= Ranks(left, right) && Fresh(left, right, done, card)
    ensures StepOk(parse, scope, left, right, done, card, ranks) <==>
            && StepAlone(parse, Overlay(left, right, done),
                         Overlay(left, right, done + StepKeys(left, right, card, ranks)), scope)
            && forall id :: id in ranks - done - {card} ==> Joins(left, right, scope, card, id)
  {
    var m, n := Overlay(left, right, done), Overlay(left, right, done + StepKeys(left, right, card, ranks));
    StepCard(left, right, done, card, ranks);
    if Cards(m, n) == {card} {
      StepSplits(parse, m, n, scope, card);
      if StepAlone(parse, m, n, scope) {
        AloneForOne(parse, m, n, scope, card);
        ColumnsHold(parse, m, n, scope, card);
        RanksJoin(scope, left, right, done, card, ranks);
      }
    } else {
      NoCard(parse, m, n, scope, card);
    }
  }

  lemma NoCard(parse: Parser, m: Entities, n: Entities, scope: Scope, card: string)
    requires Cards(m, n) <= {card} && Cards(m, n) != {card}
    ensures !EntitiesAllowed(parse, m, n, scope) && !StepAlone(parse, m, n, scope)
  {
    assert Cards(m, n) == {};
  }
}
