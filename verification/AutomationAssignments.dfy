/**
 Transitions of several cards with any assignment of their rank changes. A transition has an
 assignment that works exactly when its cards replay without rank changes and each rank change joins
 some card. The several-card validator misses exactly those in which a rank change in Lead goes with
 nothing but a new card elsewhere.
 */
module AutomationAssignments {
  import opened Wrappers
  import opened Ordering
  import opened Finite
  import opened CanonicalJson
  import opened Automation
  import opened AutomationRanks

  // ----- Assignments -----

  /** To each card the rank changes that are replayed with it. */
  type Assignment = seq<set<string>>

  /** What is replayed before the card at index `n`. */
  ghost function Done(left: Entities, right: Entities, cards: seq<string>, plan: Assignment, n: nat): set<string>
    requires n <= |cards| && n <= |plan|
  {
    if n == 0 then {}
    else Done(left, right, cards, plan, n - 1) + StepKeys(left, right, cards[n - 1], plan[n - 1])
  }

  ghost predicate Assigns(left: Entities, right: Entities, cards: seq<string>, plan: Assignment) {
    |plan| == |cards| && forall i :: 0 <= i < |plan| ==> plan[i] <= Ranks(left, right)
  }

  function Nothing(cards: seq<string>): Assignment {
    seq(|cards|, i => {})
  }

  /** The cards and sources of a transition are accounted for. */
  ghost predicate Listed(left: Entities, right: Entities, cards: seq<string>) {
    && Distinct(cards) && (forall c :: c in cards <==> c in AffectedCards(left, right))
    && forall s :: s in Sources(left, right) ==> SourceCard(left, right, s).Some?
  }

  ghost predicate OkAt(parse: Parser, scope: Scope, left: Entities, right: Entities, cards: seq<string>,
                       plan: Assignment, i: nat)
    requires i < |cards| && i < |plan|
  {
    StepOk(parse, scope, left, right, Done(left, right, cards, plan, i), cards[i], plan[i])
  }

  /** Every step of the replay is allowed. */
  ghost predicate Walks(parse: Parser, scope: Scope, left: Entities, right: Entities, cards: seq<string>,
                        plan: Assignment)
    requires |plan| == |cards|
  {
    forall i :: 0 <= i < |cards| ==> OkAt(parse, scope, left, right, cards, plan, i)
  }

  lemma {:induction false} DoneFrom(left: Entities, right: Entities, cards: seq<string>, plan: Assignment, n: nat,
                                    id: string) returns (j: nat)
    requires n <= |cards| && n <= |plan| && id in Done(left, right, cards, plan, n)
    ensures j < n && id in StepKeys(left, right, cards[j], plan[j])
  {
    if id in StepKeys(left, right, cards[n - 1], plan[n - 1]) {
      j := n - 1;
    } else {
      j := DoneFrom(left, right, cards, plan, n - 1, id);
    }
  }

  lemma {:induction false} DoneHas(left: Entities, right: Entities, cards: seq<string>, plan: Assignment, n: nat,
                                   j: nat, id: string)
    requires j < n <= |cards| && n <= |plan| && id in StepKeys(left, right, cards[j], plan[j])
    ensures id in Done(left, right, cards, plan, n)
  {
    if j < n - 1 { DoneHas(left, right, cards, plan, n - 1, j, id); }
  }

  lemma KeysShared(left: Entities, right: Entities, card: string, ranks: set<string>, ranks': set<string>)
    requires ranks <= Ranks(left, right) && ranks' <= Ranks(left, right)
    ensures StepKeys(left, right, card, ranks) - Ranks(left, right) ==
            StepKeys(left, right, card, ranks') - Ranks(left, right)
  {
  }

  lemma {:induction false} DoneShared(left: Entities, right: Entities, cards: seq<string>, plan: Assignment,
                                      plan': Assignment, n: nat)
    requires Assigns(left, right, cards, plan) && Assigns(left, right, cards, plan') && n <= |cards|
    ensures Done(left, right, cards, plan, n) - Ranks(left, right) ==
            Done(left, right, cards, plan', n) - Ranks(left, right)
  {
    if n > 0 {
      DoneShared(left, right, cards, plan, plan', n - 1);
      KeysShared(left, right, cards[n - 1], plan[n - 1], plan'[n - 1]);
      SameBut(Done(left, right, cards, plan, n - 1), Done(left, right, cards, plan', n - 1),
              StepKeys(left, right, cards[n - 1], plan[n - 1]), StepKeys(left, right, cards[n - 1], plan'[n - 1]),
              Ranks(left, right));
    }
  }

  /** What is replayed and no rank change is a card or a source of an earlier card. */
  lemma DoneOtherwise(left: Entities, right: Entities, cards: seq<string>, plan: Assignment, n: nat, id: string)
    returns (j: nat)
    requires Assigns(left, right, cards, plan) && n <= |cards| && id in Done(left, right, cards, plan, n)
    requires id !in Ranks(left, right)
    ensures j < n && (id == cards[j] || id in OwnSources(left, right, cards[j]))
  {
    j := DoneFrom(left, right, cards, plan, n, id);
  }

  lemma FreshAt(left: Entities, right: Entities, cards: seq<string>, plan: Assignment, i: nat)
    requires Listed(left, right, cards) && Assigns(left, right, cards, plan) && i < |cards|
    requires cards[i] !in Sources(left, right)
    ensures Fresh(left, right, Done(left, right, cards, plan, i), cards[i])
  {
    var c := cards[i];
    if c in CardChanges(left, right) && c in Done(left, right, cards, plan, i) {
      var j := DoneOtherwise(left, right, cards, plan, i, c);
    }
  }

  // ----- No card is a changed source -----

  /** A card that a step may change is not placed under the board, so it is no column. */
  lemma CardIsNoColumn(parse: Parser, m: Entities, n: Entities, scope: Scope, card: string)
    requires BoardReady(n, scope) && CardAlone(parse, m, n, scope, card)
    ensures ParentIn(n, card) != Some(scope.boardId)
  {
    ColumnsHold(parse, m, n, scope, card);
    assert scope.boardId !in Columns(n, scope);
  }

  lemma AllowedCard(parse: Parser, m: Entities, n: Entities, scope: Scope, card: string)
    requires EntitiesAllowed(parse, m, n, scope) && card in Cards(m, n)
    ensures Framed(m, n, scope) && CardAlone(parse, m, n, scope, card)
  {
    assert CardAllowed(parse, m, n, scope, card);
    CardSplits(parse, m, n, scope, card);
  }

  /** An allowed step of a lone source is a step of the card that the source names. */
  lemma LoneSource(parse: Parser, m: Entities, n: Entities, scope: Scope, s: string)
    requires EntitiesAllowed(parse, m, n, scope) && CardChanges(m, n) == {} && s in Sources(m, n)
    ensures Sources(m, n) == {s} && s !in m && s in n && Parent(n[s]).Some?
    ensures Framed(m, n, scope) && CardAlone(parse, m, n, scope, Parent(n[s]).value)
  {
    OneElement(Sources(m, n), s);
    var card :| card in Cards(m, n);
    var s' :| s' in Sources(m, n) && s' in n && Parent(n[s']) == Some(card);
    AllowedCard(parse, m, n, scope, card);
  }

  lemma SourceStepDiffers(left: Entities, right: Entities, done: set<string>, card: string, ranks: set<string>)
    requires card in Sources(left, right) && ranks <= Ranks(left, right)
    ensures var m, n := Overlay(left, right, done), Overlay(left, right, done + StepKeys(left, right, card, ranks));
            && CardChanges(m, n) == {}
            && (forall s :: s in OwnSources(left, right, card) - done ==> s in Sources(m, n))
            && (card !in done ==> card in Sources(m, n))
  {
    var keys := StepKeys(left, right, card, ranks);
    var m, n := Overlay(left, right, done), Overlay(left, right, done + keys);
    forall id
      ensures id !in CardChanges(m, n)
      ensures id in OwnSources(left, right, card) - done || (id == card && card !in done) ==> id in Sources(m, n)
    {
      StepDiffers(left, right, done, keys, id);
    }
  }

  lemma OwnNotDone(left: Entities, right: Entities, cards: seq<string>, plan: Assignment, i: nat, s: string)
    requires Listed(left, right, cards) && Assigns(left, right, cards, plan) && i < |cards|
    requires (forall j :: 0 <= j < i ==> cards[j] !in Sources(left, right)) && s in OwnSources(left, right, cards[i])
    ensures s !in Done(left, right, cards, plan, i)
  {
    if s in Done(left, right, cards, plan, i) {
      var j := DoneOtherwise(left, right, cards, plan, i, s);
    }
  }

  lemma OwnSourceOf(left: Entities, right: Entities, cards: seq<string>, i: nat) returns (s: string)
    requires Listed(left, right, cards) && i < |cards| && cards[i] in Sources(left, right)
    ensures s in OwnSources(left, right, cards[i])
  {
    assert cards[i] in cards && cards[i] !in CardChanges(left, right);
    s :| s in Sources(left, right) && SourceCard(left, right, s) == Some(cards[i]);
  }

  /** A source cannot be its own card. */
  lemma OwnCardRefused(parse: Parser, scope: Scope, left: Entities, right: Entities, done: set<string>, card: string,
                       ranks: set<string>)
    requires card in Sources(left, right) && ranks <= Ranks(left, right) && card !in done
    requires SourceCard(left, right, card) == Some(card)
    ensures !StepOk(parse, scope, left, right, done, card, ranks)
  {
    var keys := StepKeys(left, right, card, ranks);
    var m, n := Overlay(left, right, done), Overlay(left, right, done + keys);
    if EntitiesAllowed(parse, m, n, scope) {
      SourceStepDiffers(left, right, done, card, ranks);
      LoneSource(parse, m, n, scope, card);
      OverlayGet(left, right, done, card);
      OverlayGet(left, right, done + keys, card);
      ColumnsHold(parse, m, n, scope, card);
      CardIsNoColumn(parse, m, n, scope, card);
    }
  }

  /** A source that came with its own card cannot be the card of another source. */
  lemma NestedSourceRefused(parse: Parser, scope: Scope, left: Entities, right: Entities, done: set<string>,
                            card: string, ranks: set<string>, s: string, d: string)
    requires card in Sources(left, right) && ranks <= Ranks(left, right) && card in done && d in done
    requires s in OwnSources(left, right, card) && s !in done
    requires ParentIn(right, card) == Some(d) && ParentIn(right, d) != Some(scope.boardId)
    ensures !StepOk(parse, scope, left, right, done, card, ranks)
  {
    var keys := StepKeys(left, right, card, ranks);
    var m, n := Overlay(left, right, done), Overlay(left, right, done + keys);
    if EntitiesAllowed(parse, m, n, scope) {
      SourceStepDiffers(left, right, done, card, ranks);
      LoneSource(parse, m, n, scope, s);
      OverlayGet(left, right, done + keys, s);
      OverlayGet(left, right, done, s);
      OverlayGet(left, right, done, card);
      OverlayGet(left, right, done + keys, d);
      assert Parent(n[s]) == Some(card);
      assert Origin(m, scope, card) == d;
      ColumnsHold(parse, m, n, scope, card);
    }
  }

  lemma SourcePlaced(parse: Parser, scope: Scope, left: Entities, right: Entities, done: set<string>, card: string,
                     ranks: set<string>, s: string)
    requires card !in Sources(left, right) && ranks <= Ranks(left, right)
    requires s in OwnSources(left, right, card) && s !in done && StepOk(parse, scope, left, right, done, card, ranks)
    ensures ParentIn(right, s) == Some(card) && ParentIn(right, card) != Some(scope.boardId)
  {
    var keys := StepKeys(left, right, card, ranks);
    var m, n := Overlay(left, right, done), Overlay(left, right, done + keys);
    StepCard(left, right, done, card, ranks);
    var c :| c in Cards(m, n);
    AllowedCard(parse, m, n, scope, card);
    assert s in Sources(m, n) by { StepSources(left, right, done, card, ranks); }
    assert SourceAppended(parse, n[s], card, card in m, m);
    OverlayGet(left, right, done + keys, s);
    OverlayGet(left, right, done + keys, card);
    CardIsNoColumn(parse, m, n, scope, card);
  }

  /** The first card that is a changed source is refused. */
  lemma SourceCardRefused(parse: Parser, scope: Scope, left: Entities, right: Entities, cards: seq<string>,
                          plan: Assignment, i: nat)
    requires Listed(left, right, cards) && Assigns(left, right, cards, plan) && i < |cards|
    requires Walks(parse, scope, left, right, cards, plan)
    requires forall j :: 0 <= j < i ==> cards[j] !in Sources(left, right)
    ensures cards[i] !in Sources(left, right)
  {
    var done, c := Done(left, right, cards, plan, i), cards[i];
    if c in Sources(left, right) {
      assert OkAt(parse, scope, left, right, cards, plan, i);
      var s := OwnSourceOf(left, right, cards, i);
      OwnNotDone(left, right, cards, plan, i, s);
      if c in done {
        var j := DoneOtherwise(left, right, cards, plan, i, c);
        OwnNotDone(left, right, cards, plan, j, c);
        assert OkAt(parse, scope, left, right, cards, plan, j);
        SourcePlaced(parse, scope, left, right, Done(left, right, cards, plan, j), cards[j], plan[j], c);
        DoneHas(left, right, cards, plan, i, j, cards[j]);
        NestedSourceRefused(parse, scope, left, right, done, c, plan[i], s, cards[j]);
      } else {
        OnlySource(parse, scope, left, right, done, c, plan[i], s);
        OwnCardRefused(parse, scope, left, right, done, c, plan[i]);
      }
    }
  }

  lemma OnlySource(parse: Parser, scope: Scope, left: Entities, right: Entities, done: set<string>, card: string,
                   ranks: set<string>, s: string)
    requires card in Sources(left, right) && ranks <= Ranks(left, right) && card !in done
    requires s in OwnSources(left, right, card) && s !in done && StepOk(parse, scope, left, right, done, card, ranks)
    ensures s == card
  {
    var m, n := Overlay(left, right, done), Overlay(left, right, done + StepKeys(left, right, card, ranks));
    assert s in Sources(m, n) && card in Sources(m, n) by { SourceStepDiffers(left, right, done, card, ranks); }
    OneSource(parse, m, n, scope, s, card);
  }

  lemma OneSource(parse: Parser, m: Entities, n: Entities, scope: Scope, s: string, s': string)
    requires EntitiesAllowed(parse, m, n, scope) && s in Sources(m, n) && s' in Sources(m, n)
    ensures s == s'
  {
    OneElement(Sources(m, n), s);
  }

  lemma {:induction false} NoSourceCards(parse: Parser, scope: Scope, left: Entities, right: Entities,
                                         cards: seq<string>, plan: Assignment, n: nat)
    requires Listed(left, right, cards) && Assigns(left, right, cards, plan) && n <= |cards|
    requires Walks(parse, scope, left, right, cards, plan)
    ensures forall j :: 0 <= j < n ==> cards[j] !in Sources(left, right)
  {
    if n > 0 {
      NoSourceCards(parse, scope, left, right, cards, plan, n - 1);
      SourceCardRefused(parse, scope, left, right, cards, plan, n - 1);
    }
  }

  // ----- Walks with and without rank changes -----

  /** Each rank change joins the card that it is assigned to, unless it is already replayed. */
  ghost predicate AllJoin(left: Entities, right: Entities, scope: Scope, cards: seq<string>, plan: Assignment, i: nat)
    requires i < |cards| && i < |plan|
  {
    forall id :: id in plan[i] - Done(left, right, cards, plan, i) - {cards[i]} ==>
      Joins(left, right, scope, cards[i], id)
  }

  lemma OkExact(parse: Parser, scope: Scope, left: Entities, right: Entities, cards: seq<string>, plan: Assignment,
                i: nat)
    requires Listed(left, right, cards) && Assigns(left, right, cards, plan) && i < |cards|
    requires cards[i] !in Sources(left, right)
    ensures OkAt(parse, scope, left, right, cards, plan, i) <==>
            OkAt(parse, scope, left, right, cards, Nothing(cards), i) && AllJoin(left, right, scope, cards, plan, i)
  {
    DoneShared(left, right, cards, plan, Nothing(cards), i);
    FreshAt(left, right, cards, plan, i);
    FreshAt(left, right, cards, Nothing(cards), i);
    StepExact(parse, scope, left, right, Done(left, right, cards, plan, i), Done(left, right, cards, Nothing(cards), i),
              cards[i], plan[i]);
  }

  lemma WalksExact(parse: Parser, scope: Scope, left: Entities, right: Entities, cards: seq<string>, plan: Assignment)
    requires Listed(left, right, cards) && Assigns(left, right, cards, plan)
    ensures Walks(parse, scope, left, right, cards, plan) <==>
            && Walks(parse, scope, left, right, cards, Nothing(cards))
            && forall i :: 0 <= i < |cards| ==> AllJoin(left, right, scope, cards, plan, i)
  {
    if Walks(parse, scope, left, right, cards, plan) {
      NoSourceCards(parse, scope, left, right, cards, plan, |cards|);
      forall i | 0 <= i < |cards| { OkExact(parse, scope, left, right, cards, plan, i); }
    }
    if Walks(parse, scope, left, right, cards, Nothing(cards)) {
      NoSourceCards(parse, scope, left, right, cards, Nothing(cards), |cards|);
      forall i | 0 <= i < |cards| { OkExact(parse, scope, left, right, cards, plan, i); }
    }
  }

  // ----- Reaching the target -----

  ghost predicate Covers(left: Entities, right: Entities, cards: seq<string>, plan: Assignment) {
    forall id :: id in Ranks(left, right) && id !in cards ==> exists i :: 0 <= i < |plan| && id in plan[i]
  }

  lemma CoversExact(left: Entities, right: Entities, cards: seq<string>, plan: Assignment)
    requires Listed(left, right, cards) && Assigns(left, right, cards, plan)
    ensures Overlay(left, right, Done(left, right, cards, plan, |cards|)) == right <==> Covers(left, right, cards, plan)
  {
    var n := |cards|;
    OverlayIs(left, right, Done(left, right, cards, plan, n));
    if Covers(left, right, cards, plan) {
      forall id | id in Changed(left, right) ensures id in Done(left, right, cards, plan, n) {
        var j := Replayed(left, right, cards, plan, id);
        DoneHas(left, right, cards, plan, n, j, id);
      }
    }
    if Changed(left, right) <= Done(left, right, cards, plan, n) {
      forall id | id in Ranks(left, right) && id !in cards ensures exists i :: 0 <= i < |plan| && id in plan[i] {
        var j := DoneFrom(left, right, cards, plan, n, id);
      }
    }
  }

  lemma Replayed(left: Entities, right: Entities, cards: seq<string>, plan: Assignment, id: string) returns (j: nat)
    requires Listed(left, right, cards) && Assigns(left, right, cards, plan) && Covers(left, right, cards, plan)
    requires id in Changed(left, right)
    ensures j < |cards| && id in StepKeys(left, right, cards[j], plan[j])
  {
    if id in Sources(left, right) {
      var c := SourceCard(left, right, id).value;
      assert c in SourceCards(left, right) && c in cards;
      j :| 0 <= j < |cards| && cards[j] == c;
    } else if id in cards {
      j :| 0 <= j < |cards| && cards[j] == id;
    } else {
      assert id !in CardChanges(left, right);
      j :| 0 <= j < |plan| && id in plan[j];
    }
  }

  // ----- The assignment of the validator -----

  ghost function Given(left: Entities, right: Entities, cards: seq<string>, n: nat): (plan: Assignment)
    requires n <= |cards|
    ensures |plan| == n
  {
    if n == 0 then []
    else
      var before := Given(left, right, cards, n - 1);
      before + [Share(left, right, cards, before, n - 1)]
  }

  ghost function Union(plan: Assignment): set<string> {
    set i, id | 0 <= i < |plan| && id in plan[i] :: id
  }

  /** The rank changes not given away that are relevant to the card on the board so far. */
  ghost function Share(left: Entities, right: Entities, cards: seq<string>, plan: Assignment, i: nat): set<string>
    requires i < |cards| && i <= |plan|
  {
    set id | id in Ranks(left, right) - Union(plan)
             && Relevant(Overlay(left, right, Done(left, right, cards, plan, i)), right, cards[i], id)
  }

  lemma {:induction false} DonePrefix(left: Entities, right: Entities, cards: seq<string>, plan: Assignment,
                                      plan': Assignment, i: nat)
    requires i <= |cards| && i <= |plan| && i <= |plan'| && plan[..i] == plan'[..i]
    ensures Done(left, right, cards, plan, i) == Done(left, right, cards, plan', i)
  {
    if i > 0 {
      assert plan[..i][i - 1] == plan'[..i][i - 1];
      assert plan[..i][..i - 1] == plan[..i - 1] && plan'[..i][..i - 1] == plan'[..i - 1];
      DonePrefix(left, right, cards, plan, plan', i - 1);
    }
  }

  lemma {:induction false} GivenPrefix(left: Entities, right: Entities, cards: seq<string>, i: nat, n: nat)
    requires i <= n <= |cards|
    ensures Given(left, right, cards, n)[..i] == Given(left, right, cards, i)
  {
    if i < n { GivenPrefix(left, right, cards, i, n - 1); }
  }

  /** The share of each card, in terms of the whole assignment. */
  lemma GivenAt(left: Entities, right: Entities, cards: seq<string>, i: nat)
    requires i < |cards|
    ensures var plan := Given(left, right, cards, |cards|);
            plan[i] == Share(left, right, cards, plan[..i], i)
  {
    var plan := Given(left, right, cards, |cards|);
    assert plan[..i] == Given(left, right, cards, i) by { GivenPrefix(left, right, cards, i, |cards|); }
    assert plan[..i + 1] == Given(left, right, cards, i + 1) by { GivenPrefix(left, right, cards, i + 1, |cards|); }
    assert plan[i] == plan[..i + 1][i];
  }

  lemma ShareHas(left: Entities, right: Entities, cards: seq<string>, i: nat, id: string)
    requires i < |cards|
    ensures var plan := Given(left, right, cards, |cards|);
            id in plan[i] <==>
            && id in Ranks(left, right) && id !in Union(plan[..i])
            && Relevant(Overlay(left, right, Done(left, right, cards, plan, i)), right, cards[i], id)
  {
    var plan := Given(left, right, cards, |cards|);
    GivenAt(left, right, cards, i);
    assert plan[..i][..i] == plan[..i];
    DonePrefix(left, right, cards, plan, plan[..i], i);
  }

  lemma GivenAssigns(left: Entities, right: Entities, cards: seq<string>)
    ensures Assigns(left, right, cards, Given(left, right, cards, |cards|))
  {
    forall i | 0 <= i < |cards| ensures Given(left, right, cards, |cards|)[i] <= Ranks(left, right) {
      GivenAt(left, right, cards, i);
    }
  }

  lemma RelevantShared(left: Entities, right: Entities, done: set<string>, card: string, id: string, scope: Scope)
    requires id in Ranks(left, right) && Fresh(left, right, done, card)
    ensures Relevant(Overlay(left, right, done), right, card, id) <==> Relevant(left, right, card, id)
  {
    SameOrigin(left, right, scope, done, card);
    OverlayGet(left, right, done, id);
    TwinReads(left[id], right[id]);
  }

  lemma RelevantJoins(left: Entities, right: Entities, scope: Scope, card: string, id: string)
    requires id in Ranks(left, right)
    ensures Joins(left, right, scope, card, id) <==>
            Relevant(left, right, card, id) || (ParentIn(left, card).None? && ParentIn(left, id) == Some(scope.lead))
  {
    TwinReads(left[id], right[id]);
  }

  /** Some card leaves or enters the column of the rank change. */
  ghost predicate Claimed(left: Entities, right: Entities, cards: seq<string>, id: string) {
    exists c :: c in cards && Relevant(left, right, c, id)
  }

  ghost predicate AllClaimed(left: Entities, right: Entities, cards: seq<string>) {
    forall id :: id in Ranks(left, right) && id !in cards ==> Claimed(left, right, cards, id)
  }

  lemma GivenRelevant(left: Entities, right: Entities, scope: Scope, cards: seq<string>, i: nat, id: string)
    requires Listed(left, right, cards) && i < |cards| && cards[i] !in Sources(left, right)
    ensures var plan := Given(left, right, cards, |cards|);
            id in plan[i] <==>
            id in Ranks(left, right) && id !in Union(plan[..i]) && Relevant(left, right, cards[i], id)
  {
    var plan := Given(left, right, cards, |cards|);
    ShareHas(left, right, cards, i, id);
    if id in Ranks(left, right) {
      GivenAssigns(left, right, cards);
      FreshAt(left, right, cards, plan, i);
      RelevantShared(left, right, Done(left, right, cards, plan, i), cards[i], id, scope);
    }
  }

  lemma GivenJoins(left: Entities, right: Entities, scope: Scope, cards: seq<string>, i: nat)
    requires Listed(left, right, cards) && i < |cards| && cards[i] !in Sources(left, right)
    ensures AllJoin(left, right, scope, cards, Given(left, right, cards, |cards|), i)
  {
    forall id | id in Given(left, right, cards, |cards|)[i] ensures Joins(left, right, scope, cards[i], id) {
      GivenRelevant(left, right, scope, cards, i, id);
      RelevantJoins(left, right, scope, cards[i], id);
    }
  }

  lemma GivenCovers(left: Entities, right: Entities, scope: Scope, cards: seq<string>)
    requires Listed(left, right, cards) && forall j :: 0 <= j < |cards| ==> cards[j] !in Sources(left, right)
    ensures Covers(left, right, cards, Given(left, right, cards, |cards|)) <==> AllClaimed(left, right, cards)
  {
    var plan := Given(left, right, cards, |cards|);
    forall id | id in Ranks(left, right)
      ensures (exists i :: 0 <= i < |plan| && id in plan[i]) <==> Claimed(left, right, cards, id)
    {
      if i :| 0 <= i < |plan| && id in plan[i] {
        GivenRelevant(left, right, scope, cards, i, id);
        assert cards[i] in cards;
      }
      if Claimed(left, right, cards, id) {
        var c :| c in cards && Relevant(left, right, c, id);
        var i :| 0 <= i < |cards| && cards[i] == c;
        GivenRelevant(left, right, scope, cards, i, id);
      }
    }
  }

  // ----- The replay follows it -----

  function BoardAt(before: Json, right: Entities, done: set<string>): Json
    requires IsBoard(before)
  {
    WithEntities(before, Overlay(EntitiesOf(before), right, done))
  }

  lemma BoardStart(before: Json, right: Entities)
    requires IsBoard(before)
    ensures BoardAt(before, right, {}) == before
  {
    OverlayNothing(EntitiesOf(before), right);
    SameBoard(before, before, EntitiesOf(before));
  }

  lemma OverlayMore(left: Entities, right: Entities, done: set<string>, keys: set<string>)
    ensures Overlay(Overlay(left, right, done), right, keys) == Overlay(left, right, done + keys)
  {
    var m, n := Overlay(Overlay(left, right, done), right, keys), Overlay(left, right, done + keys);
    forall id ensures Get(m, id) == Get(n, id) {
      OverlayGet(left, right, done, id);
      OverlayGet(Overlay(left, right, done), right, keys, id);
      OverlayGet(left, right, done + keys, id);
    }
    SameMaps(m, n);
  }

  lemma BoardNext(before: Json, right: Entities, done: set<string>, card: string, ranks: set<string>)
    requires IsBoard(before)
    ensures var current := BoardAt(before, right, done);
            && EntitiesOf(current) == Overlay(EntitiesOf(before), right, done)
            && NextBoard(current, EntitiesOf(before), right, card, ranks) ==
               BoardAt(before, right,
                       done + StepKeys(EntitiesOf(before), right, card, Moved(current, right, card, ranks)))
  {
    var current := BoardAt(before, right, done);
    OverlayMore(EntitiesOf(before), right, done,
                StepKeys(EntitiesOf(before), right, card, Moved(current, right, card, ranks)));
  }

  /** A step between boards of the replay is a step between their entities. */
  lemma BoardStep(parse: Parser, scope: Scope, before: Json, right: Entities, done: set<string>, keys: set<string>)
    requires IsBoard(before)
    ensures CardPolicy(parse, scope)(BoardAt(before, right, done), BoardAt(before, right, done + keys)) <==>
            EntitiesAllowed(parse, Overlay(EntitiesOf(before), right, done),
                            Overlay(EntitiesOf(before), right, done + keys), scope)
  {
    SameSettings(before, Overlay(EntitiesOf(before), right, done));
    SameSettings(before, Overlay(EntitiesOf(before), right, done + keys));
  }

  lemma SameSettings(before: Json, m: Entities)
    requires IsBoard(before)
    ensures var b := WithEntities(before, m); IsBoard(b) && EntitiesOf(b) == m && Settings(b) == Settings(before)
  {
    var b := WithEntities(before, m);
    forall k ensures Get(Settings(b), k) == Get(Settings(before), k) { }
    SameMaps(Settings(b), Settings(before));
  }

  /** Each share is what the validator moves with the card on the board so far. */
  ghost predicate Moves(before: Json, right: Entities, cards: seq<string>, plan: Assignment, i: nat)
    requires IsBoard(before) && i < |cards| && i < |plan|
  {
    var left := EntitiesOf(before);
    Moved(BoardAt(before, right, Done(left, right, cards, plan, i)), right, cards[i],
          Ranks(left, right) - Union(plan[..i])) == plan[i]
  }

  lemma GivenMoves(before: Json, right: Entities, cards: seq<string>, i: nat)
    requires IsBoard(before) && i < |cards|
    ensures Moves(before, right, cards, Given(EntitiesOf(before), right, cards, |cards|), i)
  {
    var left := EntitiesOf(before);
    var plan := Given(left, right, cards, |cards|);
    BoardNext(before, right, Done(left, right, cards, plan, i), cards[i], {});
    forall id { ShareHas(left, right, cards, i, id); }
  }

  lemma UnionSnoc(plan: Assignment, i: nat)
    requires i < |plan|
    ensures Union(plan[..i + 1]) == Union(plan[..i]) + plan[i]
  {
    var p, q := plan[..i], plan[..i + 1];
    forall id ensures id in Union(q) <==> id in Union(p) || id in plan[i] {
      if id in Union(q) {
        var j :| 0 <= j < |q| && id in q[j];
        if j < i { assert p[j] == q[j]; }
      }
      if id in Union(p) {
        var j :| 0 <= j < |p| && id in p[j];
        assert q[j] == p[j];
      }
      assert q[i] == plan[i];
    }
  }

  /** The replay from the card at `i` on, on the board that an assignment has led to. */
  ghost function ReplayAt(parse: Parser, scope: Scope, before: Json, right: Entities, cards: seq<string>,
                          plan: Assignment, i: nat): Option<Json>
    requires IsBoard(before) && i <= |cards| && i <= |plan|
  {
    var left := EntitiesOf(before);
    Replay(CardPolicy(parse, scope), BoardAt(before, right, Done(left, right, cards, plan, i)), left, right,
           cards[i..], Ranks(left, right) - Union(plan[..i]))
  }

  lemma ReplayAtStep(parse: Parser, scope: Scope, before: Json, right: Entities, cards: seq<string>, plan: Assignment,
                     i: nat)
    requires IsBoard(before) && i < |cards| && |plan| == |cards| && Moves(before, right, cards, plan, i)
    ensures ReplayAt(parse, scope, before, right, cards, plan, i) ==
            if OkAt(parse, scope, EntitiesOf(before), right, cards, plan, i)
            then ReplayAt(parse, scope, before, right, cards, plan, i + 1) else None
  {
    var left := EntitiesOf(before);
    var done, ranks := Done(left, right, cards, plan, i), Ranks(left, right);
    var current, todo := BoardAt(before, right, done), ranks - Union(plan[..i]);
    var next := NextBoard(current, left, right, cards[i], todo);
    ReplayStep(CardPolicy(parse, scope), current, left, right, cards, i, todo);
    assert next == BoardAt(before, right, done + StepKeys(left, right, cards[i], plan[i])) by {
      BoardNext(before, right, done, cards[i], todo);
    }
    assert CardPolicy(parse, scope)(current, next) <==> OkAt(parse, scope, left, right, cards, plan, i) by {
      BoardStep(parse, scope, before, right, done, StepKeys(left, right, cards[i], plan[i]));
    }
    assert todo - plan[i] == ranks - Union(plan[..i + 1]) by { UnionSnoc(plan, i); }
  }

  ghost predicate GoesOnAt<T>(at: seq<Option<T>>, ok: seq<bool>, j: nat)
    requires |at| == |ok| + 1 && j < |ok|
  {
    at[j] == if ok[j] then at[j + 1] else None
  }

  /** What goes on at each good step goes on to the end exactly when all steps are good. */
  lemma {:induction false} GoesOn<T(!new)>(at: seq<Option<T>>, ok: seq<bool>, i: nat, end: T)
    requires |at| == |ok| + 1 && i < |at| && at[|ok|] == Some(end)
    requires forall j :: 0 <= j < |ok| ==> GoesOnAt(at, ok, j)
    ensures at[i] == if forall j :: i <= j < |ok| ==> ok[j] then Some(end) else None
    decreases |at| - i
  {
    if i < |ok| {
      assert GoesOnAt(at, ok, i);
      GoesOn(at, ok, i + 1, end);
    }
  }

  lemma ReplayEnds(parse: Parser, scope: Scope, before: Json, right: Entities, cards: seq<string>, plan: Assignment)
    requires IsBoard(before) && |plan| == |cards|
    ensures ReplayAt(parse, scope, before, right, cards, plan, |cards|) ==
            Some(BoardAt(before, right, Done(EntitiesOf(before), right, cards, plan, |cards|)))
  {
    assert cards[|cards|..] == [];
  }

  /** The validator walks the assignment that it makes. */
  lemma ReplayFollows(parse: Parser, scope: Scope, before: Json, right: Entities, cards: seq<string>, plan: Assignment)
    requires IsBoard(before) && |plan| == |cards|
    requires forall i :: 0 <= i < |cards| ==> Moves(before, right, cards, plan, i)
    ensures var left := EntitiesOf(before);
            ReplayAt(parse, scope, before, right, cards, plan, 0) ==
            if Walks(parse, scope, left, right, cards, plan)
            then Some(BoardAt(before, right, Done(left, right, cards, plan, |cards|))) else None
  {
    var left, n := EntitiesOf(before), |cards|;
    var at := seq(n + 1, i requires 0 <= i < n + 1 => ReplayAt(parse, scope, before, right, cards, plan, i));
    var ok := seq(n, i requires 0 <= i < n => OkAt(parse, scope, left, right, cards, plan, i));
    AllOk(parse, scope, left, right, cards, plan, ok);
    ReplayEnds(parse, scope, before, right, cards, plan);
    forall j | 0 <= j < n ensures GoesOnAt(at, ok, j) {
      ReplayGoesOn(parse, scope, before, right, cards, plan, j, at, ok);
    }
    Concludes(at, ok, ReplayAt(parse, scope, before, right, cards, plan, 0),
              ReplayAt(parse, scope, before, right, cards, plan, n), Walks(parse, scope, left, right, cards, plan));
  }

  lemma Concludes<T(!new)>(at: seq<Option<T>>, ok: seq<bool>, first: Option<T>, last: Option<T>, all: bool)
    requires |at| == |ok| + 1 && at[0] == first && at[|ok|] == last && last.Some?
    requires (forall j :: 0 <= j < |ok| ==> GoesOnAt(at, ok, j)) && (all <==> forall i :: 0 <= i < |ok| ==> ok[i])
    ensures first == if all then last else None
  {
    GoesOn(at, ok, 0, last.value);
  }

  lemma ReplayGoesOn(parse: Parser, scope: Scope, before: Json, right: Entities, cards: seq<string>, plan: Assignment,
                     i: nat, at: seq<Option<Json>>, ok: seq<bool>)
    requires IsBoard(before) && i < |cards| && |plan| == |cards| && Moves(before, right, cards, plan, i)
    requires |ok| == |cards| && |at| == |cards| + 1 && at[i] == ReplayAt(parse, scope, before, right, cards, plan, i)
    requires at[i + 1] == ReplayAt(parse, scope, before, right, cards, plan, i + 1)
    requires ok[i] == OkAt(parse, scope, EntitiesOf(before), right, cards, plan, i)
    ensures GoesOnAt(at, ok, i)
  {
    ReplayAtStep(parse, scope, before, right, cards, plan, i);
  }

  lemma AllOk(parse: Parser, scope: Scope, left: Entities, right: Entities, cards: seq<string>, plan: Assignment,
              ok: seq<bool>)
    requires |plan| == |cards| == |ok|
    requires forall i :: 0 <= i < |ok| ==> ok[i] == OkAt(parse, scope, left, right, cards, plan, i)
    ensures Walks(parse, scope, left, right, cards, plan) <==> forall i :: 0 <= i < |ok| ==> ok[i]
  {
  }

  // ----- What the validator accepts, and what any assignment accepts -----

  /** The cards in this order, with the rank changes as assigned, replay in allowed steps and reach the target. */
  ghost predicate Works(parse: Parser, scope: Scope, left: Entities, right: Entities, cards: seq<string>,
                        plan: Assignment)
  {
    && Assigns(left, right, cards, plan) && Walks(parse, scope, left, right, cards, plan)
    && Overlay(left, right, Done(left, right, cards, plan, |cards|)) == right
  }

  /** Some assignment of the rank changes works. */
  ghost predicate Assignable(parse: Parser, scope: Scope, before: Json, after: Json) {
    && Decomposable(before, after)
    && var left, right := EntitiesOf(before), EntitiesOf(after);
    exists plan :: Works(parse, scope, left, right, SortedKeys(AffectedCards(left, right)), plan)
  }

  /** An assignment that works is a chain of allowed one-card steps. */
  lemma WorksChain(parse: Parser, scope: Scope, before: Json, after: Json, cards: seq<string>, plan: Assignment)
    returns (chain: seq<Json>)
    requires IsBoard(before) && IsBoard(after) && Settings(before) == Settings(after)
    requires Works(parse, scope, EntitiesOf(before), EntitiesOf(after), cards, plan)
    ensures Steps(CardPolicy(parse, scope), chain) && |chain| == |cards| + 1
    ensures chain[0] == before && chain[|cards|] == after
  {
    var left, right, n := EntitiesOf(before), EntitiesOf(after), |cards|;
    chain := seq(n + 1, i requires 0 <= i < n + 1 => BoardAt(before, right, Done(left, right, cards, plan, i)));
    forall i, j | 0 <= i && j == i + 1 && j < |chain| ensures CardPolicy(parse, scope)(chain[i], chain[j]) {
      ChainStep(parse, scope, before, right, cards, plan, i);
    }
    BoardStart(before, right);
    SameBoard(before, after, Overlay(left, right, Done(left, right, cards, plan, n)));
  }

  lemma ChainStep(parse: Parser, scope: Scope, before: Json, right: Entities, cards: seq<string>, plan: Assignment,
                  i: nat)
    requires IsBoard(before) && |plan| == |cards| && i < |cards|
    requires Walks(parse, scope, EntitiesOf(before), right, cards, plan)
    ensures var left := EntitiesOf(before);
            CardPolicy(parse, scope)(BoardAt(before, right, Done(left, right, cards, plan, i)),
                                     BoardAt(before, right, Done(left, right, cards, plan, i + 1)))
  {
    var left := EntitiesOf(before);
    assert OkAt(parse, scope, left, right, cards, plan, i);
    BoardStep(parse, scope, before, right, Done(left, right, cards, plan, i),
              StepKeys(left, right, cards[i], plan[i]));
  }

  /** Every rank change joins some card. */
  ghost predicate AllTaken(left: Entities, right: Entities, scope: Scope, cards: seq<string>) {
    forall id :: id in Ranks(left, right) && id !in cards ==>
      exists c :: c in cards && Joins(left, right, scope, c, id)
  }

  lemma WorksTakes(parse: Parser, scope: Scope, left: Entities, right: Entities, cards: seq<string>, plan: Assignment)
    requires Listed(left, right, cards) && Works(parse, scope, left, right, cards, plan)
    ensures Walks(parse, scope, left, right, cards, Nothing(cards)) && AllTaken(left, right, scope, cards)
  {
    WalksExact(parse, scope, left, right, cards, plan);
    CoversExact(left, right, cards, plan);
    forall id | id in Ranks(left, right) && id !in cards
      ensures exists c :: c in cards && Joins(left, right, scope, c, id) {
      var i := FirstShare(left, right, cards, plan, id);
      assert AllJoin(left, right, scope, cards, plan, i);
      assert cards[i] in cards;
    }
  }

  /** The first card that a rank change is assigned to. */
  lemma FirstShare(left: Entities, right: Entities, cards: seq<string>, plan: Assignment, id: string) returns (i: nat)
    requires Assigns(left, right, cards, plan) && Covers(left, right, cards, plan)
    requires id in Ranks(left, right) && id !in cards
    ensures i < |cards| && id in plan[i] && id !in Done(left, right, cards, plan, i)
  {
    var k :| 0 <= k < |plan| && id in plan[k];
    i := k;
    while id in Done(left, right, cards, plan, i)
      invariant i < |plan| && id in plan[i]
      decreases i
    {
      var j := DoneFrom(left, right, cards, plan, i, id);
      assert cards[j] in cards;
      i := j;
    }
  }

  /** Each card takes every rank change that joins it. */
  ghost function Greedy(left: Entities, right: Entities, scope: Scope, cards: seq<string>): Assignment {
    seq(|cards|, i requires 0 <= i < |cards| =>
      set id | id in Ranks(left, right) && Joins(left, right, scope, cards[i], id))
  }

  lemma TakenWorks(parse: Parser, scope: Scope, left: Entities, right: Entities, cards: seq<string>)
    requires Listed(left, right, cards) && Walks(parse, scope, left, right, cards, Nothing(cards))
    requires AllTaken(left, right, scope, cards)
    ensures Works(parse, scope, left, right, cards, Greedy(left, right, scope, cards))
  {
    var plan := Greedy(left, right, scope, cards);
    WalksExact(parse, scope, left, right, cards, plan);
    forall id | id in Ranks(left, right) && id !in cards ensures exists i :: 0 <= i < |plan| && id in plan[i] {
      var c :| c in cards && Joins(left, right, scope, c, id);
      var i :| 0 <= i < |cards| && cards[i] == c;
      assert id in plan[i];
    }
    CoversExact(left, right, cards, plan);
  }

  /** The validator's own assignment works exactly when the cards walk and each rank change is claimed by one. */
  lemma GivenWorks(parse: Parser, scope: Scope, left: Entities, right: Entities, cards: seq<string>)
    requires Listed(left, right, cards)
    ensures Works(parse, scope, left, right, cards, Given(left, right, cards, |cards|)) <==>
            Walks(parse, scope, left, right, cards, Nothing(cards)) && AllClaimed(left, right, cards)
  {
    var plan := Given(left, right, cards, |cards|);
    GivenAssigns(left, right, cards);
    WalksExact(parse, scope, left, right, cards, plan);
    CoversExact(left, right, cards, plan);
    if Walks(parse, scope, left, right, cards, Nothing(cards)) {
      NoSourceCards(parse, scope, left, right, cards, Nothing(cards), |cards|);
      GivenCovers(left, right, scope, cards);
      forall i | 0 <= i < |cards| ensures AllJoin(left, right, scope, cards, plan, i) {
        GivenJoins(left, right, scope, cards, i);
      }
    }
  }

  lemma ReplayIsGiven(parse: Parser, scope: Scope, before: Json, after: Json, cards: seq<string>)
    requires IsBoard(before) && IsBoard(after) && Settings(before) == Settings(after)
    ensures var left, right := EntitiesOf(before), EntitiesOf(after);
            Replay(CardPolicy(parse, scope), before, left, right, cards, Ranks(left, right)) == Some(after) <==>
            Works(parse, scope, left, right, cards, Given(left, right, cards, |cards|))
  {
    var left, right := EntitiesOf(before), EntitiesOf(after);
    var plan := Given(left, right, cards, |cards|);
    GivenAssigns(left, right, cards);
    forall i | 0 <= i < |cards| ensures Moves(before, right, cards, plan, i) { GivenMoves(before, right, cards, i); }
    ReplayFollows(parse, scope, before, right, cards, plan);
    ReplayStarts(parse, scope, before, right, cards, plan);
    SameBoard(before, after, Overlay(left, right, Done(left, right, cards, plan, |cards|)));
  }

  lemma ReplayStarts(parse: Parser, scope: Scope, before: Json, right: Entities, cards: seq<string>, plan: Assignment)
    requires IsBoard(before) && |plan| == |cards|
    ensures var left := EntitiesOf(before);
            ReplayAt(parse, scope, before, right, cards, plan, 0) ==
            Replay(CardPolicy(parse, scope), before, left, right, cards, Ranks(left, right))
  {
    BoardStart(before, right);
    assert cards[0..] == cards && plan[..0] == [];
    assert Ranks(EntitiesOf(before), right) - Union([]) == Ranks(EntitiesOf(before), right);
  }

  ghost function CardsOf(before: Json, after: Json): seq<string>
    requires IsBoard(before) && IsBoard(after)
  {
    SortedKeys(AffectedCards(EntitiesOf(before), EntitiesOf(after)))
  }

  lemma CardsListed(before: Json, after: Json)
    requires Decomposable(before, after)
    ensures Listed(EntitiesOf(before), EntitiesOf(after), CardsOf(before, after))
  {
    StrOrder();
    KeysSorted(AffectedCards(EntitiesOf(before), EntitiesOf(after)));
    SortedDistinct(StrLess, CardsOf(before, after));
  }

  /** The cards can be replayed one after the other without any rank change. */
  ghost predicate CardsWalk(parse: Parser, scope: Scope, before: Json, after: Json)
    requires IsBoard(before) && IsBoard(after)
  {
    var cards := CardsOf(before, after);
    Walks(parse, scope, EntitiesOf(before), EntitiesOf(after), cards, Nothing(cards))
  }

  /** Some assignment works exactly when the cards replay without ranks and each rank change joins a card. */
  lemma AssignableExactly(parse: Parser, scope: Scope, before: Json, after: Json)
    ensures Assignable(parse, scope, before, after) <==>
            && Decomposable(before, after) && CardsWalk(parse, scope, before, after)
            && AllTaken(EntitiesOf(before), EntitiesOf(after), scope, CardsOf(before, after))
  {
    if Decomposable(before, after) {
      var left, right, cards := EntitiesOf(before), EntitiesOf(after), CardsOf(before, after);
      CardsListed(before, after);
      if Assignable(parse, scope, before, after) {
        var plan :| Works(parse, scope, left, right, cards, plan);
        WorksTakes(parse, scope, left, right, cards, plan);
      }
      if CardsWalk(parse, scope, before, after) && AllTaken(left, right, scope, cards) {
        TakenWorks(parse, scope, left, right, cards);
      }
    }
  }

  /** The validator accepts exactly when the cards replay without ranks and each rank change is in a column of one. */
  lemma AcceptsExactly(parse: Parser, scope: Scope, before: Json, after: Json)
    ensures Accepts(CardPolicy(parse, scope), before, after) <==>
            && Decomposable(before, after) && CardsWalk(parse, scope, before, after)
            && AllClaimed(EntitiesOf(before), EntitiesOf(after), CardsOf(before, after))
  {
    if Decomposable(before, after) {
      CardsListed(before, after);
      GivenWorks(parse, scope, EntitiesOf(before), EntitiesOf(after), CardsOf(before, after));
      ReplayIsGiven(parse, scope, before, after, CardsOf(before, after));
    }
  }

  /**
   The exact gap: of the transitions with an assignment that works, the validator refuses those with a rank change
   in Lead that no card leaves or enters, and no others; so it refuses none in which no card is new.
   */
  lemma RankGap(parse: Parser, scope: Scope, before: Json, after: Json)
    ensures Accepts(CardPolicy(parse, scope), before, after) ==> Assignable(parse, scope, before, after)
    ensures Assignable(parse, scope, before, after) ==>
              var left, right, cards := EntitiesOf(before), EntitiesOf(after), CardsOf(before, after);
              && (Accepts(CardPolicy(parse, scope), before, after) <==>
                    forall id :: id in Ranks(left, right) && id !in cards && ParentIn(left, id) == Some(scope.lead) ==>
                      Claimed(left, right, cards, id))
              && ((forall c :: c in cards ==> ParentIn(left, c).Some?) ==>
                    Accepts(CardPolicy(parse, scope), before, after))
  {
    AssignableExactly(parse, scope, before, after);
    AcceptsExactly(parse, scope, before, after);
    if Decomposable(before, after) {
      TakenOrClaimed(EntitiesOf(before), EntitiesOf(after), scope, CardsOf(before, after));
    }
  }

  lemma TakenOrClaimed(left: Entities, right: Entities, scope: Scope, cards: seq<string>)
    ensures AllClaimed(left, right, cards) ==> AllTaken(left, right, scope, cards)
    ensures AllTaken(left, right, scope, cards) ==>
              && (AllClaimed(left, right, cards) <==>
                    forall id :: id in Ranks(left, right) && id !in cards && ParentIn(left, id) == Some(scope.lead) ==>
                      Claimed(left, right, cards, id))
              && ((forall c :: c in cards ==> ParentIn(left, c).Some?) ==> AllClaimed(left, right, cards))
  {
    forall id, c | id in Ranks(left, right) && c in cards
      ensures Joins(left, right, scope, c, id) <==>
              Relevant(left, right, c, id) || (ParentIn(left, c).None? && ParentIn(left, id) == Some(scope.lead))
    {
      RelevantJoins(left, right, scope, c, id);
    }
  }

  /** Every allowed one-card step is a transition with an assignment that works: all ranks go with its card. */
  lemma OneStepAssignable(parse: Parser, scope: Scope, before: Json, after: Json)
    requires StepAllowed(parse, before, after, scope)
    ensures Assignable(parse, scope, before, after)
  {
    var left, right := EntitiesOf(before), EntitiesOf(after);
    var card :| card in Cards(left, right);
    OnlyCard(parse, left, right, scope, card);
    OwnSource(parse, left, right, scope, card);
    OneAffected(left, right, card);
    SingleKey(card);
    OneStepWorks(parse, scope, left, right, card);
  }

  lemma OneStepWorks(parse: Parser, scope: Scope, left: Entities, right: Entities, card: string)
    requires EntitiesAllowed(parse, left, right, scope) && AffectedCards(left, right) == {card}
    requires forall s :: s in Sources(left, right) ==> SourceCard(left, right, s).Some?
    ensures Works(parse, scope, left, right, [card], [Ranks(left, right)])
  {
    var ranks := Ranks(left, right);
    var keys := StepKeys(left, right, card, ranks);
    assert Overlay(left, right, keys) == right by {
      DifferencesCovered(left, right, card, ranks);
      OverlayIs(left, right, keys);
    }
    OverlayNothing(left, right);
    assert {} + keys == keys;
    WorksAtOnce(parse, scope, left, right, card, ranks);
  }

  lemma WorksAtOnce(parse: Parser, scope: Scope, left: Entities, right: Entities, card: string, ranks: set<string>)
    requires ranks <= Ranks(left, right) && StepOk(parse, scope, left, right, {}, card, ranks)
    requires Overlay(left, right, {} + StepKeys(left, right, card, ranks)) == right
    ensures Works(parse, scope, left, right, [card], [ranks])
  {
    assert Done(left, right, [card], [ranks], 0) == {};
    assert OkAt(parse, scope, left, right, [card], [ranks], 0);
  }

  lemma OverlayNothing(left: Entities, right: Entities)
    ensures Overlay(left, right, {}) == left
  {
    forall id ensures Get(Overlay(left, right, {}), id) == Get(left, id) { OverlayGet(left, right, {}, id); }
    SameMaps(Overlay(left, right, {}), left);
  }
}
