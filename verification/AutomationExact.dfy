/**
 What one automation step may do, read from the board and the scope alone: which change of one card and
 which new card is allowed, where a card may land, and that along any chain of steps no card comes into Lead
 but a new one.
 */
module AutomationExact {
  import opened Wrappers
  import opened CanonicalJson
  import opened Automation

  // ----- Cards and sources -----

  /** A card has a text for a body and an object of values. */
  lemma ItemExact(v: Json)
    ensures IsItem(v) <==>
              exists body, values :: Field(v, "body") == Some(Str(body)) && Field(v, "values") == Some(Obj(values))
  {
    if IsItem(v) {
      var body, values := Field(v, "body").value.s, Field(v, "values").value.fields;
      assert Field(v, "body") == Some(Str(body)) && Field(v, "values") == Some(Obj(values));
    }
  }

  /** A source is named by its prefix. */
  lemma SourceIdExact(id: string)
    ensures IsSource(id) <==> exists rest :: id == "application-source:" + rest
  {
    var prefix := "application-source:";
    if IsSource(id) {
      assert id == prefix + id[|prefix|..];
    }
  }

  // ----- The protected parts of a card -----

  /** A field of a part of the card. */
  function Inner(v: Json, part: string, k: string): Option<Json> {
    var inside := Field(v, part);
    if inside.Some? then Field(inside.value, k) else None
  }

  /** Both versions have this part as an object, or it is the same in both. */
  ghost predicate SameShape(x: Json, y: Json, part: string) {
    || Field(x, part) == Field(y, part)
    || (Field(x, part).Some? && Field(x, part).value.Obj? && Field(y, part).Some? && Field(y, part).value.Obj?)
  }

  /** Nothing differs but the two times, the workflow, approved values, the rank and the parent. */
  ghost predicate Untouched(x: Json, y: Json, approved: seq<string>) {
    && (forall k :: k !in {"updatedAt", "lastActivityAt", "workflow", "values", "placement"} ==>
          Field(x, k) == Field(y, k))
    && SameShape(x, y, "values") && (forall f :: f !in approved ==> Inner(x, "values", f) == Inner(y, "values", f))
    && SameShape(x, y, "placement")
    && (forall k :: k !in {"rank", "parentId"} ==> Inner(x, "placement", k) == Inner(y, "placement", k))
  }

  lemma WithoutExact(m: Entities, n: Entities, keys: set<string>)
    ensures Without(m, keys) == Without(n, keys) <==> forall k :: k !in keys ==> Get(m, k) == Get(n, k)
  {
    forall k ensures Get(Without(m, keys), k) == (if k in keys then None else Get(m, k)) { }
    forall k ensures Get(Without(n, keys), k) == (if k in keys then None else Get(n, k)) { }
    if forall k :: k !in keys ==> Get(m, k) == Get(n, k) {
      SameMaps(Without(m, keys), Without(n, keys));
    }
  }

  lemma PartExact(x: Json, y: Json, part: string, keys: set<string>, a: Option<Json>, b: Option<Json>)
    requires a == (if Field(x, part).Some? && Field(x, part).value.Obj?
                   then Some(Obj(Without(Field(x, part).value.fields, keys))) else Field(x, part))
    requires b == (if Field(y, part).Some? && Field(y, part).value.Obj?
                   then Some(Obj(Without(Field(y, part).value.fields, keys))) else Field(y, part))
    ensures a == b <==> SameShape(x, y, part) && forall k :: k !in keys ==> Inner(x, part, k) == Inner(y, part, k)
  {
    if Field(x, part).Some? && Field(x, part).value.Obj? && Field(y, part).Some? && Field(y, part).value.Obj? {
      WithoutExact(Field(x, part).value.fields, Field(y, part).value.fields, keys);
      forall k ensures Inner(x, part, k) == Get(Field(x, part).value.fields, k)
                       && Inner(y, part, k) == Get(Field(y, part).value.fields, k) { }
    }
  }

  lemma FrozenExact(x: Json, y: Json, approved: seq<string>)
    requires x.Obj? && y.Obj?
    ensures Frozen(x, approved) == Frozen(y, approved) <==> Untouched(x, y, approved)
  {
    WithoutExact(x.fields, y.fields, {"updatedAt", "lastActivityAt", "workflow", "values", "placement"});
    forall k ensures Field(x, k) == Get(x.fields, k) && Field(y, k) == Get(y.fields, k) { }
    var allowed := set f | f in approved;
    PartExact(x, y, "values", allowed, Frozen(x, approved).1, Frozen(y, approved).1);
    PartExact(x, y, "placement", {"rank", "parentId"}, Frozen(x, approved).2, Frozen(y, approved).2);
  }

  // ----- One existing card -----

  /** Only sources lie below this entity. */
  ghost predicate IsLeaf(entities: Entities, id: string) {
    forall k :: k in entities && Parent(entities[k]) == Some(id) ==>
      Text(Field(entities[k], "kind")) == Some("application_source")
  }

  /** The workflow record, an object or its text, names this column, a time, and nothing else. */
  ghost predicate WorkflowNames(parse: Parser, w: Json, column: string) {
    exists record, time ::
      && (w == record || (w.Str? && parse(w.s) == Some(record)))
      && record == Obj(map["columnId" := Str(column), "changedAt" := Str(time)])
      && column != "" && time != ""
  }

  /** The card stays and its approved values change, or it moves to an approved column and its workflow follows. */
  ghost predicate EditsOrMoves(parse: Parser, scope: Scope, x: Json, y: Json) {
    var to := Parent(y);
    if Parent(x) == to then
      Field(x, "values") != Field(y, "values") && Field(x, "workflow") == Field(y, "workflow")
    else
      && (to == Some(scope.interview) || to == Some(scope.rejected) || (to.Some? && to == scope.applied))
      && (|| Field(x, "workflow") == Field(y, "workflow") || Field(y, "workflow") == None
          || WorkflowNames(parse, Field(y, "workflow").value, to.value))
  }

  /** What a single change of the existing card `id` must satisfy. */
  ghost predicate MayBecome(parse: Parser, left: Entities, right: Entities, scope: Scope, id: string, x: Json,
                            y: Json)
  {
    && IsItem(x) && IsItem(y) && Text(Field(y, "id")) == Some(id) && IsLeaf(left, id) && IsLeaf(right, id)
    && Text(Field(x, "archivedAt")) == None && Text(Field(y, "archivedAt")) == None
    && Parent(x).Some? && Parent(y).Some? && Parent(x).value in Columns(right, scope)
    && Untouched(x, y, scope.fieldIds) && EditsOrMoves(parse, scope, x, y)
  }

  lemma WorkflowExact(parse: Parser, card: Json, column: string)
    ensures WorkflowMatches(parse, card, column) <==>
              Field(card, "workflow") == None || WorkflowNames(parse, Field(card, "workflow").value, column)
  {
    var w := Field(card, "workflow");
    if w.Some? {
      var record := if w.value.Obj? then Some(w.value) else if w.value.Str? then parse(w.value.s) else None;
      if Workflow(parse, w.value).Some? && Workflow(parse, w.value).value.0 == column {
        var time := Workflow(parse, w.value).value.1;
        TwoFields(record.value.fields, "columnId", "changedAt");
        assert record.value == Obj(map["columnId" := Str(column), "changedAt" := Str(time)]);
      }
    }
  }

  lemma TwoFields(m: Entities, a: string, b: string)
    requires |m| == 2 && a in m && b in m && a != b
    ensures m == map[a := m[a], b := m[b]]
  {
    assert |m.Keys| == 2;
    assert |m.Keys - {a} - {b}| == 0;
    assert m.Keys == {a, b};
  }

  lemma LeafExact(entities: Entities, id: string)
    ensures HasChild(entities, id) <==> !IsLeaf(entities, id)
  {
  }

  /** With no rank change and no source there is one card to check. */
  lemma LoneCard(parse: Parser, left: Entities, right: Entities, scope: Scope, id: string)
    requires Changed(left, right) == {id} && !IsSource(id)
    requires id in left && id in right ==> !RankOnly(left[id], right[id])
    ensures Sources(left, right) == {} && Ranks(left, right) == {} && Cards(left, right) == {id}
    ensures EntitiesAllowed(parse, left, right, scope) <==>
              BoardReady(right, scope) && CardAllowed(parse, left, right, scope, id)
  {
    assert Sources(left, right) == {} && Ranks(left, right) == {};
    assert Changed(left, right) - {} - {} == {id};
  }

  lemma ChangeExact(parse: Parser, left: Entities, scope: Scope, columns: set<string>, id: string, x: Json, y: Json)
    requires x.Obj? && y.Obj? && Parent(x).Some? && Parent(y).Some?
    ensures ChangeAllowed(parse, left, scope, columns, id, x, y, false) <==>
              && IsItem(x) && IsLeaf(left, id) && Text(Field(x, "archivedAt")) == None
              && Text(Field(y, "archivedAt")) == None && Parent(x).value in columns
              && Untouched(x, y, scope.fieldIds) && EditsOrMoves(parse, scope, x, y)
  {
    LeafExact(left, id);
    FrozenExact(x, y, scope.fieldIds);
    WorkflowExact(parse, y, Parent(y).value);
  }

  lemma PlainCard(parse: Parser, left: Entities, right: Entities, scope: Scope, id: string)
    requires Sources(left, right) == {} && Ranks(left, right) == {} && id in left && id in right
    ensures CardAllowed(parse, left, right, scope, id) <==>
              && IsItem(right[id]) && !HasChild(right, id) && Text(Field(right[id], "id")) == Some(id)
              && ChangeAllowed(parse, left, scope, Columns(right, scope), id, left[id], right[id], false)
  {
    var allowed := ChangeAllowed(parse, left, scope, Columns(right, scope), id, left[id], right[id], false);
    assert allowed ==> Parent(left[id]).Some? && Parent(right[id]).Some?;
  }

  lemma CardExact(parse: Parser, left: Entities, right: Entities, scope: Scope, id: string)
    requires Sources(left, right) == {} && Ranks(left, right) == {} && id in left && id in right
    ensures CardAllowed(parse, left, right, scope, id) <==>
              MayBecome(parse, left, right, scope, id, left[id], right[id])
  {
    var x, y, columns := left[id], right[id], Columns(right, scope);
    PlainCard(parse, left, right, scope, id);
    LeafExact(right, id);
    if x.Obj? && y.Obj? && Parent(x).Some? && Parent(y).Some? {
      ChangeExact(parse, left, scope, columns, id, x, y);
    }
  }

  /** A step that changes one existing card is allowed exactly when the board is ready and the card may so become. */
  lemma OneCardStep(parse: Parser, before: Json, after: Json, scope: Scope, id: string)
    requires IsBoard(before) && IsBoard(after)
    requires Changed(EntitiesOf(before), EntitiesOf(after)) == {id} && !IsSource(id)
    requires id in EntitiesOf(before) && id in EntitiesOf(after)
             && !RankOnly(EntitiesOf(before)[id], EntitiesOf(after)[id])
    ensures var left, right := EntitiesOf(before), EntitiesOf(after);
            StepAllowed(parse, before, after, scope) <==>
              && Settings(before) == Settings(after) && BoardReady(right, scope)
              && MayBecome(parse, left, right, scope, id, left[id], right[id])
  {
    var left, right := EntitiesOf(before), EntitiesOf(after);
    LoneCard(parse, left, right, scope, id);
    CardExact(parse, left, right, scope, id);
  }

  /** The card with another parent and nothing else changed. */
  function Reparented(x: Json, column: string): Json
    requires x.Obj? && Placement(x).Some? && Placement(x).value.Obj?
  {
    Obj(x.fields["placement" := Obj(Placement(x).value.fields["parentId" := Str(column)])])
  }

  lemma ReparentedUntouched(x: Json, column: string, approved: seq<string>)
    requires x.Obj? && Placement(x).Some? && Placement(x).value.Obj?
    ensures Untouched(x, Reparented(x, column), approved) && Parent(Reparented(x, column)) == Some(column)
    ensures forall k :: k != "placement" ==> Field(Reparented(x, column), k) == Field(x, k)
  {
  }

  lemma ReparentedMay(parse: Parser, left: Entities, right: Entities, scope: Scope, id: string, x: Json, y: Json)
    requires IsItem(x) && Text(Field(x, "id")) == Some(id) && Text(Field(x, "archivedAt")) == None
    requires IsLeaf(left, id) && IsLeaf(right, id)
    requires Parent(x).Some? && Parent(y).Some? && Parent(x) != Parent(y) && Parent(x).value in Columns(right, scope)
    requires Untouched(x, y, scope.fieldIds) && forall k :: k != "placement" ==> Field(y, k) == Field(x, k)
    ensures MayBecome(parse, left, right, scope, id, x, y) <==>
              Parent(y) == Some(scope.interview) || Parent(y) == Some(scope.rejected) || Parent(y) == scope.applied
  {
  }

  lemma LoneChange(before: Json, id: string, y: Json)
    requires IsBoard(before) && id in EntitiesOf(before) && EntitiesOf(before)[id] != y
    ensures var after := WithEntities(before, EntitiesOf(before)[id := y]);
            && IsBoard(after) && EntitiesOf(after) == EntitiesOf(before)[id := y] && Settings(before) == Settings(after)
            && Changed(EntitiesOf(before), EntitiesOf(after)) == {id}
  {
  }

  /**
   Moving an active leaf card from an active column of a ready board, its parent alone changed, is allowed
   exactly when the new column is Interview, Rejected or the approved Applied column.
   */
  lemma MoveExact(parse: Parser, before: Json, scope: Scope, id: string, column: string)
    requires IsBoard(before) && id in EntitiesOf(before) && !IsSource(id)
    requires var x := EntitiesOf(before)[id];
             && IsItem(x) && Text(Field(x, "id")) == Some(id) && Text(Field(x, "archivedAt")) == None
             && Parent(x).Some? && Parent(x) != Some(column) && Placement(x).value.Obj?
    requires var left := EntitiesOf(before);
             var right := left[id := Reparented(left[id], column)];
             && IsLeaf(left, id) && IsLeaf(right, id) && BoardReady(right, scope)
             && Parent(left[id]).value in Columns(right, scope)
    ensures var after := WithEntities(before, EntitiesOf(before)[id := Reparented(EntitiesOf(before)[id], column)]);
            StepAllowed(parse, before, after, scope) <==>
              column == scope.interview || column == scope.rejected || scope.applied == Some(column)
  {
    var x := EntitiesOf(before)[id];
    var y := Reparented(x, column);
    ReparentedUntouched(x, column, scope.fieldIds);
    LoneChange(before, id, y);
    var left, right := EntitiesOf(before), EntitiesOf(before)[id := y];
    ReparentedMay(parse, left, right, scope, id, x, y);
    OneCardStep(parse, before, WithEntities(before, right), scope, id);
  }

  // ----- One new card -----

  /** What a new card must satisfy. */
  ghost predicate MayBeNew(parse: Parser, right: Entities, scope: Scope, id: string, y: Json) {
    && IsItem(y) && Text(Field(y, "id")) == Some(id) && IsLeaf(right, id) && Text(Field(y, "archivedAt")) == None
    && (Parent(y) == Some(scope.lead) || (Parent(y).Some? && Parent(y) == scope.applied))
    && (forall k :: Field(y, k).Some? ==>
          k in {"id", "title", "body", "values", "placement", "archivedAt", "createdAt", "updatedAt",
                "lastActivityAt", "workflow", "lifecycle"})
    && (forall f :: Inner(y, "values", f).Some? ==> f in scope.fieldIds)
    && (Field(y, "workflow") == None || WorkflowNames(parse, Field(y, "workflow").value, Parent(y).value))
  }

  lemma CreationExact(parse: Parser, right: Entities, scope: Scope, id: string, y: Json)
    requires IsItem(y) && y.Obj?
    ensures MayBeNew(parse, right, scope, id, y) <==>
              && Text(Field(y, "id")) == Some(id) && !HasChild(right, id) && CreationAllowed(parse, scope, y)
  {
    LeafExact(right, id);
    if Parent(y).Some? { WorkflowExact(parse, y, Parent(y).value); }
    forall k ensures k in y.fields <==> Field(y, k).Some? { }
    forall f ensures f in Field(y, "values").value.fields <==> Inner(y, "values", f).Some? { }
  }

  lemma PlainNewCard(parse: Parser, left: Entities, right: Entities, scope: Scope, id: string)
    requires Sources(left, right) == {} && Ranks(left, right) == {} && id !in left && id in right
    ensures CardAllowed(parse, left, right, scope, id) <==>
              && IsItem(right[id]) && !HasChild(right, id) && Text(Field(right[id], "id")) == Some(id)
              && CreationAllowed(parse, scope, right[id])
  {
    assert CreationAllowed(parse, scope, right[id]) ==> Parent(right[id]).Some?;
  }

  /** A step that adds one card and changes nothing else is allowed exactly when the board is ready for that card. */
  lemma NewCardStep(parse: Parser, before: Json, after: Json, scope: Scope, id: string)
    requires IsBoard(before) && IsBoard(after)
    requires Changed(EntitiesOf(before), EntitiesOf(after)) == {id} && !IsSource(id)
    requires id !in EntitiesOf(before) && id in EntitiesOf(after)
    ensures var right := EntitiesOf(after);
            StepAllowed(parse, before, after, scope) <==>
              && Settings(before) == Settings(after) && BoardReady(right, scope)
              && MayBeNew(parse, right, scope, id, right[id])
  {
    var left, right := EntitiesOf(before), EntitiesOf(after);
    LoneCard(parse, left, right, scope, id);
    PlainNewCard(parse, left, right, scope, id);
    if IsItem(right[id]) { CreationExact(parse, right, scope, id, right[id]); }
  }

  // ----- Where cards land -----

  /** An active column of the scope's board, and not its archive. */
  ghost predicate OnBoard(entities: Entities, scope: Scope, c: string) {
    && c in entities && Text(Field(entities[c], "kind")) == Some("column")
    && Parent(entities[c]) == Some(scope.boardId) && Text(Field(entities[c], "archivedAt")) == None
    && scope.boardId in entities && Text(Field(entities[scope.boardId], "kind")) == Some("board")
    && Text(Field(entities[scope.boardId], "archivedAt")) == None
    && Text(Field(entities[scope.boardId], "archiveColumnId")) != Some(c)
  }

  lemma ScopeColumns(entities: Entities, scope: Scope, c: string)
    requires BoardReady(entities, scope)
    requires c == scope.lead || c == scope.interview || c == scope.rejected || scope.applied == Some(c)
    ensures OnBoard(entities, scope, c)
  {
    assert c in Columns(entities, scope);
  }

  lemma Destination(left: Entities, right: Entities, scope: Scope, id: string)
    requires PreservedAt(scope, left, right, id) && id in right && !IsSource(id)
    requires id in left ==> Parent(left[id]) != Parent(right[id])
    ensures var to := Parent(right[id]);
            to.Some? && (to.value == scope.lead || to.value == scope.interview || to.value == scope.rejected
                         || scope.applied == to)
  {
  }

  /** Whatever a step creates or moves, sources aside, lies in an active column of the approved board. */
  lemma LandsOnBoard(parse: Parser, before: Json, after: Json, scope: Scope, id: string)
    requires StepAllowed(parse, before, after, scope) && id in EntitiesOf(after) && !IsSource(id)
    requires id in EntitiesOf(before) ==> Parent(EntitiesOf(before)[id]) != Parent(EntitiesOf(after)[id])
    ensures var to := Parent(EntitiesOf(after)[id]); to.Some? && OnBoard(EntitiesOf(after), scope, to.value)
  {
    var left, right := EntitiesOf(before), EntitiesOf(after);
    assert PreservedAt(scope, left, right, id) by { StepPreserves(parse, before, after, scope); }
    Destination(left, right, scope, id);
    ScopeColumns(right, scope, Parent(right[id]).value);
  }

  /** Along any chain of steps a card in Lead was in Lead before, or is new, when Lead is no column to move to. */
  lemma LeadOnlyLoses(parse: Parser, scope: Scope, chain: seq<Json>, id: string)
    requires Steps(CardPolicy(parse, scope), chain) && |chain| >= 2 && IsBoard(chain[0]) && IsBoard(chain[|chain| - 1])
    requires scope.lead != scope.interview && scope.lead != scope.rejected && scope.applied != Some(scope.lead)
    requires var last := EntitiesOf(chain[|chain| - 1]); id in last && Parent(last[id]) == Some(scope.lead)
    ensures var first := EntitiesOf(chain[0]); id !in first || Parent(first[id]) == Some(scope.lead)
  {
    ChainPreserves(parse, scope, chain);
    assert PreservedAt(scope, EntitiesOf(chain[0]), EntitiesOf(chain[|chain| - 1]), id);
  }

  // ----- Sources -----

  /** The observation that a source's data holds. */
  function Observation(parse: Parser, source: Json): Option<Json> {
    var data := Text(Field(source, "data"));
    if data.None? || parse(data.value).None? then None else Field(parse(data.value).value, "observation")
  }

  /** An original comes with a new card, a refresh of a retained original with a card that was there. */
  ghost predicate Observes(parse: Parser, source: Json, left: Entities, card: string) {
    var o := Observation(parse, source);
    && o.Some?
    && if card !in left then Text(Field(o.value, "phase")) == Some("original")
       else
         && Text(Field(o.value, "phase")) == Some("refresh") && Text(Field(o.value, "originalRecordId")).Some?
         && "application-source:" + Text(Field(o.value, "originalRecordId")).value in left
  }

  lemma AppendedExact(parse: Parser, source: Json, left: Entities, card: string)
    ensures SourceAppended(parse, source, card, card in left, left) <==>
              Parent(source) == Some(card) && Observes(parse, source, left, card)
  {
  }

  /** A step adds at most one source, only under a version 2 grant, and it belongs to the step's card. */
  lemma SourceOfStep(parse: Parser, before: Json, after: Json, scope: Scope, s: string, card: string)
    requires StepAllowed(parse, before, after, scope) && card in Cards(EntitiesOf(before), EntitiesOf(after))
    requires s in EntitiesOf(after) && s !in EntitiesOf(before) && IsSource(s)
    ensures scope.version == 2 && Sources(EntitiesOf(before), EntitiesOf(after)) == {s}
    ensures Parent(EntitiesOf(after)[s]) == Some(card)
            && Observes(parse, EntitiesOf(after)[s], EntitiesOf(before), card)
  {
    var left, right := EntitiesOf(before), EntitiesOf(after);
    assert s in Sources(left, right);
    assert CardAllowed(parse, left, right, scope, card);
    AppendedExact(parse, right[s], left, card);
    OneElement(Sources(left, right), s);
  }
}
