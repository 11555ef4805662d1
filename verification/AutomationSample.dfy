/**
 A board on which the two automation validators differ: a new card in Applied, with the rank of a
 card in Lead changed. The step is allowed, but the several-card validator leaves the rank change out.
 */
module AutomationSample {
  import opened Wrappers
  import opened CanonicalJson
  import opened Automation

  function Placed(parent: string, rank: string): Json {
    Obj(map["parentId" := Str(parent), "rank" := Str(rank)])
  }

  function Column(): Json {
    Obj(map["kind" := Str("column"), "placement" := Placed("b", "1")])
  }

  function Card(id: string, parent: string, rank: string): Json {
    Obj(map["id" := Str(id), "body" := Str("text"), "values" := Obj(map[]), "placement" := Placed(parent, rank)])
  }

  function Top(): Json {
    Obj(map["kind" := Str("board")])
  }

  const GRANT := Scope(1, "b", "l", "i", "r", Some("a"), [])

  function Left(): Entities {
    map["b" := Top(), "l" := Column(), "i" := Column(), "r" := Column(), "a" := Column(), "c" := Card("c", "l", "1")]
  }

  function Right(): Entities {
    Left()["c" := Card("c", "l", "2")]["n" := Card("n", "a", "1")]
  }

  function Board(entities: Entities): Json {
    Obj(map["entities" := Obj(entities)])
  }

  /** The two maps, entry by entry. */
  ghost predicate Sample(left: Entities, right: Entities) {
    && left.Keys == {"b", "l", "i", "r", "a", "c"} && right.Keys == left.Keys + {"n"}
    && left["b"] == right["b"] == Top()
    && left["l"] == right["l"] == Column() && left["i"] == right["i"] == Column()
    && left["r"] == right["r"] == Column() && left["a"] == right["a"] == Column()
    && left["c"] == Card("c", "l", "1") && right["c"] == Card("c", "l", "2") && right["n"] == Card("n", "a", "1")
  }

  lemma SampleMaps()
    ensures Sample(Left(), Right())
  {
  }

  // ----- Reading the entries -----

  lemma ColumnReads()
    ensures Text(Field(Column(), "kind")) == Some("column") && Parent(Column()) == Some("b") && !Archived(Column())
  {
  }

  lemma CardReads(id: string, parent: string, rank: string)
    ensures var v := Card(id, parent, rank);
            && IsItem(v) && Parent(v) == Some(parent) && !Archived(v) && Text(Field(v, "id")) == Some(id)
            && Field(v, "kind") == None && Field(v, "workflow") == None && Field(v, "values") == Some(Obj(map[]))
            && v.fields.Keys == {"id", "body", "values", "placement"}
            && Placement(v) == Some(Placed(parent, rank))
  {
  }

  lemma TopReads()
    ensures Text(Field(Top(), "kind")) == Some("board") && Parent(Top()) == None && !Archived(Top())
    ensures Field(Top(), "archiveColumnId") == None
  {
  }

  lemma RankChanges()
    ensures RankOnly(Card("c", "l", "1"), Card("c", "l", "2")) && Card("c", "l", "1") != Card("c", "l", "2")
  {
    var x, y := Card("c", "l", "1"), Card("c", "l", "2");
    CardReads("c", "l", "1");
    CardReads("c", "l", "2");
    assert Without(x.fields, {"placement"}) == Without(y.fields, {"placement"});
    var p, q := Placed("l", "1").fields, Placed("l", "2").fields;
    assert Without(p, {"rank"}) == Without(q, {"rank"});
    assert "1"[0] != "2"[0];
    assert Get(p, "rank") == Some(Str("1")) && Get(q, "rank") == Some(Str("2"));
  }

  // ----- What changes -----

  lemma SampleChanged(left: Entities, right: Entities)
    requires Sample(left, right)
    ensures Changed(left, right) == {"c", "n"}
  {
    RankChanges();
    forall id ensures id in Changed(left, right) <==> id == "c" || id == "n" { }
  }

  lemma SampleKinds(left: Entities, right: Entities)
    requires Sample(left, right)
    ensures Sources(left, right) == {} && Ranks(left, right) == {"c"} && Cards(left, right) == {"n"}
  {
    SampleChanged(left, right);
    RankChanges();
    assert !IsSource("c") && !IsSource("n");
    assert Sources(left, right) == {};
    assert Ranks(left, right) == {"c"};
    assert Changed(left, right) - Sources(left, right) - Ranks(left, right) == {"n"};
  }

  lemma SampleColumns(left: Entities, right: Entities)
    requires Sample(left, right)
    ensures {"l", "i", "r", "a"} <= Columns(right, GRANT)
  {
    ColumnReads();
    TopReads();
    assert ArchiveColumn(right, GRANT) == None;
  }

  lemma SampleReady(left: Entities, right: Entities)
    requires Sample(left, right)
    ensures BoardReady(right, GRANT)
  {
    SampleColumns(left, right);
    TopReads();
  }

  lemma SampleLeaf(left: Entities, right: Entities)
    requires Sample(left, right)
    ensures !HasChild(right, "n")
  {
    ColumnReads();
    TopReads();
    CardReads("n", "a", "1");
    CardReads("c", "l", "2");
    forall k | k in right ensures Parent(right[k]) != Some("n") { }
  }

  lemma SampleCreation(parse: Parser)
    ensures CreationAllowed(parse, GRANT, Card("n", "a", "1"))
  {
    CardReads("n", "a", "1");
  }

  lemma SampleSiblings(left: Entities, right: Entities)
    requires Sample(left, right)
    ensures SiblingsAllowed(left, right, Columns(right, GRANT), GRANT.lead, "a")
  {
    SampleKinds(left, right);
    SampleColumns(left, right);
    CardReads("c", "l", "1");
  }

  lemma NewCardAllowed(parse: Parser, left: Entities, right: Entities, scope: Scope, id: string, column: string)
    requires Sources(left, right) == {} && id !in left && id in right && IsItem(right[id]) && !HasChild(right, id)
    requires Text(Field(right[id], "id")) == Some(id) && Parent(right[id]) == Some(column)
    requires CreationAllowed(parse, scope, right[id])
    requires SiblingsAllowed(left, right, Columns(right, scope), scope.lead, column)
    ensures CardAllowed(parse, left, right, scope, id)
  {
  }

  lemma SampleCard(parse: Parser, left: Entities, right: Entities)
    requires Sample(left, right)
    ensures CardAllowed(parse, left, right, GRANT, "n")
  {
    SampleKinds(left, right);
    SampleLeaf(left, right);
    SampleCreation(parse);
    SampleSiblings(left, right);
    CardReads("n", "a", "1");
    NewCardAllowed(parse, left, right, GRANT, "n", "a");
  }

  lemma SampleAllowed(parse: Parser, left: Entities, right: Entities)
    requires Sample(left, right)
    ensures EntitiesAllowed(parse, left, right, GRANT)
  {
    SampleKinds(left, right);
    SampleReady(left, right);
    SampleCard(parse, left, right);
  }

  lemma BoardOf(m: Entities)
    ensures IsBoard(Board(m)) && EntitiesOf(Board(m)) == m && Settings(Board(m)) == map[]
  {
  }

  lemma SampleFar(left: Entities, right: Entities)
    requires Sample(left, right)
    ensures "n" !in left && "c" in Ranks(left, right) && Parent(left["c"]) != Parent(right["n"])
  {
    SampleKinds(left, right);
    CardReads("c", "l", "1");
    CardReads("n", "a", "1");
  }

  /** An allowed one-card step that the several-card validator refuses. */
  lemma AllowedStepRefused(parse: Parser)
    ensures StepAllowed(parse, Board(Left()), Board(Right()), GRANT)
    ensures !Accepts(CardPolicy(parse, GRANT), Board(Left()), Board(Right()))
  {
    SampleMaps();
    Refused(parse, Left(), Right());
  }

  lemma Refused(parse: Parser, left: Entities, right: Entities)
    requires Sample(left, right)
    ensures StepAllowed(parse, Board(left), Board(right), GRANT)
    ensures !Accepts(CardPolicy(parse, GRANT), Board(left), Board(right))
  {
    BoardOf(left);
    BoardOf(right);
    SampleAllowed(parse, left, right);
    SampleKinds(left, right);
    OneCardExact(parse, Board(left), Board(right), GRANT, "n");
    SampleFar(left, right);
  }
}
