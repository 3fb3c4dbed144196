/** A worked instance of the layering: with three tables `u`, `p` and `c`,
    where `p` references `u` and `c` references both `p` and `u` (users,
    posts and comments), the walk discovers `c` from `u` first, so it shares
    layer 1 with `p` instead of getting the longest-path layer 2. */
module LayoutExample {
  import opened Wrappers
  import opened Schema
  import opened Layout

  predicate Apart(u: string, p: string, c: string) {
    u != p && p != c && u != c
  }

  function Blank(name: string): Table {
    Table(name, [], [], "", None, None, 0.0, 0.0, None)
  }

  function Tables3(u: string, p: string, c: string): seq<Table> {
    [Blank(u), Blank(p), Blank(c)]
  }

  function Rels3(u: string, p: string, c: string): seq<Relationship> {
    [Relationship(p, "user_id", u, "id"),
     Relationship(c, "post_id", p, "id"),
     Relationship(c, "user_id", u, "id")]
  }

  lemma NamesOf(u: string, p: string, c: string)
    ensures Names(Tables3(u, p, c)) == {u, p, c}
  {
    var ts := Tables3(u, p, c);
    assert ts[0].name == u && ts[1].name == p && ts[2].name == c;
  }

  lemma OutOf(u: string, p: string, c: string, n: string)
    requires Apart(u, p, c)
    ensures OutSet(Rels3(u, p, c), {u, p, c}, n)
            == (if n == p then {u} else if n == c then {p, u} else {})
  {
    var rs, names := Rels3(u, p, c), {u, p, c};
    OutSetSnoc(rs, names, n, 0);
    OutSetSnoc(rs, names, n, 1);
    OutSetSnoc(rs, names, n, 2);
    assert rs[..0] == [] && rs[..3] == rs;
  }

  lemma OutSetSnoc(rels: seq<Relationship>, names: set<string>, n: string, k: nat)
    requires k < |rels|
    ensures OutSet(rels[..k + 1], names, n)
            == OutSet(rels[..k], names, n) + (if ValidEdge(names, rels[k]) && rels[k].fromTable == n then {rels[k].toTable} else {})
  {
    assert rels[..k + 1][..k] == rels[..k];
  }

  lemma IncomingSnoc(rels: seq<Relationship>, names: set<string>, n: string, k: nat)
    requires k < |rels|
    ensures var prev := Incoming(rels[..k], names, n);
            Incoming(rels[..k + 1], names, n)
            == if ValidEdge(names, rels[k]) && rels[k].toTable == n && rels[k].fromTable !in prev then prev + [rels[k].fromTable] else prev
  {
    assert rels[..k + 1][..k] == rels[..k];
  }

  lemma SeedsOf(u: string, p: string, c: string)
    requires Apart(u, p, c)
    ensures Seeded(Tables3(u, p, c), Rels3(u, p, c)) == W0(u)
  {
    var ts, rs := Tables3(u, p, c), Rels3(u, p, c);
    NamesOf(u, p, c);
    var names := Names(ts);
    OutOf(u, p, c, u);
    OutOf(u, p, c, p);
    OutOf(u, p, c, c);
    assert ts[..0] == [];
    var w0 := Seeds(ts[..0], rs, names);
    assert w0 == Walk([], map[], []);
    SeedsSnoc(ts, rs, names, 0);
    assert |OutSet(rs, names, u)| == 0;
    var w1 := Seeds(ts[..1], rs, names);
    assert w1 == AddSeed(w0, u);
    SeedsSnoc(ts, rs, names, 1);
    assert |OutSet(rs, names, p)| == 1;
    assert Seeds(ts[..2], rs, names) == w1;
    SeedsSnoc(ts, rs, names, 2);
    assert |OutSet(rs, names, c)| == 2;
    assert ts[..3] == ts;
    assert Seeds(ts, rs, names) == w1;
  }

  lemma IncomingOf(u: string, p: string, c: string, n: string)
    requires Apart(u, p, c)
    ensures Incoming(Rels3(u, p, c), {u, p, c}, n)
            == (if n == u then [p, c] else if n == p then [c] else [])
  {
    var rs, names := Rels3(u, p, c), {u, p, c};
    IncomingSnoc(rs, names, n, 0);
    IncomingSnoc(rs, names, n, 1);
    IncomingSnoc(rs, names, n, 2);
    assert rs[..0] == [] && rs[..3] == rs;
  }

  function Refs3(u: string, p: string, c: string): map<string, seq<string>> {
    map[u := [p, c], p := [c], c := []]
  }

  lemma RefsOf(u: string, p: string, c: string)
    requires Apart(u, p, c)
    ensures InRefs(Rels3(u, p, c), {u, p, c}) == Refs3(u, p, c)
  {
    IncomingOf(u, p, c, u);
    IncomingOf(u, p, c, p);
    IncomingOf(u, p, c, c);
  }

  function W0(u: string): Walk { Walk([u], map[u := 0], [u]) }
  function W1(u: string, p: string, c: string): Walk {
    Walk([p, c], map[u := 0, p := 1, c := 1], [u, p, c])
  }
  function W2(u: string, p: string, c: string): Walk { Walk([c], W1(u, p, c).layers, W1(u, p, c).order) }
  function W3(u: string, p: string, c: string): Walk { Walk([], W1(u, p, c).layers, W1(u, p, c).order) }

  lemma Invs(u: string, p: string, c: string)
    requires Apart(u, p, c)
    ensures WalkInv({u, p, c}, W0(u)) && WalkInv({u, p, c}, W1(u, p, c))
    ensures WalkInv({u, p, c}, W2(u, p, c)) && WalkInv({u, p, c}, W3(u, p, c))
    ensures RefsWithin(Refs3(u, p, c), {u, p, c})
  {
  }

  /** `u` is dequeued and both `p` and `c` join layer 1. */
  lemma Step1(u: string, p: string, c: string)
    requires Apart(u, p, c)
    requires WalkInv({u, p, c}, W0(u)) && RefsWithin(Refs3(u, p, c), {u, p, c})
    ensures Step(Refs3(u, p, c), {u, p, c}, W0(u)) == W1(u, p, c)
  {
    var a := Walk([], map[u := 0], [u]);
    DiscoverTwo(p, c, 1, a);
    StepDiscovers(Refs3(u, p, c), {u, p, c}, W0(u), W1(u, p, c));
  }

  /** Two new children in a row are both queued on `layer`. */
  lemma DiscoverTwo(x: string, y: string, layer: nat, w: Walk)
    requires x !in w.layers && y !in w.layers && x != y
    ensures Discover([x, y], layer, w)
            == Walk(w.queue + [x, y], w.layers[x := layer][y := layer], w.order + [x, y])
  {
    var w' := Walk(w.queue + [x], w.layers[x := layer], w.order + [x]);
    assert [x, y][1..] == [y];
    assert [y][1..] == [];
    assert w'.queue + [y] == w.queue + [x, y] && w'.order + [y] == w.order + [x, y];
  }

  /** `p` is dequeued; `c` is already placed. */
  lemma Step2(u: string, p: string, c: string)
    requires Apart(u, p, c)
    requires WalkInv({u, p, c}, W1(u, p, c)) && RefsWithin(Refs3(u, p, c), {u, p, c})
    ensures Step(Refs3(u, p, c), {u, p, c}, W1(u, p, c)) == W2(u, p, c)
  {
    assert [c][1..] == [];
    assert Discover([c], 2, W2(u, p, c)) == W2(u, p, c);
    StepDiscovers(Refs3(u, p, c), {u, p, c}, W1(u, p, c), W2(u, p, c));
  }

  lemma Step3(u: string, p: string, c: string)
    requires Apart(u, p, c)
    requires WalkInv({u, p, c}, W2(u, p, c)) && RefsWithin(Refs3(u, p, c), {u, p, c})
    ensures Step(Refs3(u, p, c), {u, p, c}, W2(u, p, c)) == W3(u, p, c)
  {
    StepDiscovers(Refs3(u, p, c), {u, p, c}, W2(u, p, c), W3(u, p, c));
  }

  lemma RunOf(u: string, p: string, c: string)
    requires Apart(u, p, c)
    ensures WalkInv({u, p, c}, W0(u)) && RefsWithin(Refs3(u, p, c), {u, p, c})
    ensures Run(Refs3(u, p, c), {u, p, c}, W0(u)) == W3(u, p, c)
  {
    Invs(u, p, c);
    Step1(u, p, c);
    Step2(u, p, c);
    Step3(u, p, c);
    assert Run(Refs3(u, p, c), {u, p, c}, W2(u, p, c)) == W3(u, p, c);
    assert Run(Refs3(u, p, c), {u, p, c}, W1(u, p, c)) == W3(u, p, c);
  }

  lemma FinishOf(u: string, p: string, c: string)
    requires Apart(u, p, c)
    requires WalkInv({u, p, c}, W3(u, p, c))
    ensures Finish(Tables3(u, p, c), W3(u, p, c), {u, p, c}) == W3(u, p, c)
  {
    var ts := Tables3(u, p, c);
    assert ts[..|ts| - 1] == ts[..2] && ts[..2][..1] == ts[..1] && ts[..1][..0] == [];
    assert Finish(ts[..1], W3(u, p, c), {u, p, c}) == W3(u, p, c);
    assert Finish(ts[..2], W3(u, p, c), {u, p, c}) == W3(u, p, c);
  }

  /** The layers of the pattern: `c` is on layer 1, not 2. */
  lemma LayersOf(u: string, p: string, c: string)
    requires Apart(u, p, c)
    ensures FinalWalk(Tables3(u, p, c), Rels3(u, p, c)).layers == map[u := 0, p := 1, c := 1]
  {
    NamesOf(u, p, c);
    SeedsOf(u, p, c);
    RefsOf(u, p, c);
    Invs(u, p, c);
    RunOf(u, p, c);
    FinishOf(u, p, c);
    assert FinalWalk(Tables3(u, p, c), Rels3(u, p, c))
           == Finish(Tables3(u, p, c), Run(Refs3(u, p, c), {u, p, c}, W0(u)), {u, p, c});
  }

  /** The same with the names of a blog schema. */
  lemma BlogLayers()
    ensures FinalWalk(Tables3("users", "posts", "comments"), Rels3("users", "posts", "comments")).layers
            == map["users" := 0, "posts" := 1, "comments" := 1]
  {
    LayersOf("users", "posts", "comments");
  }
}
