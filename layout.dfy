/** Hierarchical auto-layout (`autoLayoutTables`): tables are put in layers by a
    breadth-first walk that starts at the tables referencing nobody and follows
    foreign keys backwards; each layer is a column 500 units to the right of the
    previous one, its tables stacked 80 units apart and centred on y = 0. */
module Layout {
  import opened Wrappers
  import opened Schema
  import opened Geometry

  const ColumnSpacing: real := 500.0
  const RowSpacing: real := 80.0

  function Names(tables: seq<Table>): set<string> {
    set i | 0 <= i < |tables| :: tables[i].name
  }

  /** A relationship takes part in the layout when both its ends name tables. */
  predicate ValidEdge(names: set<string>, r: Relationship) {
    r.fromTable in names && r.toTable in names
  }

  /** `refsOut.get(n)`: the tables `n` references. */
  function OutSet(rels: seq<Relationship>, names: set<string>, n: string): set<string>
    decreases |rels|
  {
    if |rels| == 0 then {}
    else
      var last := rels[|rels| - 1];
      OutSet(rels[..|rels| - 1], names, n)
      + (if ValidEdge(names, last) && last.fromTable == n then {last.toTable} else {})
  }

  predicate Distinct(s: seq<string>) {
    forall i, j :: 0 <= i < j < |s| ==> s[i] != s[j]
  }

  /** `refsIn.get(n)` in the insertion order of its `Set`: the tables that
      reference `n`, each once, in the order their first relationship appears. */
  function Incoming(rels: seq<Relationship>, names: set<string>, n: string): (r: seq<string>)
    ensures Distinct(r)
    ensures forall c :: c in r ==> c in names
    decreases |rels|
  {
    if |rels| == 0 then []
    else
      var last := rels[|rels| - 1];
      var prev := Incoming(rels[..|rels| - 1], names, n);
      if ValidEdge(names, last) && last.toTable == n && last.fromTable !in prev then prev + [last.fromTable]
      else prev
  }

  /** Every table returned by `Incoming` really references `n`. */
  lemma {:induction false} IncomingReferences(rels: seq<Relationship>, names: set<string>, n: string, c: string)
    requires c in Incoming(rels, names, n)
    ensures exists k :: 0 <= k < |rels| && rels[k] == Relationship(c, rels[k].fromColumn, n, rels[k].toColumn)
    decreases |rels|
  {
    var init := rels[..|rels| - 1];
    if c in Incoming(init, names, n) {
      IncomingReferences(init, names, n, c);
      var k :| 0 <= k < |init| && init[k] == Relationship(c, init[k].fromColumn, n, init[k].toColumn);
      assert rels[k] == init[k];
    } else {
      assert rels[|rels| - 1].fromTable == c && rels[|rels| - 1].toTable == n;
    }
  }

  /** The state of the walk: the queue, the layer of every visited table (the
      keys are the visited set), and the insertion order of `layers`. */
  datatype Walk = Walk(queue: seq<string>, layers: map<string, nat>, order: seq<string>)

  predicate WalkInv(names: set<string>, w: Walk) {
    w.layers.Keys <= names
    && (forall q :: q in w.queue ==> q in w.layers)
    && (forall n :: n in w.order ==> n in w.layers)
    && (forall n :: n in w.layers ==> n in w.order)
    && Distinct(w.order)
  }

  /** `refsIn`: the tables referencing each table, keyed by table name. */
  function InRefs(rels: seq<Relationship>, names: set<string>): (m: map<string, seq<string>>)
    ensures m.Keys == names
    ensures forall n :: n in names ==> m[n] == Incoming(rels, names, n)
  {
    map n | n in names :: Incoming(rels, names, n)
  }

  /** Every referencing table listed in `refs` is a table. */
  predicate RefsWithin(refs: map<string, seq<string>>, names: set<string>) {
    forall p, c :: p in refs && c in refs[p] ==> c in names
  }

  lemma InRefsWithin(rels: seq<Relationship>, names: set<string>)
    ensures RefsWithin(InRefs(rels, names), names)
  {
  }

  /** `refsIn.get(current) || []`. */
  function Children(refs: map<string, seq<string>>, cur: string): seq<string> {
    if cur in refs then refs[cur] else []
  }

  /** `p` is listed as referenced by `n`, and `n` is one layer right of it. */
  predicate ParentOf(refs: map<string, seq<string>>, layers: map<string, nat>, n: string, p: string)
    requires n in layers
  {
    p in layers && n in Children(refs, p) && layers[n] == layers[p] + 1
  }

  /** Every table above layer 0 sits one layer right of a table it
      references. */
  ghost predicate Parented(refs: map<string, seq<string>>, layers: map<string, nat>) {
    forall n :: n in layers && layers[n] > 0 ==> exists p :: ParentOf(refs, layers, n, p)
  }

  /** Old entries of `layers` are never reassigned. */
  predicate Extends(a: map<string, nat>, b: map<string, nat>) {
    forall n :: n in a ==> n in b && b[n] == a[n]
  }

  /** The seeding loop over `ts`: every table that references nobody starts at
      layer 0 and is queued. */
  function Seeds(ts: seq<Table>, rels: seq<Relationship>, names: set<string>): (w: Walk)
    requires forall i :: 0 <= i < |ts| ==> ts[i].name in names
    ensures WalkInv(names, w)
    ensures forall n :: n in w.layers ==> w.layers[n] == 0
    ensures forall n :: n in w.layers ==> n in w.queue
    ensures |w.queue| == 0 ==> w.layers == map[]
    decreases |ts|
  {
    if |ts| == 0 then Walk([], map[], [])
    else
      var w := Seeds(ts[..|ts| - 1], rels, names);
      var n := ts[|ts| - 1].name;
      if |OutSet(rels, names, n)| == 0 then AddSeed(w, n) else w
  }

  /** One turn of the seeding loop for a table that references nobody. */
  function AddSeed(w: Walk, n: string): Walk {
    Walk(w.queue + [n], w.layers[n := 0], if n in w.layers then w.order else w.order + [n])
  }

  lemma SeedsSnoc(ts: seq<Table>, rels: seq<Relationship>, names: set<string>, k: nat)
    requires k < |ts| && forall i :: 0 <= i < |ts| ==> ts[i].name in names
    ensures forall i :: 0 <= i < k ==> ts[..k][i].name in names
    ensures var w := Seeds(ts[..k], rels, names);
            Seeds(ts[..k + 1], rels, names)
            == if |OutSet(rels, names, ts[k].name)| == 0 then AddSeed(w, ts[k].name) else w
  {
    assert ts[..k + 1][..k] == ts[..k];
  }

  lemma {:induction false} SeedsRoots(ts: seq<Table>, rels: seq<Relationship>, names: set<string>, i: nat)
    requires forall k :: 0 <= k < |ts| ==> ts[k].name in names
    requires i < |ts| && |OutSet(rels, names, ts[i].name)| == 0
    ensures ts[i].name in Seeds(ts, rels, names).layers
    decreases |ts|
  {
    if i < |ts| - 1 {
      SeedsRoots(ts[..|ts| - 1], rels, names, i);
    }
  }

  lemma {:induction false} SeedsNoRoots(ts: seq<Table>, rels: seq<Relationship>, names: set<string>)
    requires forall k :: 0 <= k < |ts| ==> ts[k].name in names
    requires forall k :: 0 <= k < |ts| ==> |OutSet(rels, names, ts[k].name)| > 0
    ensures Seeds(ts, rels, names) == Walk([], map[], [])
    decreases |ts|
  {
    if |ts| > 0 {
      SeedsNoRoots(ts[..|ts| - 1], rels, names);
    }
  }

  /** The walk after seeding, with the fallback for a graph without roots. */
  function Seeded(tables: seq<Table>, rels: seq<Relationship>): (w: Walk)
    requires |tables| > 0
    ensures WalkInv(Names(tables), w)
    ensures forall n :: n in w.layers ==> w.layers[n] == 0
    ensures forall n :: n in w.layers ==> n in w.queue
    ensures |w.queue| > 0
  {
    var names := Names(tables);
    var w := Seeds(tables, rels, names);
    if |w.queue| == 0 then Walk([tables[0].name], map[tables[0].name := 0], [tables[0].name]) else w
  }

  /** The inner `for` of the walk: the children not yet visited get `layer`
      and are queued. */
  function Discover(children: seq<string>, layer: nat, w: Walk): (r: Walk)
    ensures Extends(w.layers, r.layers)
    ensures forall n :: n in r.layers && n !in w.layers ==> r.layers[n] == layer && n in children
    ensures forall c :: c in children ==> c in r.layers
    ensures r.layers.Keys == w.layers.Keys ==> r == w
    decreases |children|
  {
    if |children| == 0 then w
    else
      var c := children[0];
      var w' := if c in w.layers then w else Walk(w.queue + [c], w.layers[c := layer], w.order + [c]);
      Discover(children[1..], layer, w')
  }

  lemma {:induction false} DiscoverInv(children: seq<string>, layer: nat, w: Walk, names: set<string>)
    requires WalkInv(names, w)
    requires forall c :: c in children ==> c in names
    ensures WalkInv(names, Discover(children, layer, w))
    decreases |children|
  {
    if |children| > 0 {
      var c := children[0];
      var w' := if c in w.layers then w else Walk(w.queue + [c], w.layers[c := layer], w.order + [c]);
      DiscoverInv(children[1..], layer, w', names);
    }
  }

  lemma {:induction false} CardMono(a: set<string>, b: set<string>)
    requires a <= b
    ensures |a| <= |b|
    decreases |a|
  {
    if a != {} {
      var x :| x in a;
      CardMono(a - {x}, b - {x});
    }
  }

  lemma SubsetCard(names: set<string>, a: set<string>, b: set<string>)
    requires a <= b <= names
    ensures a != b ==> |names - b| < |names - a|
  {
    if a != b {
      var x :| x in b && x !in a;
      CardMono(names - b, (names - a) - {x});
    }
  }

  lemma ChildrenWithin(refs: map<string, seq<string>>, names: set<string>, cur: string)
    requires RefsWithin(refs, names)
    ensures forall c :: c in Children(refs, cur) ==> c in names
  {
  }

  /** Dequeue the head of the queue and discover `children` on `layer`. */
  function Advance(children: seq<string>, layer: nat, w: Walk, ghost names: set<string>): (r: Walk)
    requires WalkInv(names, w) && |w.queue| > 0
    requires forall c :: c in children ==> c in names
    ensures WalkInv(names, r)
    ensures Extends(w.layers, r.layers)
  {
    var w1 := Walk(w.queue[1..], w.layers, w.order);
    DiscoverInv(children, layer, w1, names);
    Discover(children, layer, w1)
  }

  /** One turn of the walk: dequeue a table and discover the tables that
      reference it, one layer further right. */
  function Step(refs: map<string, seq<string>>, names: set<string>, w: Walk): (r: Walk)
    requires WalkInv(names, w) && RefsWithin(refs, names) && |w.queue| > 0
    ensures WalkInv(names, r)
    ensures Extends(w.layers, r.layers)
  {
    ChildrenWithin(refs, names, w.queue[0]);
    Advance(Children(refs, w.queue[0]), w.layers[w.queue[0]] + 1, w, names)
  }

  lemma StepDiscovers(refs: map<string, seq<string>>, names: set<string>, w: Walk, r: Walk)
    requires WalkInv(names, w) && RefsWithin(refs, names) && |w.queue| > 0
    requires r == Discover(Children(refs, w.queue[0]), w.layers[w.queue[0]] + 1, Walk(w.queue[1..], w.layers, w.order))
    ensures r == Step(refs, names, w)
  {
  }

  /** Each turn either visits a new table or shortens the queue. */
  lemma StepDecreases(refs: map<string, seq<string>>, names: set<string>, w: Walk)
    requires WalkInv(names, w) && RefsWithin(refs, names) && |w.queue| > 0
    ensures var r := Step(refs, names, w);
            |names - r.layers.Keys| < |names - w.layers.Keys|
            || (r.layers.Keys == w.layers.Keys && |r.queue| < |w.queue|)
  {
    SubsetCard(names, w.layers.Keys, Step(refs, names, w).layers.Keys);
  }

  /** The `while (queue.length > 0)` of the walk. */
  function Run(refs: map<string, seq<string>>, names: set<string>, w: Walk): (r: Walk)
    requires WalkInv(names, w) && RefsWithin(refs, names)
    ensures WalkInv(names, r)
    ensures Extends(w.layers, r.layers)
    ensures |r.queue| == 0
    decreases |names - w.layers.Keys|, |w.queue|
  {
    if |w.queue| == 0 then w
    else
      StepDecreases(refs, names, w);
      Run(refs, names, Step(refs, names, w))
  }

  /** The "disconnected tables" loop: whatever the walk did not reach is put in
      layer 0. */
  function Finish(ts: seq<Table>, w: Walk, names: set<string>): (r: Walk)
    requires WalkInv(names, w)
    requires forall i :: 0 <= i < |ts| ==> ts[i].name in names
    ensures WalkInv(names, r)
    ensures Extends(w.layers, r.layers)
    ensures forall n :: n in r.layers && n !in w.layers ==> r.layers[n] == 0
    ensures forall i :: 0 <= i < |ts| ==> ts[i].name in r.layers
    decreases |ts|
  {
    if |ts| == 0 then w
    else
      var r := Finish(ts[..|ts| - 1], w, names);
      var r' := AddUnreached(r, ts[|ts| - 1].name, names);
      FinishStep(ts, ts[..|ts| - 1], w, r, r');
      r'
  }

  /** One turn of the "disconnected tables" loop. */
  function AddUnreached(r: Walk, n: string, ghost names: set<string>): (r': Walk)
    requires WalkInv(names, r) && n in names
    ensures WalkInv(names, r')
    ensures Extends(r.layers, r'.layers)
    ensures forall m :: m in r'.layers && m !in r.layers ==> r'.layers[m] == 0
    ensures n in r'.layers
  {
    if n !in r.layers then Walk(r.queue, r.layers[n := 0], r.order + [n]) else r
  }

  lemma FinishStep(ts: seq<Table>, init: seq<Table>, w: Walk, r: Walk, r': Walk)
    requires |ts| > 0 && init == ts[..|ts| - 1]
    requires Extends(w.layers, r.layers) && Extends(r.layers, r'.layers)
    requires forall n :: n in r.layers && n !in w.layers ==> r.layers[n] == 0
    requires forall m :: m in r'.layers && m !in r.layers ==> r'.layers[m] == 0
    requires forall i :: 0 <= i < |init| ==> init[i].name in r.layers
    requires ts[|ts| - 1].name in r'.layers
    ensures Extends(w.layers, r'.layers)
    ensures forall n :: n in r'.layers && n !in w.layers ==> r'.layers[n] == 0
    ensures forall i :: 0 <= i < |ts| ==> ts[i].name in r'.layers
  {
    forall i | 0 <= i < |ts| - 1 ensures ts[i].name in r'.layers {
      assert init[i] == ts[i];
    }
  }

  /** The layer of every table name, and the insertion order of the `layers`
      map, as `autoLayoutTables` computes them. */
  function FinalWalk(tables: seq<Table>, rels: seq<Relationship>): (r: Walk)
    requires |tables| > 0
    ensures WalkInv(Names(tables), r)
  {
    var names := Names(tables);
    InRefsWithin(rels, names);
    Finish(tables, Run(InRefs(rels, names), names, Seeded(tables, rels)), names)
  }

  lemma KeepParent(refs: map<string, seq<string>>, a: map<string, nat>, b: map<string, nat>, n: string, p: string)
    requires Extends(a, b) && n in a && ParentOf(refs, a, n, p)
    ensures n in b && ParentOf(refs, b, n, p)
  {
  }

  lemma StepParented(refs: map<string, seq<string>>, names: set<string>, w: Walk)
    requires WalkInv(names, w) && RefsWithin(refs, names) && |w.queue| > 0
    requires Parented(refs, w.layers)
    ensures Parented(refs, Step(refs, names, w).layers)
  {
    var cur := w.queue[0];
    var r := Step(refs, names, w);
    forall n | n in r.layers && r.layers[n] > 0
      ensures exists p :: ParentOf(refs, r.layers, n, p)
    {
      if n in w.layers {
        var p :| ParentOf(refs, w.layers, n, p);
        KeepParent(refs, w.layers, r.layers, n, p);
      } else {
        assert ParentOf(refs, r.layers, n, cur);
      }
    }
  }

  lemma {:induction false} RunParented(refs: map<string, seq<string>>, names: set<string>, w: Walk)
    requires WalkInv(names, w) && RefsWithin(refs, names)
    requires Parented(refs, w.layers)
    ensures Parented(refs, Run(refs, names, w).layers)
    decreases |names - w.layers.Keys|, |w.queue|
  {
    if |w.queue| > 0 {
      StepParented(refs, names, w);
      StepDecreases(refs, names, w);
      RunParented(refs, names, Step(refs, names, w));
    }
  }

  lemma ParentedAfterFinish(ts: seq<Table>, refs: map<string, seq<string>>, names: set<string>, w: Walk)
    requires WalkInv(names, w)
    requires forall i :: 0 <= i < |ts| ==> ts[i].name in names
    requires Parented(refs, w.layers)
    ensures Parented(refs, Finish(ts, w, names).layers)
  {
    var r := Finish(ts, w, names);
    forall n | n in r.layers && r.layers[n] > 0
      ensures exists p :: ParentOf(refs, r.layers, n, p)
    {
      var p :| ParentOf(refs, w.layers, n, p);
      KeepParent(refs, w.layers, r.layers, n, p);
    }
  }

  /** Every table gets a layer. */
  lemma FinalWalkCovers(tables: seq<Table>, rels: seq<Relationship>)
    requires |tables| > 0
    ensures FinalWalk(tables, rels).layers.Keys == Names(tables)
  {
    var names := Names(tables);
    var w2 := FinalWalk(tables, rels);
    forall n | n in names ensures n in w2.layers {
      var i :| 0 <= i < |tables| && tables[i].name == n;
    }
  }

  /** When some table references no other, every such table is on layer 0. */
  lemma FinalWalkRoots(tables: seq<Table>, rels: seq<Relationship>, i: nat)
    requires i < |tables| && |OutSet(rels, Names(tables), tables[i].name)| == 0
    ensures var L := FinalWalk(tables, rels).layers;
            tables[i].name in L && L[tables[i].name] == 0
  {
    var names := Names(tables);
    var seeds := Seeds(tables, rels, names);
    SeedsRoots(tables, rels, names, i);
    assert Seeded(tables, rels) == seeds;
  }

  /** When every table references another (a cycle through all of them), the
      walk starts from the first table, which is on layer 0. */
  lemma FinalWalkFallback(tables: seq<Table>, rels: seq<Relationship>)
    requires |tables| > 0
    requires forall i :: 0 <= i < |tables| ==> |OutSet(rels, Names(tables), tables[i].name)| > 0
    ensures var L := FinalWalk(tables, rels).layers;
            tables[0].name in L && L[tables[0].name] == 0
  {
    SeedsNoRoots(tables, rels, Names(tables));
    assert Seeded(tables, rels).layers == map[tables[0].name := 0];
  }

  lemma FinalWalkParentedRefs(tables: seq<Table>, rels: seq<Relationship>)
    requires |tables| > 0
    ensures Parented(InRefs(rels, Names(tables)), FinalWalk(tables, rels).layers)
  {
    var names := Names(tables);
    var refs := InRefs(rels, names);
    InRefsWithin(rels, names);
    var w0 := Seeded(tables, rels);
    assert Parented(refs, w0.layers);
    RunParented(refs, names, w0);
    ParentedAfterFinish(tables, refs, names, Run(refs, names, w0));
  }

  lemma ParentedReferences(rels: seq<Relationship>, names: set<string>, L: map<string, nat>, n: string)
    requires Parented(InRefs(rels, names), L)
    requires n in L && L[n] > 0
    ensures exists p, k :: p in L && L[n] == L[p] + 1 && 0 <= k < |rels|
                           && rels[k].fromTable == n && rels[k].toTable == p
  {
    var refs := InRefs(rels, names);
    var p :| ParentOf(refs, L, n, p);
    assert p in names && n in Incoming(rels, names, p);
    IncomingReferences(rels, names, p, n);
    var k :| 0 <= k < |rels| && rels[k] == Relationship(n, rels[k].fromColumn, p, rels[k].toColumn);
    assert p in L && L[n] == L[p] + 1 && rels[k].fromTable == n && rels[k].toTable == p;
  }

  /** Every table on a later layer is exactly one layer right of a table it
      references (`FinalWalkFirstDiscovery` adds that this is the nearest
      reached one). */
  lemma FinalWalkParented(tables: seq<Table>, rels: seq<Relationship>, n: string)
    requires |tables| > 0
    requires var L := FinalWalk(tables, rels).layers; n in L && L[n] > 0
    ensures var L := FinalWalk(tables, rels).layers;
            exists p, k :: p in L && L[n] == L[p] + 1 && 0 <= k < |rels|
                           && rels[k].fromTable == n && rels[k].toTable == p
  {
    FinalWalkParentedRefs(tables, rels);
    ParentedReferences(rels, Names(tables), FinalWalk(tables, rels).layers, n);
  }

  // ---------------------------------------------------------------------
  // First discovery: the layer is one more than the nearest reached parent
  // ---------------------------------------------------------------------

  /** Every table a relationship names as its source is listed among the
      tables referencing its target. */
  lemma {:induction false} IncomingContains(rels: seq<Relationship>, names: set<string>, k: nat)
    requires k < |rels| && ValidEdge(names, rels[k])
    ensures rels[k].fromTable in Incoming(rels, names, rels[k].toTable)
    decreases |rels|
  {
    if k < |rels| - 1 {
      var init := rels[..|rels| - 1];
      assert init[k] == rels[k];
      IncomingContains(init, names, k);
    }
  }

  /** The tables `Discover` visits, in the order it queues them. */
  function Added(children: seq<string>, layer: nat, w: Walk): seq<string>
    decreases |children|
  {
    if |children| == 0 then []
    else
      var c := children[0];
      if c in w.layers then Added(children[1..], layer, w)
      else [c] + Added(children[1..], layer, Walk(w.queue + [c], w.layers[c := layer], w.order + [c]))
  }

  /** `Discover` appends the tables it visits to the queue. */
  lemma {:induction false} DiscoverAppends(children: seq<string>, layer: nat, w: Walk)
    ensures Discover(children, layer, w).queue == w.queue + Added(children, layer, w)
    decreases |children|
  {
    if |children| > 0 {
      var c := children[0];
      if c !in w.layers {
        var w' := Walk(w.queue + [c], w.layers[c := layer], w.order + [c]);
        DiscoverAppends(children[1..], layer, w');
        assert w.queue + [c] + Added(children[1..], layer, w') == w.queue + ([c] + Added(children[1..], layer, w'));
      } else {
        DiscoverAppends(children[1..], layer, w);
      }
    }
  }

  /** The tables `Discover` queues are exactly the newly visited ones, all on
      `layer`. */
  lemma {:induction false} AddedLayers(children: seq<string>, layer: nat, w: Walk)
    ensures var r := Discover(children, layer, w);
            var a := Added(children, layer, w);
            (forall x :: x in a ==> x in r.layers && r.layers[x] == layer)
            && (forall n :: n in r.layers && n !in w.layers ==> n in a)
    decreases |children|
  {
    if |children| > 0 {
      var c := children[0];
      if c !in w.layers {
        var w' := Walk(w.queue + [c], w.layers[c := layer], w.order + [c]);
        AddedLayers(children[1..], layer, w');
      } else {
        AddedLayers(children[1..], layer, w);
      }
    }
  }

  /** The invariant of the breadth-first walk: the queue's layers never
      decrease and span at most one layer, no visited table is more than one
      layer beyond the head of the queue, and every table that has left the
      queue has all the tables referencing it visited, at most one layer
      further right. */
  ghost predicate BfsInv(refs: map<string, seq<string>>, w: Walk) {
    Queued(w) && Ordered(w) && HeadBound(w) && Closed(refs, w)
  }

  /** Every queued table is visited. */
  predicate Queued(w: Walk) {
    forall q :: q in w.queue ==> q in w.layers
  }

  /** The queue's layers never decrease and span at most one layer. */
  predicate Ordered(w: Walk)
    requires Queued(w)
  {
    forall i, j :: 0 <= i < j < |w.queue| ==>
      w.layers[w.queue[i]] <= w.layers[w.queue[j]] <= w.layers[w.queue[i]] + 1
  }

  /** No visited table is more than one layer beyond the head of the queue. */
  predicate HeadBound(w: Walk)
    requires Queued(w)
  {
    |w.queue| > 0 ==> forall v :: v in w.layers ==> w.layers[v] <= w.layers[w.queue[0]] + 1
  }

  /** Every visited table no longer queued has its referencing tables visited,
      each at most one layer further right. */
  ghost predicate Closed(refs: map<string, seq<string>>, w: Walk) {
    forall p, c :: p in w.layers && p !in w.queue && c in Children(refs, p) ==>
      c in w.layers && w.layers[c] <= w.layers[p] + 1
  }

  /** The walk after dequeuing `w`'s head and discovering the tables that
      reference it: what `Step` computes. */
  function Dequeued(refs: map<string, seq<string>>, w: Walk): Walk
    requires |w.queue| > 0 && w.queue[0] in w.layers
  {
    Discover(Children(refs, w.queue[0]), w.layers[w.queue[0]] + 1, Walk(w.queue[1..], w.layers, w.order))
  }

  /** The queue after a step: the old tail, then the newly visited tables,
      all on the next layer. */
  lemma DequeuedQueue(refs: map<string, seq<string>>, w: Walk)
    requires |w.queue| > 0 && w.queue[0] in w.layers
    ensures var a := Added(Children(refs, w.queue[0]), w.layers[w.queue[0]] + 1, Walk(w.queue[1..], w.layers, w.order));
            var r := Dequeued(refs, w);
            r.queue == w.queue[1..] + a
            && (forall x :: x in a ==> x in r.layers && r.layers[x] == w.layers[w.queue[0]] + 1)
            && (forall n :: n in r.layers && n !in w.layers ==> n in a)
  {
    var ch, layer := Children(refs, w.queue[0]), w.layers[w.queue[0]] + 1;
    var w1 := Walk(w.queue[1..], w.layers, w.order);
    assert Dequeued(refs, w) == Discover(ch, layer, w1);
    DiscoverAppends(ch, layer, w1);
    AddedLayers(ch, layer, w1);
  }

  /** After a step every queued table is on the dequeued table's layer or the
      next one, and the newly queued ones on the next. */
  lemma DequeuedSpan(refs: map<string, seq<string>>, w: Walk)
    requires |w.queue| > 0 && Queued(w) && Ordered(w)
    ensures var r := Dequeued(refs, w);
            var h := w.layers[w.queue[0]];
            forall i :: 0 <= i < |r.queue| ==>
              r.queue[i] in r.layers && h <= r.layers[r.queue[i]] <= h + 1
              && (i < |w.queue| - 1 ==> r.queue[i] == w.queue[i + 1])
              && (i >= |w.queue| - 1 ==> r.layers[r.queue[i]] == h + 1)
  {
    var r := Dequeued(refs, w);
    var h := w.layers[w.queue[0]];
    var m := |w.queue| - 1;
    var a := Added(Children(refs, w.queue[0]), h + 1, Walk(w.queue[1..], w.layers, w.order));
    DequeuedQueue(refs, w);
    assert Extends(w.layers, r.layers);
    forall i | 0 <= i < m
      ensures r.queue[i] == w.queue[i + 1] && r.queue[i] in r.layers && h <= r.layers[r.queue[i]] <= h + 1
    {
      assert r.queue[i] == w.queue[i + 1];
      assert h <= w.layers[w.queue[i + 1]] <= h + 1;
    }
    forall i | m <= i < |r.queue|
      ensures r.queue[i] in r.layers && r.layers[r.queue[i]] == h + 1
    {
      assert r.queue[i] == a[i - m];
    }
  }

  lemma DequeuedOrdered(refs: map<string, seq<string>>, w: Walk)
    requires |w.queue| > 0 && Queued(w) && Ordered(w)
    ensures Queued(Dequeued(refs, w)) && Ordered(Dequeued(refs, w))
  {
    var r := Dequeued(refs, w);
    var m := |w.queue| - 1;
    DequeuedSpan(refs, w);
    forall i, j | 0 <= i < j < |r.queue|
      ensures r.layers[r.queue[i]] <= r.layers[r.queue[j]] <= r.layers[r.queue[i]] + 1
    {
      if j < m {
        assert w.layers[w.queue[i + 1]] <= w.layers[w.queue[j + 1]] <= w.layers[w.queue[i + 1]] + 1;
      }
    }
  }

  lemma DequeuedHead(refs: map<string, seq<string>>, w: Walk)
    requires |w.queue| > 0 && Queued(w) && Ordered(w) && HeadBound(w)
    ensures Queued(Dequeued(refs, w)) && HeadBound(Dequeued(refs, w))
  {
    var r := Dequeued(refs, w);
    var h := w.layers[w.queue[0]];
    DequeuedSpan(refs, w);
    DequeuedQueue(refs, w);
    if |r.queue| > 0 {
      forall v | v in r.layers ensures r.layers[v] <= h + 1 {
        if v in w.layers {
          assert w.layers[v] <= h + 1;
        }
      }
    }
  }

  lemma DequeuedClosed(refs: map<string, seq<string>>, w: Walk)
    requires |w.queue| > 0 && Queued(w) && HeadBound(w) && Closed(refs, w)
    ensures Closed(refs, Dequeued(refs, w))
  {
    var cur := w.queue[0];
    var r := Dequeued(refs, w);
    DequeuedQueue(refs, w);
    forall p, c | p in r.layers && p !in r.queue && c in Children(refs, p)
      ensures c in r.layers && r.layers[c] <= r.layers[p] + 1
    {
      if p == cur {
        if c in w.layers {
          assert w.layers[c] <= w.layers[cur] + 1;
        }
      } else {
        assert p in w.layers;
        assert p !in w.queue[1..];
        assert w.queue == [cur] + w.queue[1..];
        assert p !in w.queue;
      }
    }
  }

  /** One step keeps the invariant of the walk. */
  lemma DequeuedBfs(refs: map<string, seq<string>>, w: Walk)
    requires |w.queue| > 0 && BfsInv(refs, w)
    ensures BfsInv(refs, Dequeued(refs, w))
  {
    DequeuedOrdered(refs, w);
    DequeuedHead(refs, w);
    DequeuedClosed(refs, w);
  }

  lemma StepBfs(refs: map<string, seq<string>>, names: set<string>, w: Walk)
    requires WalkInv(names, w) && RefsWithin(refs, names) && |w.queue| > 0
    requires BfsInv(refs, w)
    ensures BfsInv(refs, Step(refs, names, w))
  {
    StepDiscovers(refs, names, w, Dequeued(refs, w));
    DequeuedBfs(refs, w);
  }

  lemma {:induction false} RunBfs(refs: map<string, seq<string>>, names: set<string>, w: Walk)
    requires WalkInv(names, w) && RefsWithin(refs, names)
    requires BfsInv(refs, w)
    ensures BfsInv(refs, Run(refs, names, w))
    decreases |names - w.layers.Keys|, |w.queue|
  {
    if |w.queue| > 0 {
      StepBfs(refs, names, w);
      StepDecreases(refs, names, w);
      RunBfs(refs, names, Step(refs, names, w));
    }
  }

  /** The walk once its queue is empty, before the tables it never reached are
      put on layer 0. */
  function Walked(tables: seq<Table>, rels: seq<Relationship>): (w: Walk)
    requires |tables| > 0
    ensures var L := FinalWalk(tables, rels).layers;
            Extends(w.layers, L) && forall n :: n in L && n !in w.layers ==> L[n] == 0
  {
    var names := Names(tables);
    InRefsWithin(rels, names);
    Run(InRefs(rels, names), names, Seeded(tables, rels))
  }

  /** The tables the walk reaches from its seeds. */
  function Reached(tables: seq<Table>, rels: seq<Relationship>): (r: set<string>)
    requires |tables| > 0
    ensures r <= Names(tables)
    ensures forall n :: n in r ==> n in FinalWalk(tables, rels).layers
  {
    Walked(tables, rels).layers.Keys
  }

  /** After the walk every visited table has all the tables referencing it
      visited, at most one layer further right. */
  lemma WalkedClosed(tables: seq<Table>, rels: seq<Relationship>)
    requires |tables| > 0
    ensures Closed(InRefs(rels, Names(tables)), Walked(tables, rels))
            && |Walked(tables, rels).queue| == 0
  {
    var names := Names(tables);
    var refs := InRefs(rels, names);
    InRefsWithin(rels, names);
    var w0 := Seeded(tables, rels);
    assert BfsInv(refs, w0);
    RunBfs(refs, names, w0);
  }

  /** Every table the walk puts on a later layer is one layer right of a
      visited table it references. */
  lemma WalkedParented(tables: seq<Table>, rels: seq<Relationship>)
    requires |tables| > 0
    ensures Parented(InRefs(rels, Names(tables)), Walked(tables, rels).layers)
  {
    var names := Names(tables);
    var refs := InRefs(rels, names);
    InRefsWithin(rels, names);
    var w0 := Seeded(tables, rels);
    assert Parented(refs, w0.layers);
    RunParented(refs, names, w0);
  }

  /** A relationship into a reached table comes from a reached table at most
      one layer further right: the walk visits every referencing table of a
      table it dequeues, so first discovery can never put a table further
      right than one past a reached table it references. */
  lemma FinalWalkReachedEdge(tables: seq<Table>, rels: seq<Relationship>, k: nat)
    requires |tables| > 0 && k < |rels| && ValidEdge(Names(tables), rels[k])
    requires rels[k].toTable in Reached(tables, rels)
    ensures var L := FinalWalk(tables, rels).layers;
            rels[k].fromTable in Reached(tables, rels)
            && L[rels[k].fromTable] <= L[rels[k].toTable] + 1
  {
    WalkedClosed(tables, rels);
    ClosedEdge(rels, Names(tables), Walked(tables, rels), FinalWalk(tables, rels).layers, k);
  }

  /** The edge bound for any finished walk whose layers `L` extends. */
  lemma ClosedEdge(rels: seq<Relationship>, names: set<string>, w: Walk, L: map<string, nat>, k: nat)
    requires Closed(InRefs(rels, names), w) && |w.queue| == 0 && Extends(w.layers, L)
    requires k < |rels| && ValidEdge(names, rels[k]) && rels[k].toTable in w.layers
    ensures rels[k].fromTable in w.layers && L[rels[k].fromTable] <= L[rels[k].toTable] + 1
  {
    IncomingContains(rels, names, k);
    assert rels[k].fromTable in Children(InRefs(rels, names), rels[k].toTable);
  }

  /** A table on a later layer was reached by the walk, one layer right of a
      reached table it references. */
  lemma FinalWalkReachedParent(tables: seq<Table>, rels: seq<Relationship>, n: string)
    requires |tables| > 0
    requires var L := FinalWalk(tables, rels).layers; n in L && L[n] > 0
    ensures n in Reached(tables, rels)
    ensures var L := FinalWalk(tables, rels).layers;
            exists p, k :: p in Reached(tables, rels) && L[n] == L[p] + 1 && 0 <= k < |rels|
                           && rels[k].fromTable == n && rels[k].toTable == p
  {
    WalkedParented(tables, rels);
    ParentedReached(rels, Names(tables), Walked(tables, rels).layers, FinalWalk(tables, rels).layers, n);
  }

  /** The parent fact for any walk whose layers `L` extends, putting every
      table it misses on layer 0. */
  lemma ParentedReached(rels: seq<Relationship>, names: set<string>, W: map<string, nat>, L: map<string, nat>, n: string)
    requires Parented(InRefs(rels, names), W)
    requires Extends(W, L) && forall m :: m in L && m !in W ==> L[m] == 0
    requires n in L && L[n] > 0
    ensures n in W
    ensures exists p, k :: p in W && L[n] == L[p] + 1 && 0 <= k < |rels|
                           && rels[k].fromTable == n && rels[k].toTable == p
  {
    ParentedReferences(rels, names, W, n);
    var p, k :| p in W && W[n] == W[p] + 1 && 0 <= k < |rels|
                && rels[k].fromTable == n && rels[k].toTable == p;
  }

  /** A table on a later layer has the layer of the walk's first discovery:
      it is reached, it is one layer right of a reached table it references,
      and no reached table it references is further left than that. So with
      posts referencing users and comments referencing both, comments is on
      layer 1, not 2. */
  lemma FinalWalkFirstDiscovery(tables: seq<Table>, rels: seq<Relationship>, n: string)
    requires |tables| > 0
    requires var L := FinalWalk(tables, rels).layers; n in L && L[n] > 0
    ensures n in Reached(tables, rels)
    ensures var L := FinalWalk(tables, rels).layers;
            exists p, k :: p in Reached(tables, rels) && L[n] == L[p] + 1 && 0 <= k < |rels|
                           && rels[k].fromTable == n && rels[k].toTable == p
    ensures var L := FinalWalk(tables, rels).layers;
            forall k :: (0 <= k < |rels| && ValidEdge(Names(tables), rels[k]) && rels[k].fromTable == n
                         && rels[k].toTable in Reached(tables, rels)) ==> L[n] <= L[rels[k].toTable] + 1
  {
    FinalWalkReachedParent(tables, rels, n);
    var L := FinalWalk(tables, rels).layers;
    forall k | 0 <= k < |rels| && ValidEdge(Names(tables), rels[k]) && rels[k].fromTable == n
               && rels[k].toTable in Reached(tables, rels)
      ensures L[n] <= L[rels[k].toTable] + 1
    {
      FinalWalkReachedEdge(tables, rels, k);
    }
  }

  // ---------------------------------------------------------------------
  // Placement
  // ---------------------------------------------------------------------

  // The placement functions are total: a name without a table is skipped.
  // The names placed always come from the table list, so that case does not
  // occur (the page would fail on it).

  function Index(ts: seq<Table>, n: string): (i: nat)
    requires HasTable(ts, n)
    ensures i < |ts| && ts[i].name == n
    ensures FindTable(ts, n) == Some(i)
  {
    FindTable(ts, n).value
  }

  /** The height of the first table named `n`. */
  function Height(ts: seq<Table>, n: string): real {
    match FindTable(ts, n)
    case Some(i) => TableDims(ts[i]).height
    case None => 0.0
  }

  /** The names of layer `L` in the insertion order of `layers`. */
  function GroupOf(order: seq<string>, layers: map<string, nat>, L: nat): (g: seq<string>)
    ensures |g| <= |order|
    decreases |order|
  {
    if |order| == 0 then []
    else
      var init := GroupOf(order[..|order| - 1], layers, L);
      var n := order[|order| - 1];
      if n in layers && layers[n] == L then init + [n] else init
  }

  /** Layer `L`'s group holds exactly the names of `order` on layer `L`,
      each once when `order` has no repeats. */
  lemma {:induction false} GroupOfMembers(order: seq<string>, layers: map<string, nat>, L: nat)
    ensures var g := GroupOf(order, layers, L);
            (forall n :: n in g ==> n in order && n in layers && layers[n] == L)
            && (forall n :: n in order && n in layers && layers[n] == L ==> n in g)
            && (Distinct(order) ==> Distinct(g))
    decreases |order|
  {
    if |order| > 0 {
      var init := GroupOf(order[..|order| - 1], layers, L);
      GroupOfMembers(order[..|order| - 1], layers, L);
      assert forall m :: m in init ==> m in order[..|order| - 1];
      var n := order[|order| - 1];
      assert order == order[..|order| - 1] + [n];
    }
  }

  function SumHeights(ts: seq<Table>, names: seq<string>): real
    decreases |names|
  {
    if |names| == 0 then 0.0 else SumHeights(ts, names[..|names| - 1]) + Height(ts, names[|names| - 1])
  }

  /** `totalHeight` of one layer: the heights plus the gaps between them. */
  function TotalHeight(ts: seq<Table>, names: seq<string>): real {
    SumHeights(ts, names) + (|names| - 1) as real * RowSpacing
  }

  /** The tables of `names[k..]` placed one under the other from `y` on. */
  function PlaceFrom(ts: seq<Table>, names: seq<string>, k: nat, x: real, y: real): (r: seq<Table>)
    requires k <= |names|
    ensures |r| == |ts|
    decreases |names| - k
  {
    if k == |names| then ts
    else
      match FindTable(ts, names[k])
      case None => PlaceFrom(ts, names, k + 1, x, y)
      case Some(i) =>
        PlaceFrom(ts[i := MoveTo(ts[i], x, y)], names, k + 1, x, y + TableDims(ts[i]).height + RowSpacing)
  }

  /** Placing only moves tables. */
  lemma {:induction false} PlaceFromMovesOnly(ts: seq<Table>, names: seq<string>, k: nat, x: real, y: real)
    requires k <= |names|
    ensures SameButPositions(ts, PlaceFrom(ts, names, k, x, y))
    decreases |names| - k
  {
    if k < |names| {
      match FindTable(ts, names[k])
      case None =>
        PlaceFromMovesOnly(ts, names, k + 1, x, y);
      case Some(i) =>
        var ts' := ts[i := MoveTo(ts[i], x, y)];
        var y' := y + TableDims(ts[i]).height + RowSpacing;
        PlaceFromMovesOnly(ts', names, k + 1, x, y');
        SameButPositionsTrans(ts, ts', PlaceFrom(ts', names, k + 1, x, y'));
    }
  }

  /** Moving tables does not change which table a name finds or its size. */
  lemma {:induction false} SamePositionsKeepsTables(a: seq<Table>, b: seq<Table>)
    requires SameButPositions(a, b)
    ensures forall n :: FindTable(a, n) == FindTable(b, n)
    ensures forall n :: HasTable(a, n) <==> HasTable(b, n)
    ensures forall n :: Height(a, n) == Height(b, n)
    ensures forall i :: 0 <= i < |a| ==> TableDims(a[i]) == TableDims(b[i])
  {
    forall n ensures FindTable(a, n) == FindTable(b, n) {
      FindTableSame(a, b, n);
    }
    forall n ensures HasTable(a, n) <==> HasTable(b, n) {
      if HasTable(a, n) {
        var i :| 0 <= i < |a| && a[i].name == n;
        assert b[i].name == n;
      }
      if HasTable(b, n) {
        var i :| 0 <= i < |b| && b[i].name == n;
        assert a[i].name == n;
      }
    }
  }

  lemma {:induction false} FindTableSame(a: seq<Table>, b: seq<Table>, n: string)
    requires SameButPositions(a, b)
    ensures FindTable(a, n) == FindTable(b, n)
    decreases |a|
  {
    if |a| > 0 {
      assert b[0].name == a[0].name;
      assert SameButPositions(a[1..], b[1..]) by {
        forall k | 0 <= k < |a[1..]| ensures b[1..][k] == MoveTo(a[1..][k], b[1..][k].x, b[1..][k].y) {
          assert b[1..][k] == b[k + 1] && a[1..][k] == a[k + 1];
        }
      }
      FindTableSame(a[1..], b[1..], n);
    }
  }

  /** One layer of the placement loop: the tables of layer `L`, in the
      insertion order of `layers`, stacked in column `L` and centred on y = 0. */
  function LayerStep(ts: seq<Table>, w: Walk, L: nat): (r: seq<Table>)
    ensures |r| == |ts|
  {
    var g := GroupOf(w.order, w.layers, L);
    if |g| == 0 then ts else PlaceFrom(ts, g, 0, L as real * ColumnSpacing, -(TotalHeight(ts, g) / 2.0))
  }

  lemma LayerStepMovesOnly(ts: seq<Table>, w: Walk, L: nat)
    ensures SameButPositions(ts, LayerStep(ts, w, L))
  {
    var g := GroupOf(w.order, w.layers, L);
    if |g| > 0 {
      PlaceFromMovesOnly(ts, g, 0, L as real * ColumnSpacing, -(TotalHeight(ts, g) / 2.0));
    }
  }

  /** The layout loop over layers `L .. maxL`. */
  function PlaceLayers(ts: seq<Table>, w: Walk, L: nat, maxL: nat): (r: seq<Table>)
    ensures |r| == |ts|
    decreases maxL + 1 - L
  {
    if L > maxL then ts else PlaceLayers(LayerStep(ts, w, L), w, L + 1, maxL)
  }

  lemma {:induction false} PlaceLayersMovesOnly(ts: seq<Table>, w: Walk, L: nat, maxL: nat)
    ensures SameButPositions(ts, PlaceLayers(ts, w, L, maxL))
    decreases maxL + 1 - L
  {
    if L <= maxL {
      var ts' := LayerStep(ts, w, L);
      LayerStepMovesOnly(ts, w, L);
      PlaceLayersMovesOnly(ts', w, L + 1, maxL);
      SameButPositionsTrans(ts, ts', PlaceLayers(ts', w, L + 1, maxL));
    }
  }

  /** The largest layer among the names of `order`. */
  function MaxLayer(order: seq<string>, layers: map<string, nat>): (m: nat)
    ensures forall n :: n in order && n in layers ==> layers[n] <= m
    decreases |order|
  {
    if |order| == 0 then 0
    else
      var m := MaxLayer(order[..|order| - 1], layers);
      var n := order[|order| - 1];
      if n in layers && layers[n] > m then layers[n] else m
  }

  /** The table list after `autoLayoutTables`. */
  function AutoLayout(tables: seq<Table>, rels: seq<Relationship>): (r: seq<Table>)
    ensures |r| == |tables|
  {
    if |tables| == 0 then tables
    else
      var w := FinalWalk(tables, rels);
      PlaceLayers(tables, w, 0, MaxLayer(w.order, w.layers))
  }

  /** `autoLayoutTables` changes nothing but positions. */
  lemma AutoLayoutMovesOnly(tables: seq<Table>, rels: seq<Relationship>)
    ensures SameButPositions(tables, AutoLayout(tables, rels))
  {
    if |tables| > 0 {
      var w := FinalWalk(tables, rels);
      PlaceLayersMovesOnly(tables, w, 0, MaxLayer(w.order, w.layers));
    }
  }

  lemma OrderNamesTables(tables: seq<Table>, w: Walk)
    requires WalkInv(Names(tables), w)
    ensures forall n :: n in w.order ==> n in w.layers && HasTable(tables, n)
  {
    forall n | n in w.order ensures HasTable(tables, n) {
      assert n in Names(tables);
      var i :| 0 <= i < |tables| && tables[i].name == n;
    }
  }

  /** The position of `n` in `s`. */
  function IndexIn(s: seq<string>, n: string): (j: nat)
    requires n in s
    ensures j < |s| && s[j] == n && n !in s[..j]
  {
    if s[0] == n then 0
    else
      var k := IndexIn(s[1..], n);
      assert s[1..][..k] == s[1..k + 1];
      k + 1
  }

  lemma {:induction false} SumHeightsSame(a: seq<Table>, b: seq<Table>, names: seq<string>)
    requires SameButPositions(a, b)
    ensures SumHeights(a, names) == SumHeights(b, names)
    decreases |names|
  {
    SamePositionsKeepsTables(a, b);
    if |names| > 0 {
      SumHeightsSame(a, b, names[..|names| - 1]);
    }
  }

  lemma {:induction false} PlaceFromUntouched(ts: seq<Table>, names: seq<string>, k: nat, x: real, y: real, i: nat)
    requires k <= |names| && i < |ts|
    requires forall m :: k <= m < |names| ==> FindTable(ts, names[m]) != Some(i)
    ensures PlaceFrom(ts, names, k, x, y)[i] == ts[i]
    decreases |names| - k
  {
    if k < |names| {
      match FindTable(ts, names[k])
      case None =>
        PlaceFromUntouched(ts, names, k + 1, x, y, i);
      case Some(i0) =>
        var ts' := ts[i0 := MoveTo(ts[i0], x, y)];
        assert i0 != i;
        forall m | k + 1 <= m < |names| ensures FindTable(ts', names[m]) != Some(i) {
          FindTableSame(ts, ts', names[m]);
        }
        PlaceFromUntouched(ts', names, k + 1, x, y + TableDims(ts[i0]).height + RowSpacing, i);
    }
  }

  lemma SumHeightsSnoc(ts: seq<Table>, names: seq<string>, j: nat)
    requires j < |names|
    ensures SumHeights(ts, names[..j + 1]) == SumHeights(ts, names[..j]) + Height(ts, names[j])
  {
    assert names[..j + 1][..j] == names[..j];
  }

  /** `PlaceFrom` puts `names[j]` at `x` and at `y` plus the heights and gaps
      of `names[k..j]`. */
  lemma {:induction false} PlaceFromPosition(ts: seq<Table>, names: seq<string>, k: nat, x: real, y: real, j: nat)
    requires k <= j < |names| && Distinct(names)
    requires forall n :: n in names ==> HasTable(ts, n)
    ensures var r := PlaceFrom(ts, names, k, x, y);
            var i := Index(ts, names[j]);
            r[i].x == x
            && r[i].y == y + (SumHeights(ts, names[..j]) - SumHeights(ts, names[..k])) + (j - k) as real * RowSpacing
    decreases |names| - k
  {
    var i0 := Index(ts, names[k]);
    var ts' := ts[i0 := MoveTo(ts[i0], x, y)];
    var y' := y + TableDims(ts[i0]).height + RowSpacing;
    assert PlaceFrom(ts, names, k, x, y) == PlaceFrom(ts', names, k + 1, x, y');
    SamePositionsKeepsTables(ts, ts');
    if j == k {
      forall m | k + 1 <= m < |names| ensures FindTable(ts', names[m]) != Some(i0) {
        assert names[m] != names[k];
      }
      PlaceFromUntouched(ts', names, k + 1, x, y', i0);
    } else {
      PlaceFromPosition(ts', names, k + 1, x, y', j);
      SumHeightsSame(ts, ts', names[..j]);
      SumHeightsSame(ts, ts', names[..k + 1]);
      SumHeightsSnoc(ts, names, k);
    }
  }

  lemma LayerStepUntouched(ts: seq<Table>, w: Walk, L: nat, i: nat)
    requires i < |ts| && ts[i].name in w.layers && w.layers[ts[i].name] != L
    ensures LayerStep(ts, w, L)[i] == ts[i]
  {
    var g := GroupOf(w.order, w.layers, L);
    if |g| > 0 {
      GroupOfMembers(w.order, w.layers, L);
      forall m | 0 <= m < |g| ensures FindTable(ts, g[m]) != Some(i) {
        assert g[m] in g;
      }
      LayerKeeps(ts, w, L, g, L as real * ColumnSpacing, -(TotalHeight(ts, g) / 2.0), i);
    }
  }

  lemma LayerKeeps(ts: seq<Table>, w: Walk, L: nat, g: seq<string>, x: real, y: real, i: nat)
    requires g == GroupOf(w.order, w.layers, L) && |g| > 0
    requires x == L as real * ColumnSpacing && y == -(TotalHeight(ts, g) / 2.0)
    requires i < |ts| && forall m :: 0 <= m < |g| ==> FindTable(ts, g[m]) != Some(i)
    ensures LayerStep(ts, w, L)[i] == ts[i]
  {
    LayerStepPlaces(ts, w, L, g, x, y);
    PlaceFromUntouched(ts, g, 0, x, y, i);
  }


  lemma LayerStepPosition(ts: seq<Table>, w: Walk, n: string)
    requires forall m :: m in w.order ==> HasTable(ts, m)
    requires Distinct(w.order) && n in w.order && n in w.layers
    ensures var g := GroupOf(w.order, w.layers, w.layers[n]);
            n in g &&
            var j := IndexIn(g, n);
            var r := LayerStep(ts, w, w.layers[n]);
            var i := Index(ts, n);
            r[i].x == w.layers[n] as real * ColumnSpacing
            && r[i].y == -(TotalHeight(ts, g) / 2.0) + SumHeights(ts, g[..j]) + j as real * RowSpacing
  {
    var L := w.layers[n];
    var g := GroupOf(w.order, w.layers, L);
    GroupOfMembers(w.order, w.layers, L);
    LayerAt(ts, w, L, g, L as real * ColumnSpacing, -(TotalHeight(ts, g) / 2.0), n, Index(ts, n), IndexIn(g, n), LayerStep(ts, w, L));
  }

  // The two lemmas below take the column, the top and the indices as
  // parameters, which keeps the real arithmetic of `TotalHeight` out of
  // their proofs.

  lemma LayerAt(ts: seq<Table>, w: Walk, L: nat, g: seq<string>, x: real, y: real, n: string, i: nat, j: nat, r: seq<Table>)
    requires g == GroupOf(w.order, w.layers, L) && x == L as real * ColumnSpacing && y == -(TotalHeight(ts, g) / 2.0)
    requires Distinct(g) && n in g && forall m :: m in g ==> HasTable(ts, m)
    requires i == Index(ts, n) && j == IndexIn(g, n) && r == LayerStep(ts, w, L)
    ensures i < |r| && r[i].x == x && r[i].y == y + SumHeights(ts, g[..j]) + j as real * RowSpacing
  {
    LayerStepPlaces(ts, w, L, g, x, y);
    PlacedInGroup(ts, g, x, y, n, i, j, PlaceFrom(ts, g, 0, x, y));
  }

  lemma LayerStepPlaces(ts: seq<Table>, w: Walk, L: nat, g: seq<string>, x: real, y: real)
    requires g == GroupOf(w.order, w.layers, L) && |g| > 0
    requires x == L as real * ColumnSpacing && y == -(TotalHeight(ts, g) / 2.0)
    ensures LayerStep(ts, w, L) == PlaceFrom(ts, g, 0, x, y)
  {
  }

  /** `PlaceFrom` from the start of `g` puts `n` at `x`, below the tables
      listed before it. */
  lemma PlacedInGroup(ts: seq<Table>, g: seq<string>, x: real, y: real, n: string, i: nat, j: nat, r: seq<Table>)
    requires Distinct(g) && n in g && forall m :: m in g ==> HasTable(ts, m)
    requires i == Index(ts, n) && j == IndexIn(g, n) && r == PlaceFrom(ts, g, 0, x, y)
    ensures i < |r| && r[i].x == x && r[i].y == y + SumHeights(ts, g[..j]) + j as real * RowSpacing
  {
    PlaceFromPosition(ts, g, 0, x, y, j);
    assert g[..0] == [];
  }

  /** Layers other than `n`'s leave its table alone; its own layer puts it in
      column `layer`, below the tables listed before it in that layer. */
  lemma {:induction false} PlaceLayersPosition(ts: seq<Table>, w: Walk, L: nat, maxL: nat, n: string)
    requires forall m :: m in w.order ==> HasTable(ts, m)
    requires Distinct(w.order)
    requires n in w.order && n in w.layers && L <= w.layers[n] <= maxL
    ensures var g := GroupOf(w.order, w.layers, w.layers[n]);
            n in g &&
            var j := IndexIn(g, n);
            var r := PlaceLayers(ts, w, L, maxL);
            var i := Index(ts, n);
            r[i].x == w.layers[n] as real * ColumnSpacing
            && r[i].y == -(TotalHeight(ts, g) / 2.0) + SumHeights(ts, g[..j]) + j as real * RowSpacing
    decreases maxL + 1 - L
  {
    var ts' := LayerStep(ts, w, L);
    assert PlaceLayers(ts, w, L, maxL) == PlaceLayers(ts', w, L + 1, maxL);
    LayerStepMovesOnly(ts, w, L);
    SamePositionsKeepsTables(ts, ts');
    var g := GroupOf(w.order, w.layers, w.layers[n]);
    GroupOfMembers(w.order, w.layers, w.layers[n]);
    var j := IndexIn(g, n);
    SumHeightsSame(ts, ts', g);
    SumHeightsSame(ts, ts', g[..j]);
    if L < w.layers[n] {
      PlaceLayersPosition(ts', w, L + 1, maxL, n);
      LayerStepUntouched(ts, w, L, Index(ts, n));
    } else {
      LayerStepPosition(ts, w, n);
      PlaceLayersUntouched(ts', w, L + 1, maxL, Index(ts, n), L);
    }
  }

  /** Layers after `done` leave the tables of layer `done` where they are. */
  lemma {:induction false} PlaceLayersUntouched(ts: seq<Table>, w: Walk, L: nat, maxL: nat, i: nat, done: nat)
    requires i < |ts| && ts[i].name in w.layers && w.layers[ts[i].name] == done && done < L
    ensures PlaceLayers(ts, w, L, maxL)[i] == ts[i]
    decreases maxL + 1 - L
  {
    if L <= maxL {
      var ts' := LayerStep(ts, w, L);
      LayerStepUntouched(ts, w, L, i);
      PlaceLayersUntouched(ts', w, L + 1, maxL, i, done);
    }
  }

  /** An earlier table has the same name as `ts[i]`. */
  predicate Shadowed(ts: seq<Table>, i: nat)
    requires i < |ts|
  {
    exists k :: 0 <= k < i && ts[k].name == ts[i].name
  }

  /** A shadowed table is never found: `find` returns the first match. */
  lemma ShadowedNeverFound(ts: seq<Table>, g: seq<string>, i: nat)
    requires i < |ts| && Shadowed(ts, i)
    ensures forall m :: 0 <= m < |g| ==> FindTable(ts, g[m]) != Some(i)
  {
    var k :| 0 <= k < i && ts[k].name == ts[i].name;
    forall m | 0 <= m < |g| ensures FindTable(ts, g[m]) != Some(i) {
      var f := FindTable(ts, g[m]);
      assert f.Some? ==> ts[f.value].name == g[m];
    }
  }

  /** A shadowed table is never moved by a layer. */
  lemma LayerStepShadowed(ts: seq<Table>, w: Walk, L: nat, i: nat)
    requires i < |ts| && Shadowed(ts, i)
    ensures LayerStep(ts, w, L)[i] == ts[i]
  {
    var g := GroupOf(w.order, w.layers, L);
    if |g| > 0 {
      ShadowedNeverFound(ts, g, i);
      LayerKeeps(ts, w, L, g, L as real * ColumnSpacing, -(TotalHeight(ts, g) / 2.0), i);
    }
  }

  lemma {:induction false} PlaceLayersShadowed(ts: seq<Table>, w: Walk, L: nat, maxL: nat, i: nat)
    requires i < |ts| && Shadowed(ts, i)
    ensures PlaceLayers(ts, w, L, maxL)[i] == ts[i]
    decreases maxL + 1 - L
  {
    if L <= maxL {
      var ts' := LayerStep(ts, w, L);
      LayerStepShadowed(ts, w, L, i);
      LayerStepMovesOnly(ts, w, L);
      var k :| 0 <= k < i && ts[k].name == ts[i].name;
      assert ts'[k].name == ts'[i].name;
      PlaceLayersShadowed(ts', w, L + 1, maxL, i);
    }
  }

  /** Where `r` has `ts[i]` after the placement driven by `w`: in column
      `layer * 500`, below the tables listed before it in its layer, the
      layer centred on y = 0. */
  predicate PlacedAt(ts: seq<Table>, w: Walk, r: seq<Table>, i: nat)
    requires i < |ts| && |r| == |ts|
  {
    var n := ts[i].name;
    n in w.layers && n in GroupOf(w.order, w.layers, w.layers[n])
    && (var g := GroupOf(w.order, w.layers, w.layers[n]);
        var j := IndexIn(g, n);
        r[i].x == w.layers[n] as real * ColumnSpacing
        && r[i].y == -(TotalHeight(ts, g) / 2.0) + SumHeights(ts, g[..j]) + j as real * RowSpacing)
  }

  lemma PlacedPosition(tables: seq<Table>, w: Walk, i: nat)
    requires WalkInv(Names(tables), w) && w.layers.Keys == Names(tables)
    requires i < |tables| && FindTable(tables, tables[i].name) == Some(i)
    ensures PlacedAt(tables, w, PlaceLayers(tables, w, 0, MaxLayer(w.order, w.layers)), i)
  {
    var n := tables[i].name;
    assert n in Names(tables);
    OrderNamesTables(tables, w);
    PlaceLayersPosition(tables, w, 0, MaxLayer(w.order, w.layers), n);
    assert Index(tables, n) == i;
  }

  /** The first table with each name goes to column `layer * 500`, stacked in
      the insertion order of its layer, the layer centred on y = 0. */
  lemma AutoLayoutPositions(tables: seq<Table>, rels: seq<Relationship>, i: nat)
    requires i < |tables| && FindTable(tables, tables[i].name) == Some(i)
    ensures PlacedAt(tables, FinalWalk(tables, rels), AutoLayout(tables, rels), i)
  {
    var w := FinalWalk(tables, rels);
    FinalWalkCovers(tables, rels);
    AutoLayoutPlaces(tables, rels);
    PlacedPosition(tables, w, i);
  }

  lemma AutoLayoutPlaces(tables: seq<Table>, rels: seq<Relationship>)
    requires |tables| > 0
    ensures var w := FinalWalk(tables, rels);
            AutoLayout(tables, rels) == PlaceLayers(tables, w, 0, MaxLayer(w.order, w.layers))
  {
  }

  /** A table whose name an earlier table already has keeps its position. */
  lemma AutoLayoutDuplicates(tables: seq<Table>, rels: seq<Relationship>, i: nat)
    requires i < |tables| && Shadowed(tables, i)
    ensures AutoLayout(tables, rels)[i] == tables[i]
  {
    var w := FinalWalk(tables, rels);
    PlaceLayersShadowed(tables, w, 0, MaxLayer(w.order, w.layers), i);
  }

  /** A placed layer is centred: it starts at minus half its total height and
      its last table ends at plus half. */
  lemma LayerCentred(ts: seq<Table>, g: seq<string>)
    requires |g| > 0
    ensures var last := |g| - 1;
            -(TotalHeight(ts, g) / 2.0) + SumHeights(ts, g[..last]) + last as real * RowSpacing + Height(ts, g[last])
            == TotalHeight(ts, g) / 2.0
  {
    assert g[..|g| - 1] == g[..|g| - 1];
  }

  /** The two reference maps of `autoLayoutTables`. */
  method BuildRefs(tables: seq<Table>, rels: seq<Relationship>)
    returns (refsOut: map<string, set<string>>, refsIn: map<string, seq<string>>)
    ensures refsOut.Keys == refsIn.Keys == Names(tables)
    ensures forall n :: n in Names(tables) ==>
              refsOut[n] == OutSet(rels, Names(tables), n) && refsIn[n] == Incoming(rels, Names(tables), n)
  {
    var names := Names(tables);
    refsOut := map[];
    refsIn := map[];
    var k := 0;
    while k < |tables|
      invariant 0 <= k <= |tables|
      invariant refsOut.Keys == refsIn.Keys == set i | 0 <= i < k :: tables[i].name
      invariant forall n :: n in refsOut ==> refsOut[n] == {} && refsIn[n] == []
    {
      refsOut := refsOut[tables[k].name := {}];
      refsIn := refsIn[tables[k].name := []];
      k := k + 1;
    }
    k := 0;
    while k < |rels|
      invariant 0 <= k <= |rels|
      invariant refsOut.Keys == refsIn.Keys == names
      invariant forall n :: n in names ==> refsOut[n] == OutSet(rels[..k], names, n)
      invariant forall n :: n in names ==> refsIn[n] == Incoming(rels[..k], names, n)
    {
      refsOut, refsIn := AddRef(rels, k, names, refsOut, refsIn);
      k := k + 1;
    }
    assert rels[..|rels|] == rels;
  }

  /** One turn of the loop over the relationships. */
  method AddRef(rels: seq<Relationship>, k: nat, names: set<string>,
                out0: map<string, set<string>>, in0: map<string, seq<string>>)
    returns (refsOut: map<string, set<string>>, refsIn: map<string, seq<string>>)
    requires k < |rels|
    requires out0.Keys == in0.Keys == names
    requires forall n :: n in names ==> out0[n] == OutSet(rels[..k], names, n)
    requires forall n :: n in names ==> in0[n] == Incoming(rels[..k], names, n)
    ensures refsOut.Keys == refsIn.Keys == names
    ensures forall n :: n in names ==> refsOut[n] == OutSet(rels[..k + 1], names, n)
    ensures forall n :: n in names ==> refsIn[n] == Incoming(rels[..k + 1], names, n)
  {
    var rel := rels[k];
    refsOut, refsIn := out0, in0;
    if rel.fromTable in refsOut && rel.toTable in refsIn {
      refsOut := refsOut[rel.fromTable := refsOut[rel.fromTable] + {rel.toTable}];
      if rel.fromTable !in refsIn[rel.toTable] {
        refsIn := refsIn[rel.toTable := refsIn[rel.toTable] + [rel.fromTable]];
      }
    }
    forall n | n in names ensures refsOut[n] == OutSet(rels[..k + 1], names, n) {
      RefsStep(rels, k, names, n);
    }
    forall n | n in names ensures refsIn[n] == Incoming(rels[..k + 1], names, n) {
      RefsStep(rels, k, names, n);
    }
  }

  lemma RefsStep(rels: seq<Relationship>, k: nat, names: set<string>, n: string)
    requires k < |rels|
    ensures OutSet(rels[..k + 1], names, n)
            == OutSet(rels[..k], names, n) + (if ValidEdge(names, rels[k]) && rels[k].fromTable == n then {rels[k].toTable} else {})
    ensures var prev := Incoming(rels[..k], names, n);
            Incoming(rels[..k + 1], names, n)
            == if ValidEdge(names, rels[k]) && rels[k].toTable == n && rels[k].fromTable !in prev then prev + [rels[k].fromTable] else prev
  {
    assert rels[..k + 1][..k] == rels[..k];
  }

  /** The seeding loop and the fallback for a graph without roots. */
  method SeedWalk(tables: seq<Table>, rels: seq<Relationship>, refsOut: map<string, set<string>>) returns (w: Walk)
    requires |tables| > 0
    requires refsOut.Keys == Names(tables)
    requires forall n :: n in Names(tables) ==> refsOut[n] == OutSet(rels, Names(tables), n)
    ensures w == Seeded(tables, rels)
  {
    var names := Names(tables);
    w := Walk([], map[], []);
    var k := 0;
    while k < |tables|
      invariant 0 <= k <= |tables|
      invariant forall i :: 0 <= i < k ==> tables[..k][i].name in names
      invariant w == Seeds(tables[..k], rels, names)
    {
      SeedsSnoc(tables, rels, names, k);
      var n := tables[k].name;
      w := SeedOne(w, n, |refsOut[n]| == 0);
      k := k + 1;
    }
    assert tables[..|tables|] == tables;
    if |w.queue| == 0 {
      w := Walk([tables[0].name], map[tables[0].name := 0], [tables[0].name]);
    }
  }

  /** One turn of the seeding loop: a table that references nobody is put on
      layer 0 and queued. */
  method SeedOne(w: Walk, n: string, root: bool) returns (w': Walk)
    ensures w' == if root then AddSeed(w, n) else w
  {
    var queue, layers, order := w.queue, w.layers, w.order;
    if root {
      if n !in layers {
        order := order + [n];
      }
      layers := layers[n := 0];
      queue := queue + [n];
    }
    w' := Walk(queue, layers, order);
  }

  /** The loop over the tables that reference the dequeued one. */
  method DiscoverChildren(children: seq<string>, layer: nat, w0: Walk) returns (w: Walk)
    ensures w == Discover(children, layer, w0)
  {
    var queue: seq<string>, layers: map<string, nat>, order: seq<string> := w0.queue, w0.layers, w0.order;
    var c := 0;
    while c < |children|
      invariant 0 <= c <= |children|
      invariant Discover(children[c..], layer, Walk(queue, layers, order)) == Discover(children, layer, w0)
    {
      var child := children[c];
      assert children[c..][1..] == children[c + 1..];
      if child !in layers {
        layers := layers[child := layer];
        queue := queue + [child];
        order := order + [child];
      }
      c := c + 1;
    }
    w := Walk(queue, layers, order);
  }

  /** One turn of the walk loop. */
  method StepWalk(refsIn: map<string, seq<string>>, w0: Walk, ghost names: set<string>) returns (w: Walk)
    requires WalkInv(names, w0) && RefsWithin(refsIn, names) && |w0.queue| > 0
    ensures w == Step(refsIn, names, w0)
  {
    var cur := w0.queue[0];
    var children := Children(refsIn, cur);
    var w1 := Walk(w0.queue[1..], w0.layers, w0.order);
    w := DiscoverChildren(children, w0.layers[cur] + 1, w1);
    StepDiscovers(refsIn, names, w0, w);
  }

  /** The breadth-first walk. */
  method RunWalk(refsIn: map<string, seq<string>>, w0: Walk, ghost names: set<string>) returns (w: Walk)
    requires WalkInv(names, w0) && RefsWithin(refsIn, names)
    ensures w == Run(refsIn, names, w0)
  {
    w := w0;
    while |w.queue| > 0
      invariant WalkInv(names, w)
      invariant Run(refsIn, names, w) == Run(refsIn, names, w0)
      decreases |names - w.layers.Keys|, |w.queue|
    {
      StepDecreases(refsIn, names, w);
      w := StepWalk(refsIn, w, names);
    }
  }

  /** The loop that puts the tables the walk did not reach on layer 0. */
  method FinishWalk(tables: seq<Table>, walked: Walk) returns (w: Walk)
    requires WalkInv(Names(tables), walked)
    ensures w == Finish(tables, walked, Names(tables))
  {
    var names := Names(tables);
    var visited := walked.layers.Keys;
    w := walked;
    var k := 0;
    while k < |tables|
      invariant 0 <= k <= |tables|
      invariant w == Finish(tables[..k], walked, names)
    {
      FinishSnoc(tables, k, walked, names);
      w := MarkUnreached(w, tables[k].name, visited, names, walked);
      k := k + 1;
    }
    assert tables[..|tables|] == tables;
  }

  /** `Finish` over one more table is one more `AddUnreached`. */
  lemma FinishSnoc(tables: seq<Table>, k: nat, walked: Walk, names: set<string>)
    requires k < |tables| && names == Names(tables) && WalkInv(names, walked)
    ensures forall i :: 0 <= i <= k ==> tables[i].name in names
    ensures Finish(tables[..k + 1], walked, names)
            == AddUnreached(Finish(tables[..k], walked, names), tables[k].name, names)
  {
    var pre := tables[..k + 1];
    assert pre[..|pre| - 1] == tables[..k];
    assert pre[|pre| - 1] == tables[k];
  }

  /** One turn of that loop: `visited` is the set the walk ended with, so a
      table added earlier in this loop is set to 0 again, which changes
      nothing. */
  method MarkUnreached(r: Walk, n: string, visited: set<string>, ghost names: set<string>, ghost walked: Walk)
    returns (r': Walk)
    requires WalkInv(names, r) && n in names && visited == walked.layers.Keys
    requires Extends(walked.layers, r.layers)
    requires forall m :: m in r.layers && m !in walked.layers ==> r.layers[m] == 0
    ensures r' == AddUnreached(r, n, names)
  {
    var layers, order := r.layers, r.order;
    if n !in visited {
      if n !in layers {
        order := order + [n];
      }
      layers := layers[n := 0];
    }
    assert n in r.layers ==> layers == r.layers;
    r' := Walk(r.queue, layers, order);
  }

  /** Grouping the names by layer, and the largest layer. */
  method GroupByLayer(w: Walk) returns (groups: map<nat, seq<string>>, maxL: nat)
    requires forall n :: n in w.order ==> n in w.layers
    ensures GroupsOf(groups, w.order, w.layers)
    ensures maxL == MaxLayer(w.order, w.layers)
  {
    groups := map[];
    maxL := 0;
    var k := 0;
    while k < |w.order|
      invariant 0 <= k <= |w.order|
      invariant GroupsOf(groups, w.order[..k], w.layers)
      invariant maxL == MaxLayer(w.order[..k], w.layers)
    {
      var n := w.order[k];
      var L := w.layers[n];
      GroupsStep(groups, w.order, w.layers, k);
      groups := groups[L := (if L in groups then groups[L] else []) + [n]];
      if L > maxL {
        maxL := L;
      }
      k := k + 1;
    }
    assert w.order[..|w.order|] == w.order;
  }

  /** `groups` maps each layer that has names to its group, in the insertion
      order of `layers`. */
  ghost predicate GroupsOf(groups: map<nat, seq<string>>, order: seq<string>, layers: map<string, nat>) {
    (forall L :: L in groups ==> groups[L] == GroupOf(order, layers, L) && |groups[L]| > 0)
    && (forall L :: L !in groups ==> GroupOf(order, layers, L) == [])
  }

  lemma GroupsStep(groups: map<nat, seq<string>>, order: seq<string>, layers: map<string, nat>, k: nat)
    requires k < |order| && order[k] in layers
    requires GroupsOf(groups, order[..k], layers)
    ensures var L := layers[order[k]];
            GroupsOf(groups[L := (if L in groups then groups[L] else []) + [order[k]]], order[..k + 1], layers)
    ensures MaxLayer(order[..k + 1], layers)
            == if layers[order[k]] > MaxLayer(order[..k], layers) then layers[order[k]] else MaxLayer(order[..k], layers)
  {
    assert order[..k + 1][..k] == order[..k];
  }

  /** One layer's placement: the heights are summed, then the tables are
      stacked from `-(totalHeight / 2)` down. */
  method PlaceLayer(ts: seq<Table>, g: seq<string>, L: nat) returns (r: seq<Table>)
    requires |g| > 0
    ensures r == PlaceFrom(ts, g, 0, L as real * ColumnSpacing, -(TotalHeight(ts, g) / 2.0))
  {
    var total := LayerHeight(ts, g);
    r := StackLayer(ts, g, L as real * ColumnSpacing, -(total / 2.0));
  }

  /** `totalHeight` of the layer, summed table by table. */
  method LayerHeight(ts: seq<Table>, g: seq<string>) returns (total: real)
    ensures total == TotalHeight(ts, g)
  {
    total := 0.0;
    var e := 0;
    while e < |g|
      invariant 0 <= e <= |g|
      invariant total == SumHeights(ts, g[..e])
    {
      assert g[..e + 1][..e] == g[..e];
      total := total + Height(ts, g[e]);
      e := e + 1;
    }
    assert g[..|g|] == g;
    total := total + (|g| - 1) as real * RowSpacing;
  }

  /** The tables of `g` stacked from `y0` down in column `x`. */
  method StackLayer(ts: seq<Table>, g: seq<string>, x: real, y0: real) returns (r: seq<Table>)
    ensures r == PlaceFrom(ts, g, 0, x, y0)
  {
    r := ts;
    var y := y0;
    var e := 0;
    while e < |g|
      invariant 0 <= e <= |g|
      invariant PlaceFrom(r, g, e, x, y) == PlaceFrom(ts, g, 0, x, y0)
    {
      match FindTable(r, g[e]) {
        case None =>
        case Some(i) =>
          var h := TableDims(r[i]).height;
          r := r[i := MoveTo(r[i], x, y)];
          y := y + h + RowSpacing;
      }
      e := e + 1;
    }
  }

  /** One turn of the loop over the layers: a layer without tables has no
      group and is skipped. */
  method PlaceLayerIfAny(ts: seq<Table>, w: Walk, groups: map<nat, seq<string>>, L: nat) returns (r: seq<Table>)
    requires GroupsOf(groups, w.order, w.layers)
    ensures r == LayerStep(ts, w, L)
  {
    if L in groups {
      r := PlaceLayer(ts, groups[L], L);
    } else {
      r := ts;
    }
  }

  /** The loop over the layers in ascending order. */
  method PlaceAll(tables: seq<Table>, w: Walk, groups: map<nat, seq<string>>, maxL: nat) returns (r: seq<Table>)
    requires GroupsOf(groups, w.order, w.layers)
    ensures r == PlaceLayers(tables, w, 0, maxL)
  {
    r := tables;
    var L: nat := 0;
    while L <= maxL
      invariant PlaceLayers(r, w, L, maxL) == PlaceLayers(tables, w, 0, maxL)
      decreases maxL + 1 - L
    {
      r := PlaceLayerIfAny(r, w, groups, L);
      L := L + 1;
    }
  }

  /** `autoLayoutTables`. */
  method AutoLayoutTables(tables: seq<Table>, rels: seq<Relationship>) returns (r: seq<Table>)
    ensures r == AutoLayout(tables, rels)
  {
    if |tables| == 0 {
      return tables;
    }
    var refsOut, refsIn := BuildRefs(tables, rels);
    var seeded := SeedWalk(tables, rels, refsOut);
    assert refsIn == InRefs(rels, Names(tables));
    InRefsWithin(rels, Names(tables));
    var walked := RunWalk(refsIn, seeded, Names(tables));
    var w := FinishWalk(tables, walked);
    assert w == FinalWalk(tables, rels);
    var groups, maxL := GroupByLayer(w);
    r := PlaceAll(tables, w, groups, maxL);
  }
}
