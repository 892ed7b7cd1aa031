/** Points, their ids, and the in-memory store (`ingestion/vector_store.py`). UUIDv5 (section 5.5 of RFC
    9562) is taken as collision-free, so an id is its namespace and its name. */
module VectorStore {
  import opened Prelude
  import opened Ordering
  import opened Chunker

  type ProjectId = nat
  type Vector = seq<real>

  // ---------------------------------------------------------------- the name

  function Digit(d: nat): char
    requires d < 10
  {
    '0' + d as char
  }

  /** Decimal, without leading zeros, as an f-string writes a natural number. */
  function Decimal(n: nat): string {
    if n < 10 then [Digit(n)] else Decimal(n / 10) + [Digit(n % 10)]
  }

  lemma {:induction false} DecimalHasNoColon(n: nat)
    ensures ':' !in Decimal(n) && Decimal(n) != []
    decreases n
  {
    if n >= 10 {
      DecimalHasNoColon(n / 10);
    }
  }

  lemma {:induction false} DecimalIsInjective(m: nat, n: nat)
    requires Decimal(m) == Decimal(n)
    ensures m == n
    decreases m
  {
    var a, b := Decimal(m), Decimal(n);
    assert a[|a| - 1] == Digit(m % 10) && b[|b| - 1] == Digit(n % 10);
    assert (Digit(m % 10) as int) - ('0' as int) == m % 10;
    assert (Digit(n % 10) as int) - ('0' as int) == n % 10;
    DecimalHasNoColon(m / 10);
    DecimalHasNoColon(n / 10);
    if m >= 10 && n >= 10 {
      assert a[..|a| - 1] == Decimal(m / 10) && b[..|b| - 1] == Decimal(n / 10);
      DecimalIsInjective(m / 10, n / 10);
    }
  }

  function Name(path: string, index: nat, generation: nat): string {
    path + ":" + Decimal(index) + ":" + Decimal(generation)
  }

  lemma LongerTailHasColon(a: string, d: string, b: string, e: string)
    requires a + ":" + d == b + ":" + e && |d| < |e|
    ensures ':' in e
  {
    var s := a + ":" + d;
    assert s[|s| - |e|..] == (b + ":" + e)[|s| - |e|..] == e;
    assert e[|e| - |d| - 1] == s[|s| - |d| - 1] == ':';
  }

  /** A tail without colons tells where the last colon is. */
  lemma LastColonSplits(a: string, d: string, b: string, e: string)
    requires ':' !in d && ':' !in e && a + ":" + d == b + ":" + e
    ensures a == b && d == e
  {
    if |d| < |e| {
      LongerTailHasColon(a, d, b, e);
    } else if |e| < |d| {
      LongerTailHasColon(b, e, a, d);
    } else {
      var s := a + ":" + d;
      assert s[..|a|] == a && s[..|b|] == b && s[|s| - |d|..] == d && s[|s| - |e|..] == e;
    }
  }

  /** No two chunks of any generations share a name, colons in the paths or not. */
  lemma NameIsInjective(path: string, index: nat, generation: nat, path': string, index': nat, generation': nat)
    ensures Name(path, index, generation) == Name(path', index', generation') <==>
            path == path' && index == index' && generation == generation'
  {
    if Name(path, index, generation) == Name(path', index', generation') {
      DecimalHasNoColon(generation);
      DecimalHasNoColon(generation');
      LastColonSplits(path + ":" + Decimal(index), Decimal(generation),
                        path' + ":" + Decimal(index'), Decimal(generation'));
      DecimalIsInjective(generation, generation');
      DecimalHasNoColon(index);
      DecimalHasNoColon(index');
      LastColonSplits(path, Decimal(index), path', Decimal(index'));
      DecimalIsInjective(index, index');
    }
  }

  // ---------------------------------------------------------------- points

  datatype PointId = PointId(namespace: ProjectId, name: string)

  datatype Point = Point(id: PointId, vector: Vector, project: ProjectId, generation: nat, chunk: Chunk, commit: string)

  function IdOf(project: ProjectId, path: string, index: nat, generation: nat): PointId {
    PointId(project, Name(path, index, generation))
  }

  function PointOf(project: ProjectId, generation: nat, chunk: Chunk, vector: Vector, commit: string): Point {
    Point(IdOf(project, chunk.filePath, chunk.index, generation), vector, project, generation, chunk, commit)
  }

  /** Every stored point sits under the id of what it holds. */
  ghost predicate Named(points: seq<Point>) {
    forall i :: 0 <= i < |points| ==>
      points[i].id == IdOf(points[i].project, points[i].chunk.filePath, points[i].chunk.index, points[i].generation)
  }

  /** The store as a map: what a search by id finds. */
  function AsMap(points: seq<Point>): map<PointId, Point> {
    if points == [] then map[] else AsMap(points[..|points| - 1])[points[|points| - 1].id := points[|points| - 1]]
  }

  function Upserted(m: map<PointId, Point>, batch: seq<Point>): map<PointId, Point> {
    if batch == [] then m else Upserted(m, batch[..|batch| - 1])[batch[|batch| - 1].id := batch[|batch| - 1]]
  }

  /** What a list comprehension of the store leaves out. */
  datatype Selector =
    | TheId(id: PointId)
    | TheGeneration(project: ProjectId, generation: nat)
    | TheProject(project: ProjectId)

  predicate Selected(which: Selector, p: Point) {
    match which
    case TheId(id) => p.id == id
    case TheGeneration(project, generation) => p.project == project && p.generation == generation
    case TheProject(project) => p.project == project
  }

  function Without(m: map<PointId, Point>, which: Selector): map<PointId, Point> {
    map id | id in m && !Selected(which, m[id]) :: m[id]
  }

  function Rest(points: seq<Point>, which: Selector): seq<Point> {
    if points == [] then []
    else
      Rest(points[..|points| - 1], which)
      + (if Selected(which, points[|points| - 1]) then [] else [points[|points| - 1]])
  }

  lemma {:induction false} RestKeepsNamed(points: seq<Point>, which: Selector)
    requires Named(points)
    ensures Named(Rest(points, which))
    decreases |points|
  {
    if points != [] {
      RestKeepsNamed(points[..|points| - 1], which);
    }
  }

  lemma {:induction false} RestHolds(points: seq<Point>, which: Selector, p: Point)
    ensures p in Rest(points, which) <==> p in points && !Selected(which, p)
    decreases |points|
  {
    if points != [] {
      RestHolds(points[..|points| - 1], which, p);
      assert points == points[..|points| - 1] + [points[|points| - 1]];
    }
  }

  lemma AsMapSnoc(points: seq<Point>, p: Point)
    ensures AsMap(points + [p]) == AsMap(points)[p.id := p]
  {
    assert (points + [p])[..|points|] == points;
  }

  lemma {:induction false} AsMapHolds(points: seq<Point>, id: PointId)
    requires Named(points) && id in AsMap(points)
    ensures AsMap(points)[id].id == id
    ensures var p := AsMap(points)[id]; id == IdOf(p.project, p.chunk.filePath, p.chunk.index, p.generation)
    decreases |points|
  {
    if points[|points| - 1].id != id {
      AsMapHolds(points[..|points| - 1], id);
    }
  }

  /** Two points under one id hold the same chunk of the same generation of the same project. */
  lemma SameIdSamePlace(p: Point, q: Point)
    requires p.id == IdOf(p.project, p.chunk.filePath, p.chunk.index, p.generation)
    requires q.id == IdOf(q.project, q.chunk.filePath, q.chunk.index, q.generation)
    ensures p.id == q.id <==>
            p.project == q.project && p.generation == q.generation && p.chunk.filePath == q.chunk.filePath
                && p.chunk.index == q.chunk.index
  {
    NameIsInjective(p.chunk.filePath, p.chunk.index, p.generation, q.chunk.filePath, q.chunk.index, q.generation);
  }

  /** Under one id, a point is selected whenever the one it replaced was. */
  lemma SameIdSameSelection(p: Point, q: Point, which: Selector)
    requires p.id == IdOf(p.project, p.chunk.filePath, p.chunk.index, p.generation)
    requires q.id == IdOf(q.project, q.chunk.filePath, q.chunk.index, q.generation)
    requires p.id == q.id
    ensures Selected(which, p) == Selected(which, q)
  {
    SameIdSamePlace(p, q);
  }

  lemma WithoutUpdated(m: map<PointId, Point>, p: Point, which: Selector)
    requires p.id in m ==> Selected(which, m[p.id]) == Selected(which, p)
    ensures Without(m[p.id := p], which) == if Selected(which, p) then Without(m, which)
            else Without(m, which)[p.id := p]
  {
  }

  /** Filtering the list is filtering the map. */
  lemma {:induction false} RestIsWithout(points: seq<Point>, which: Selector)
    requires Named(points)
    ensures AsMap(Rest(points, which)) == Without(AsMap(points), which)
    decreases |points|
  {
    if points != [] {
      var n := |points| - 1;
      var last, before := points[n], AsMap(points[..n]);
      RestIsWithout(points[..n], which);
      if last.id in before {
        AsMapHolds(points[..n], last.id);
        SameIdSameSelection(last, before[last.id], which);
      }
      WithoutUpdated(before, last, which);
      var kept := Rest(points[..n], which);
      if Selected(which, last) {
        assert Rest(points, which) == kept;
      } else {
        assert Rest(points, which) == kept + [last];
        AsMapSnoc(kept, last);
      }
    }
  }

  /** Removing a point's old version and appending the new one is a map update. */
  lemma ReplacingIsUpdating(points: seq<Point>, p: Point)
    requires Named(points)
    ensures AsMap(Rest(points, TheId(p.id)) + [p]) == AsMap(points)[p.id := p]
  {
    RestIsWithout(points, TheId(p.id));
    AsMapSnoc(Rest(points, TheId(p.id)), p);
    forall id | id in AsMap(points) ensures AsMap(points)[id].id == id {
      AsMapHolds(points, id);
    }
  }

  // ---------------------------------------------------------------- the store

  function Batch(project: ProjectId, generation: nat, chunks: seq<Chunk>, vectors: seq<Vector>,
      commit: string): (r: seq<Point>)
    requires |chunks| <= |vectors|
    ensures |r| == |chunks|
  {
    seq(|chunks|, i requires 0 <= i < |chunks| => PointOf(project, generation, chunks[i], vectors[i], commit))
  }

  /** No later chunk of the batch is of the same path and index. */
  predicate IsLastAtItsPlace(chunks: seq<Chunk>, i: nat) {
    && i < |chunks|
    && forall j :: i < j < |chunks| ==>
       !(chunks[j].filePath == chunks[i].filePath && chunks[j].index == chunks[i].index)
  }

  lemma {:induction false} UpsertedLast(m: map<PointId, Point>, batch: seq<Point>, i: nat)
    requires i < |batch| && forall j :: i < j < |batch| ==> batch[j].id != batch[i].id
    ensures batch[i].id in Upserted(m, batch) && Upserted(m, batch)[batch[i].id] == batch[i]
    decreases |batch|
  {
    if i < |batch| - 1 {
      UpsertedLast(m, batch[..|batch| - 1], i);
    }
  }

  lemma UpsertStoresEach(m: map<PointId, Point>, project: ProjectId, generation: nat, chunks: seq<Chunk>,
                         vectors: seq<Vector>, commit: string, i: nat)
    requires |chunks| == |vectors| && IsLastAtItsPlace(chunks, i)
    ensures var id := IdOf(project, chunks[i].filePath, chunks[i].index, generation);
            var after := Upserted(m, Batch(project, generation, chunks, vectors, commit));
            id in after && after[id] == Point(id, vectors[i], project, generation, chunks[i], commit)
  {
    var batch := Batch(project, generation, chunks, vectors, commit);
    forall j | i < j < |batch| ensures batch[j].id != batch[i].id {
      SameIdSamePlace(batch[j], batch[i]);
    }
    UpsertedLast(m, batch, i);
  }

  class InMemoryVectorStore {
    var points: seq<Point>

    constructor ()
      ensures points == [] && Named(points)
    {
      points := [];
    }

    /** Replaces point by point, so a later chunk of the batch with the same id wins. */
    method Upsert(project: ProjectId, generation: nat, chunks: seq<Chunk>, vectors: seq<Vector>, commit: string)
      requires Named(points) && |chunks| == |vectors|
      modifies this
      ensures Named(points)
      ensures AsMap(points) == Upserted(old(AsMap(points)), Batch(project, generation, chunks, vectors, commit))
      // under each chunk's own name is that chunk with its own vector, unless a later one has the same name
      ensures forall i: nat :: IsLastAtItsPlace(chunks, i) ==>
                var id := IdOf(project, chunks[i].filePath, chunks[i].index, generation);
                && id in AsMap(points)
                && AsMap(points)[id] == Point(id, vectors[i], project, generation, chunks[i], commit)
    {
      ghost var batch := Batch(project, generation, chunks, vectors, commit);
      for i := 0 to |chunks|
        invariant Named(points) && AsMap(points) == Upserted(old(AsMap(points)), batch[..i])
      {
        var p := PointOf(project, generation, chunks[i], vectors[i], commit);
        assert batch[..i + 1][..i] == batch[..i] && batch[i] == p;
        RestKeepsNamed(points, TheId(p.id));
        RestIsWithout(points, TheId(p.id));
        ReplacingIsUpdating(points, p);
        points := Rest(points, TheId(p.id)) + [p];
      }
      assert batch[..|chunks|] == batch;
      forall i: nat | IsLastAtItsPlace(chunks, i)
        ensures var id := IdOf(project, chunks[i].filePath, chunks[i].index, generation);
                && id in AsMap(points)
                && AsMap(points)[id] == Point(id, vectors[i], project, generation, chunks[i], commit)
      {
        UpsertStoresEach(old(AsMap(points)), project, generation, chunks, vectors, commit, i);
      }
    }

    method Delete(which: Selector)
      requires Named(points)
      modifies this
      ensures Named(points) && AsMap(points) == Without(old(AsMap(points)), which)
      ensures points == Rest(old(points), which)
    {
      RestKeepsNamed(points, which);
      RestIsWithout(points, which);
      points := Rest(points, which);
    }

    method DeleteGeneration(project: ProjectId, generation: nat)
      requires Named(points)
      modifies this
      ensures Named(points) && AsMap(points) == Without(old(AsMap(points)), TheGeneration(project, generation))
      ensures forall p :: p in points <==> p in old(points) && !(p.project == project && p.generation == generation)
    {
      forall p ensures p in Rest(points, TheGeneration(project, generation)) <==>
          p in points && !(p.project == project && p.generation == generation) {
        RestHolds(points, TheGeneration(project, generation), p);
      }
      Delete(TheGeneration(project, generation));
    }

    method DeleteProject(project: ProjectId)
      requires Named(points)
      modifies this
      ensures Named(points) && AsMap(points) == Without(old(AsMap(points)), TheProject(project))
      ensures forall p :: p in points <==> p in old(points) && !(p.project == project)
    {
      forall p ensures p in Rest(points, TheProject(project)) <==> p in points && p.project != project {
        RestHolds(points, TheProject(project), p);
      }
      Delete(TheProject(project));
    }

    /** The chunks of one generation under a path prefix, by path and chunk index, in pages. */
    method Scroll(project: ProjectId, generation: nat, prefix: string, pageSize: nat) returns (pages: seq<seq<Point>>)
      requires pageSize > 0
      ensures Flat(pages) == Sorted(Matching(points, project, generation, prefix), ByPlace)
      ensures forall i :: 0 <= i < |pages| ==>
              0 < |pages[i]| <= pageSize && (i + 1 < |pages| ==> |pages[i]| == pageSize)
      // each point of that project and generation under that path, as often as it is stored, and no other
      ensures forall p :: multiset(Flat(pages))[p] ==
                if p.project == project && p.generation == generation && prefix <= p.chunk.filePath
                then multiset(points)[p] else 0
      // by path, and by chunk index within a path
      ensures forall i, j :: 0 <= i < j < |Flat(pages)| ==> ComesFirst(Flat(pages)[i].chunk, Flat(pages)[j].chunk)
    {
      var matches := Sorted(Matching(points, project, generation, prefix), ByPlace);
      pages := [];
      var start := 0;
      while start < |matches|
        invariant 0 <= start <= |matches| && Flat(pages) == matches[..start]
        invariant forall i :: 0 <= i < |pages| ==> 0 < |pages[i]| <= pageSize
        invariant forall i :: 0 <= i < |pages| && (i + 1 < |pages| || start < |matches|) ==> |pages[i]| == pageSize
      {
        var end := if start + pageSize < |matches| then start + pageSize else |matches|;
        var page := matches[start..end];
        assert matches[..start] + page == matches[..end];
        FlatSnoc(pages, page);
        pages := pages + [page];
        start := end;
      }
      assert matches[..start] == matches;
      SortedSorts(Matching(points, project, generation, prefix), ByPlace);
      forall p ensures multiset(matches)[p] ==
          if p.project == project && p.generation == generation && prefix <= p.chunk.filePath
          then multiset(points)[p] else 0
      {
        MatchingCounts(points, project, generation, prefix, p);
      }
      forall i, j | 0 <= i < j < |matches| ensures ComesFirst(matches[i].chunk, matches[j].chunk) {
        assert !Less(ByPlace(matches[j]), ByPlace(matches[i]));
        PlacesCompare(matches[j].chunk, matches[i].chunk);
      }
    }
  }

  /** By path, and within a path by index. */
  predicate ComesFirst(a: Chunk, b: Chunk) {
    Less(Points(a.filePath), Points(b.filePath)) || (a.filePath == b.filePath && a.index <= b.index)
  }

  lemma {:induction false} MatchingCounts(points: seq<Point>, project: ProjectId, generation: nat, prefix: string,
      p: Point)
    ensures multiset(Matching(points, project, generation, prefix))[p] ==
            if p.project == project && p.generation == generation && prefix <= p.chunk.filePath
            then multiset(points)[p] else 0
    decreases |points|
  {
    if points != [] {
      MatchingCounts(points[..|points| - 1], project, generation, prefix, p);
      assert points == points[..|points| - 1] + [points[|points| - 1]];
    }
  }

  /** A separator below every element makes the comparison of two lists lexicographic in the pair. */
  lemma {:induction false} PairsCompare(a: seq<int>, b: seq<int>, i: int, j: int)
    requires (forall k :: 0 <= k < |a| ==> a[k] >= 0) && forall k :: 0 <= k < |b| ==> b[k] >= 0
    ensures Less(a + [-1, i], b + [-1, j]) <==> Less(a, b) || (a == b && i < j)
    decreases |a|
  {
    var x, y := a + [-1, i], b + [-1, j];
    if a == [] && b == [] {
      assert x == [-1, i] && y == [-1, j] && x[1..] == [i] && y[1..] == [j] && [i][1..] == [] && [j][1..] == [];
    } else if a != [] && b != [] {
      assert x[1..] == a[1..] + [-1, i] && y[1..] == b[1..] + [-1, j];
      assert a == [a[0]] + a[1..] && b == [b[0]] + b[1..];
      PairsCompare(a[1..], b[1..], i, j);
    }
  }

  lemma PlacesCompare(a: Chunk, b: Chunk)
    ensures Less(Points(a.filePath) + [-1 as int, a.index as int],
                 Points(b.filePath) + [-1 as int, b.index as int]) <==>
            Less(Points(a.filePath), Points(b.filePath)) || (a.filePath == b.filePath && a.index < b.index)
    ensures Less(Points(a.filePath), Points(b.filePath)) || Less(Points(b.filePath), Points(a.filePath))
            || a.filePath == b.filePath
  {
    PairsCompare(Points(a.filePath), Points(b.filePath), a.index, b.index);
    LessIsTotal(Points(a.filePath), Points(b.filePath));
    if Points(a.filePath) == Points(b.filePath) {
      PointsAreFaithful(a.filePath, b.filePath);
    }
  }

  predicate InScope(p: Point, project: ProjectId, generation: nat, prefix: string) {
    p.project == project && p.generation == generation && prefix <= p.chunk.filePath
  }

  function Matching(points: seq<Point>, project: ProjectId, generation: nat, prefix: string): seq<Point> {
    if points == [] then []
    else Matching(points[..|points| - 1], project, generation, prefix)
         + (if InScope(points[|points| - 1], project, generation, prefix) then [points[|points| - 1]] else [])
  }

  /** The tuple (path, chunk index); the separator is below every code point. */
  const ByPlace: Point -> seq<int> := (p: Point) => Points(p.chunk.filePath) + [-1 as int, p.chunk.index as int]

  // ---------------------------------------------------------------- generations do not meet

  lemma {:induction false} UpsertedElsewhere(m: map<PointId, Point>, batch: seq<Point>, id: PointId)
    requires forall i :: 0 <= i < |batch| ==> batch[i].id != id
    ensures (id in Upserted(m, batch) <==> id in m) && (id in m ==> Upserted(m, batch)[id] == m[id])
    decreases |batch|
  {
    if batch != [] {
      UpsertedElsewhere(m, batch[..|batch| - 1], id);
    }
  }

  /** Writing one generation leaves every point of every other generation, and of every other project,
      exactly as it was. */
  lemma UpsertLeavesOtherGenerations(m: map<PointId, Point>, project: ProjectId, generation: nat, chunks: seq<Chunk>,
                                     vectors: seq<Vector>, commit: string, other: Point)
    requires |chunks| == |vectors|
    requires other.id == IdOf(other.project, other.chunk.filePath, other.chunk.index, other.generation)
    requires other.project != project || other.generation != generation
    ensures var n := Upserted(m, Batch(project, generation, chunks, vectors, commit));
            (other.id in n <==> other.id in m) && (other.id in m ==> n[other.id] == m[other.id])
  {
    var batch := Batch(project, generation, chunks, vectors, commit);
    forall i | 0 <= i < |batch| ensures batch[i].id != other.id {
      SameIdSamePlace(batch[i], other);
    }
    UpsertedElsewhere(m, batch, other.id);
  }

  /** Deleting a generation, or a project, of a store whose points sit under their names: what is named after
      it is gone, and what is named after anything else is as it was. */
  lemma DeleteGoesByName(points: seq<Point>, which: Selector, project: ProjectId, path: string, index: nat,
      generation: nat)
    requires Named(points) && !which.TheId?
    ensures var before, after := AsMap(points), Without(AsMap(points), which);
            var id := IdOf(project, path, index, generation);
            if project == which.project && (which.TheProject? || generation == which.generation) then id !in after
            else (id in after <==> id in before) && (id in before ==> after[id] == before[id])
  {
    var id := IdOf(project, path, index, generation);
    if id in AsMap(points) {
      var p := AsMap(points)[id];
      AsMapHolds(points, id);
      NameIsInjective(path, index, generation, p.chunk.filePath, p.chunk.index, p.generation);
    }
  }
}
