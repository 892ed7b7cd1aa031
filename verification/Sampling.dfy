/** Choosing the chunks an eval set is built from (`eval/sampling.py`): every file gives its best chunk, in a
    shuffled order, before any gives its second. The shuffle is an input; it permutes its argument. */
module Sampling {
  import opened Prelude
  import opened Ordering

  datatype Payload = Payload(path: string, symbol: Option<string>, startLine: int, endLine: int, index: int,
      content: string)

  datatype SampledChunk = SampledChunk(path: string, startLine: int, endLine: int, symbol: Option<string>,
      content: string)

  const PathOf: Payload -> string := (p: Payload) => p.path
  const Rank: Payload -> seq<int> := (p: Payload) =>
      [if HasSymbol(p) then 0 else 1, -|p.content|, p.startLine, p.endLine, p.index]

  predicate HasSymbol(p: Payload) {
    p.symbol.Some? && p.symbol.value != ""
  }

  function Chosen(p: Payload): SampledChunk {
    SampledChunk(p.path, p.startLine, p.endLine, if HasSymbol(p) then p.symbol else None, p.content)
  }

  /** The `place`-th best chunk of the `file`-th file. */
  datatype Pick = Pick(file: nat, place: nat)

  // ---------------------------------------------------------------- the round robin

  /** One round over the first `upTo` files. */
  function Round(sizes: seq<nat>, place: nat, upTo: nat): seq<Pick>
    requires upTo <= |sizes|
  {
    if upTo == 0 then []
    else Round(sizes, place, upTo - 1) + (if place < sizes[upTo - 1] then [Pick(upTo - 1, place)] else [])
  }

  /** `level` whole rounds. */
  function Rounds(sizes: seq<nat>, level: nat): seq<Pick> {
    if level == 0 then [] else Rounds(sizes, level - 1) + Round(sizes, level - 1, |sizes|)
  }

  /** `level` whole rounds and the first `cut` files of the next. */
  function Picks(sizes: seq<nat>, level: nat, cut: nat): seq<Pick>
    requires cut <= |sizes|
  {
    Rounds(sizes, level) + Round(sizes, level, cut)
  }

  ghost predicate InRound(sizes: seq<nat>, p: Pick, place: nat, upTo: nat) {
    p.place == place && p.file < upTo && p.file < |sizes| && p.place < sizes[p.file]
  }

  lemma {:induction false} RoundHolds(sizes: seq<nat>, place: nat, upTo: nat, p: Pick)
    requires upTo <= |sizes|
    ensures p in Round(sizes, place, upTo) <==> InRound(sizes, p, place, upTo)
  {
    if upTo > 0 {
      RoundHolds(sizes, place, upTo - 1, p);
    }
  }

  lemma {:induction false} RoundsHold(sizes: seq<nat>, level: nat, p: Pick)
    ensures p in Rounds(sizes, level) <==> p.file < |sizes| && p.place < level && p.place < sizes[p.file]
  {
    if level > 0 {
      var before, last := Rounds(sizes, level - 1), Round(sizes, level - 1, |sizes|);
      RoundsHold(sizes, level - 1, p);
      RoundHolds(sizes, level - 1, |sizes|, p);
      assert p in before + last <==> p in before || p in last;
      assert p in last <==> p.place == level - 1 && p.file < |sizes| && p.place < sizes[p.file];
    }
  }

  /** How many chunks a file gives: `level` of them, one more for the files before the cut, or all it has. */
  function Share(sizes: seq<nat>, level: nat, cut: nat, file: nat): nat
    requires file < |sizes|
  {
    Min(sizes[file], if file < cut then level + 1 else level)
  }

  /** The closed form: each file gives exactly its best chunks, as many as its share. */
  lemma PicksAreShares(sizes: seq<nat>, level: nat, cut: nat, p: Pick)
    requires cut <= |sizes|
    ensures p in Picks(sizes, level, cut) <==> p.file < |sizes| && p.place < Share(sizes, level, cut, p.file)
  {
    RoundsHold(sizes, level, p);
    RoundHolds(sizes, level, cut, p);
  }

  /** Earlier rounds come first, and within a round earlier files. */
  predicate Sooner(p: Pick, q: Pick) {
    p.place < q.place || (p.place == q.place && p.file < q.file)
  }

  ghost predicate InTurn(picks: seq<Pick>) {
    forall i, j :: 0 <= i < j < |picks| ==> Sooner(picks[i], picks[j])
  }

  lemma {:induction false} RoundIsInTurn(sizes: seq<nat>, place: nat, upTo: nat)
    requires upTo <= |sizes|
    ensures InTurn(Round(sizes, place, upTo))
    ensures forall i :: 0 <= i < |Round(sizes, place, upTo)| ==>
              Round(sizes, place, upTo)[i].place == place && Round(sizes, place, upTo)[i].file < upTo
  {
    if upTo > 0 {
      RoundIsInTurn(sizes, place, upTo - 1);
    }
  }

  lemma {:induction false} RoundsAreInTurn(sizes: seq<nat>, level: nat)
    ensures InTurn(Rounds(sizes, level))
    ensures forall i :: 0 <= i < |Rounds(sizes, level)| ==> Rounds(sizes, level)[i].place < level
  {
    if level > 0 {
      RoundsAreInTurn(sizes, level - 1);
      RoundIsInTurn(sizes, level - 1, |sizes|);
    }
  }

  /** So no chunk is picked twice. */
  lemma PicksAreInTurn(sizes: seq<nat>, level: nat, cut: nat)
    requires cut <= |sizes|
    ensures InTurn(Picks(sizes, level, cut)) && Distinct(Picks(sizes, level, cut))
  {
    RoundsAreInTurn(sizes, level);
    RoundIsInTurn(sizes, level, cut);
  }

  function Sum(sizes: seq<nat>): nat {
    if sizes == [] then 0 else Sum(sizes[..|sizes| - 1]) + sizes[|sizes| - 1]
  }

  function Shares(sizes: seq<nat>, level: nat, cut: nat): (r: seq<nat>)
    ensures |r| == |sizes|
  {
    seq(|sizes|, i requires 0 <= i < |sizes| => Share(sizes, level, cut, i))
  }

  lemma {:induction false} SumOfOneMore(a: seq<nat>, b: seq<nat>, at: nat)
    requires |a| == |b| && at < |a| && b[at] == a[at] + 1
    requires forall i :: 0 <= i < |a| && i != at ==> b[i] == a[i]
    ensures Sum(b) == Sum(a) + 1
    decreases |a|
  {
    var n := |a| - 1;
    if at == n {
      assert a[..n] == b[..n];
    } else {
      SumOfOneMore(a[..n], b[..n], at);
    }
  }

  lemma TurnCounts(sizes: seq<nat>, level: nat, cut: nat)
    requires 0 < cut <= |sizes|
    ensures |Picks(sizes, level, cut)| - |Picks(sizes, level, cut - 1)|
            == Sum(Shares(sizes, level, cut)) - Sum(Shares(sizes, level, cut - 1))
  {
    var a, b := Shares(sizes, level, cut - 1), Shares(sizes, level, cut);
    if level < sizes[cut - 1] {
      SumOfOneMore(a, b, cut - 1);
    } else {
      assert a == b;
    }
  }

  /** The picks are as many as the shares add up to. */
  lemma {:induction false} PicksCount(sizes: seq<nat>, level: nat, cut: nat)
    requires cut <= |sizes|
    ensures |Picks(sizes, level, cut)| == Sum(Shares(sizes, level, cut))
    decreases level, cut
  {
    if cut > 0 {
      PicksCount(sizes, level, cut - 1);
      TurnCounts(sizes, level, cut);
    } else if level > 0 {
      PicksCount(sizes, level - 1, |sizes|);
      assert Shares(sizes, level, 0) == Shares(sizes, level - 1, |sizes|);
    } else {
      SumOfZeros(Shares(sizes, 0, 0));
    }
  }

  lemma {:induction false} SumOfZeros(a: seq<nat>)
    requires forall i :: 0 <= i < |a| ==> a[i] == 0
    ensures Sum(a) == 0
  {
    if a != [] {
      SumOfZeros(a[..|a| - 1]);
    }
  }

  lemma {:induction false} SumIsMonotone(a: seq<nat>, b: seq<nat>)
    requires |a| == |b| && forall i :: 0 <= i < |a| ==> a[i] <= b[i]
    ensures Sum(a) <= Sum(b)
    decreases |a|
  {
    if a != [] {
      SumIsMonotone(a[..|a| - 1], b[..|b| - 1]);
    }
  }

  // ---------------------------------------------------------------- the loop

  function Sizes(queues: seq<seq<Payload>>): (r: seq<nat>)
    ensures |r| == |queues| && forall i :: 0 <= i < |r| ==> r[i] == |queues[i]|
  {
    seq(|queues|, i requires 0 <= i < |queues| => |queues[i]|)
  }

  /** `chosen` is the chunks of `picks`, in order. */
  ghost predicate Selects(chosen: seq<SampledChunk>, queues: seq<seq<Payload>>, picks: seq<Pick>) {
    && |chosen| == |picks|
    && forall i :: 0 <= i < |picks| ==>
         && picks[i].file < |queues| && picks[i].place < |queues[picks[i].file]|
         && chosen[i] == Chosen(queues[picks[i].file][picks[i].place])
  }

  /** What is left of each queue after `level` rounds and the files before `cut`. */
  ghost predicate LeftOver(left: map<string, seq<Payload>>, files: seq<string>, queues: seq<seq<Payload>>, level: nat,
      cut: nat)
    requires |files| == |queues|
  {
    forall j :: 0 <= j < |files| ==>
        files[j] in left && left[files[j]] == queues[j][Share(Sizes(queues), level, cut, j)..]
  }

  /** One turn of one file. */
  lemma TakeTurn(chosen: seq<SampledChunk>, queues: seq<seq<Payload>>, level: nat, cut: nat)
    requires cut < |queues| && Selects(chosen, queues, Picks(Sizes(queues), level, cut))
    ensures var next := Picks(Sizes(queues), level, cut + 1);
            if level < |queues[cut]| then Selects(chosen + [Chosen(queues[cut][level])], queues, next)
            else Selects(chosen, queues, next)
  {
    var sizes := Sizes(queues);
    assert Picks(sizes, level, cut + 1)
        == Picks(sizes, level, cut) + (if level < sizes[cut] then [Pick(cut, level)] else []);
  }

  /** The files in turn, until the count is reached. */
  method OneRound(left0: map<string, seq<Payload>>, files: seq<string>, chosen0: seq<SampledChunk>, count: nat,
                  ghost queues: seq<seq<Payload>>, ghost level: nat)
    returns (left: map<string, seq<Payload>>, chosen: seq<SampledChunk>, ghost cut: nat)
    requires |files| == |queues| && Distinct(files) && |chosen0| < count
    requires LeftOver(left0, files, queues, level, 0) && Selects(chosen0, queues, Picks(Sizes(queues), level, 0))
    ensures cut <= |files| && LeftOver(left, files, queues, level, cut)
    ensures Selects(chosen, queues, Picks(Sizes(queues), level, cut))
    ensures |chosen| <= count && (cut == |files| || |chosen| == count)
  {
    left, chosen, cut := left0, chosen0, 0;
    for f := 0 to |files|
      invariant cut == f && LeftOver(left, files, queues, level, f)
      invariant Selects(chosen, queues, Picks(Sizes(queues), level, f)) && |chosen| <= count
    {
      if |chosen| == count {
        break;
      }
      var path := files[f];
      TakeTurn(chosen, queues, level, f);
      assert left[path] == queues[f][Min(|queues[f]|, level)..];
      if left[path] != [] {
        chosen := chosen + [Chosen(left[path][0])];
        left := left[path := left[path][1..]];
      }
      cut := f + 1;
    }
  }

  lemma WholeRoundIsNextLevel(left: map<string, seq<Payload>>, files: seq<string>, queues: seq<seq<Payload>>,
      level: nat)
    requires |files| == |queues| && LeftOver(left, files, queues, level, |files|)
    ensures LeftOver(left, files, queues, level + 1, 0)
    ensures Picks(Sizes(queues), level + 1, 0) == Picks(Sizes(queues), level, |files|)
  {
  }

  /** A round that starts with something left and is not cut short picks something. */
  lemma RoundAdvances(left: map<string, seq<Payload>>, files: seq<string>, queues: seq<seq<Payload>>, level: nat,
      j: nat)
    requires |files| == |queues| && LeftOver(left, files, queues, level, 0) && j < |files| && left[files[j]] != []
    ensures |Picks(Sizes(queues), level, 0)| < |Picks(Sizes(queues), level, |files|)|
  {
    RoundHolds(Sizes(queues), level, |files|, Pick(j, level));
  }

  lemma PicksStayWithinSizes(queues: seq<seq<Payload>>, level: nat, cut: nat)
    requires cut <= |queues|
    ensures |Picks(Sizes(queues), level, cut)| <= Sum(Sizes(queues))
  {
    PicksCount(Sizes(queues), level, cut);
    SumIsMonotone(Shares(Sizes(queues), level, cut), Sizes(queues));
  }

  lemma NothingLeftMeansAll(left: map<string, seq<Payload>>, files: seq<string>, queues: seq<seq<Payload>>, level: nat,
      cut: nat)
    requires |files| == |queues| && cut <= |files| && LeftOver(left, files, queues, level, cut)
    requires forall j :: 0 <= j < |files| ==> left[files[j]] == []
    ensures |Picks(Sizes(queues), level, cut)| == Sum(Sizes(queues))
  {
    PicksCount(Sizes(queues), level, cut);
    assert Shares(Sizes(queues), level, cut) == Sizes(queues);
  }

  /** `any(queues.values())`, with a file that has something left if so. */
  ghost predicate Any(any: bool, which: nat, left: map<string, seq<Payload>>, files: seq<string>) {
    && (forall j :: 0 <= j < |files| ==> files[j] in left)
    && if any then which < |files| && left[files[which]] != []
       else forall j :: 0 <= j < |files| ==> left[files[j]] == []
  }

  method AnyLeft(left: map<string, seq<Payload>>, files: seq<string>) returns (any: bool, ghost which: nat)
    requires forall j :: 0 <= j < |files| ==> files[j] in left
    ensures Any(any, which, left, files)
  {
    any, which := false, 0;
    for i := 0 to |files|
      invariant if any then which < |files| && left[files[which]] != []
                else forall j :: 0 <= j < i ==> left[files[j]] == []
    {
      if left[files[i]] != [] {
        any, which := true, i;
      }
    }
  }

  /** Where the loop stands: so many whole rounds, and part of the next only if the count was reached. */
  ghost predicate Stands(left: map<string, seq<Payload>>, files: seq<string>, queues: seq<seq<Payload>>,
                         chosen: seq<SampledChunk>, count: nat, level: nat, cut: nat)
    requires |files| == |queues|
  {
    && cut <= |files| && LeftOver(left, files, queues, level, cut)
    && Selects(chosen, queues, Picks(Sizes(queues), level, cut))
    && |chosen| <= count && (cut == 0 || |chosen| == count)
  }

  /** One turn of the outer loop. */
  method NextRound(left0: map<string, seq<Payload>>, files: seq<string>, chosen0: seq<SampledChunk>, count: nat,
                   ghost queues: seq<seq<Payload>>, ghost level0: nat, ghost cut0: nat, ghost which: nat)
    returns (left: map<string, seq<Payload>>, chosen: seq<SampledChunk>, ghost level: nat, ghost cut: nat)
    requires |files| == |queues| && Distinct(files) && |chosen0| < count
    requires Stands(left0, files, queues, chosen0, count, level0, cut0) && which < |files| && left0[files[which]] != []
    ensures Stands(left, files, queues, chosen, count, level, cut) && |chosen0| < |chosen|
  {
    level := level0;
    RoundAdvances(left0, files, queues, level, which);
    left, chosen, cut := OneRound(left0, files, chosen0, count, queues, level);
    if |chosen| < count {
      WholeRoundIsNextLevel(left, files, queues, level);
      level, cut := level + 1, 0;
    }
  }

  lemma CountIsReached(left: map<string, seq<Payload>>, files: seq<string>, queues: seq<seq<Payload>>,
                       chosen: seq<SampledChunk>, count: nat, level: nat, cut: nat)
    requires |files| == |queues| && Stands(left, files, queues, chosen, count, level, cut)
    requires |chosen| == count || forall j :: 0 <= j < |files| ==> left[files[j]] == []
    ensures |chosen| == Min(count, Sum(Sizes(queues)))
  {
    PicksStayWithinSizes(queues, level, cut);
    if |chosen| < count {
      NothingLeftMeansAll(left, files, queues, level, cut);
    }
  }

  /** The two nested loops of `sample_chunks`: as many chunks as asked for or as there are, in turn. */
  method RoundRobin(left0: map<string, seq<Payload>>, files: seq<string>, count: nat, ghost queues: seq<seq<Payload>>)
    returns (chosen: seq<SampledChunk>, ghost level: nat, ghost cut: nat)
    requires |files| == |queues| && Distinct(files)
    requires forall j :: 0 <= j < |files| ==> files[j] in left0 && left0[files[j]] == queues[j]
    ensures cut <= |files| && Selects(chosen, queues, Picks(Sizes(queues), level, cut))
    ensures |chosen| == Min(count, Sum(Sizes(queues)))
  {
    var left := left0;
    chosen, level, cut := [], 0, 0;
    assert Picks(Sizes(queues), 0, 0) == [];
    var any: bool;
    ghost var which: nat;
    any, which := AnyLeft(left, files);
    while |chosen| < count && any
      invariant Stands(left, files, queues, chosen, count, level, cut) && Any(any, which, left, files)
      decreases count - |chosen|
    {
      left, chosen, level, cut := NextRound(left, files, chosen, count, queues, level, cut, which);
      any, which := AnyLeft(left, files);
    }
    CountIsReached(left, files, queues, chosen, count, level, cut);
  }

  // ---------------------------------------------------------------- the whole sample

  /** Each file's chunks, best first. */
  ghost function QueuesOf(payloads: seq<Payload>, files: seq<string>): (queues: seq<seq<Payload>>)
    ensures |queues| == |files|
    ensures forall j :: 0 <= j < |files| ==> queues[j] == Sorted(Having(payloads, PathOf, files[j]), Rank)
  {
    seq(|files|, j requires 0 <= j < |files| => Sorted(Having(payloads, PathOf, files[j]), Rank))
  }

  /** The sorted file names, which the seeded generator then shuffles. */
  function FileNames(payloads: seq<Payload>): seq<string> {
    Sorted(FirstSeen(payloads, PathOf), Points)
  }

  lemma {:induction false} DistinctCountsOnce(s: seq<string>, x: string)
    requires Distinct(s)
    ensures multiset(s)[x] <= 1
  {
    if s != [] {
      DistinctCountsOnce(s[1..], x);
      assert s == [s[0]] + s[1..];
      assert s[0] !in s[1..];
    }
  }

  lemma CountingTwice(s: seq<string>, i: nat, j: nat)
    requires i < j < |s| && s[i] == s[j]
    ensures multiset(s)[s[i]] >= 2
  {
    assert s == s[..j] + s[j..];
    assert s[i] in s[..j] && s[j] in s[j..];
  }

  /** A shuffle of the file names repeats none and drops none. */
  lemma ShuffleKeepsNames(payloads: seq<Payload>, files: seq<string>)
    requires multiset(files) == multiset(FileNames(payloads))
    ensures Distinct(files)
    ensures forall v :: v in files <==> v in FirstSeen(payloads, PathOf)
  {
    var names := FirstSeen(payloads, PathOf);
    FirstSeenIsDistinct(payloads, PathOf);
    SortedSorts(names, Points);
    forall i, j | 0 <= i < j < |files| ensures files[i] != files[j] {
      DistinctCountsOnce(names, files[i]);
      if files[i] == files[j] {
        CountingTwice(files, i, j);
      }
    }
    forall v ensures v in files <==> v in names {
      assert v in files <==> v in multiset(files);
      assert v in names <==> v in multiset(names);
    }
  }

  /** Every payload is in exactly one queue. */
  lemma {:induction false} QueuesHoldEverything(payloads: seq<Payload>, files: seq<string>)
    requires Distinct(files) && forall p :: p in payloads ==> p.path in files
    ensures Sum(Sizes(QueuesOf(payloads, files))) == |payloads|
    decreases |payloads|
  {
    var sizes := Sizes(QueuesOf(payloads, files));
    if payloads == [] {
      forall j | 0 <= j < |files| ensures sizes[j] == 0 {
        SortedSorts(Having(payloads, PathOf, files[j]), Rank);
      }
      SumOfZeros(sizes);
    } else {
      var before, last := payloads[..|payloads| - 1], payloads[|payloads| - 1];
      assert payloads == before + [last];
      QueuesHoldEverything(before, files);
      assert last in payloads;
      var at :| 0 <= at < |files| && files[at] == last.path;
      forall j | 0 <= j < |files| ensures sizes[j] == Sizes(QueuesOf(before, files))[j] + (if j == at then 1 else 0) {
        HavingSnoc(before, last, PathOf, files[j]);
        SortedSorts(Having(payloads, PathOf, files[j]), Rank);
        SortedSorts(Having(before, PathOf, files[j]), Rank);
      }
      SumOfOneMore(Sizes(QueuesOf(before, files)), sizes, at);
    }
  }

  /** The picks at some level and cut, as many as asked for or as there are. */
  ghost predicate IsSample(chosen: seq<SampledChunk>, payloads: seq<Payload>, count: nat, files: seq<string>) {
    && |chosen| == Min(count, |payloads|)
    && exists level, cut :: IsPickedAt(chosen, payloads, files, level, cut)
  }

  ghost predicate IsPickedAt(chosen: seq<SampledChunk>, payloads: seq<Payload>, files: seq<string>, level: nat,
      cut: nat) {
    cut <= |files| && Selects(chosen, QueuesOf(payloads, files), Picks(Sizes(QueuesOf(payloads, files)), level, cut))
  }

  /** `sample_chunks`, with the shuffled file order: exactly as many chunks as asked for or as there are,
      each file giving its best ones, round by round. */
  method SampleChunks(payloads: seq<Payload>, count: nat, files: seq<string>)
      returns (chosen: seq<SampledChunk>, ghost level: nat, ghost cut: nat)
    requires multiset(files) == multiset(FileNames(payloads))
    ensures IsSample(chosen, payloads, count, files) && IsPickedAt(chosen, payloads, files, level, cut)
  {
    var byFile, order := Group(payloads, PathOf);
    ShuffleKeepsNames(payloads, files);
    forall p | p in payloads ensures p.path in files {
      assert PathOf(p) == p.path;
      FirstSeenHasNames(payloads, PathOf, p.path);
    }
    var queues := SortEach(byFile, files, Rank);
    QueuesHoldEverything(payloads, files);
    assert forall j :: 0 <= j < |files| ==> files[j] in files;
    chosen, level, cut := RoundRobin(queues, files, count, QueuesOf(payloads, files));
    assert IsPickedAt(chosen, payloads, files, level, cut);
  }

  /** Chunks that name a symbol go before those that do not; then the longer, the one that starts earlier, the one
      that ends earlier, and the one of the lower index. */
  predicate NotWorse(p: Payload, q: Payload) {
    var named, other := p.symbol != None && p.symbol != Some(""), q.symbol != None && q.symbol != Some("");
    if named != other then named
    else if |p.content| != |q.content| then |p.content| > |q.content|
    else if p.startLine != q.startLine then p.startLine < q.startLine
    else if p.endLine != q.endLine then p.endLine < q.endLine
    else p.index <= q.index
  }

  lemma LessOfFive(a: seq<int>, b: seq<int>)
    requires |a| == |b| == 5
    ensures Less(a, b) <==>
            || a[0] < b[0]
            || (a[0] == b[0] && a[1] < b[1])
            || (a[0] == b[0] && a[1] == b[1] && a[2] < b[2])
            || (a[0] == b[0] && a[1] == b[1] && a[2] == b[2] && a[3] < b[3])
            || (a[0] == b[0] && a[1] == b[1] && a[2] == b[2] && a[3] == b[3] && a[4] < b[4])
  {
    assert a[1..][1..] == a[2..] && a[2..][1..] == a[3..] && a[3..][1..] == a[4..] && a[4..][1..] == [];
    assert b[1..][1..] == b[2..] && b[2..][1..] == b[3..] && b[3..][1..] == b[4..] && b[4..][1..] == [];
    assert Less(a[4..], b[4..]) <==> a[4] < b[4];
    assert Less(a[3..], b[3..]) <==> a[3] < b[3] || (a[3] == b[3] && Less(a[4..], b[4..]));
    assert Less(a[2..], b[2..]) <==> a[2] < b[2] || (a[2] == b[2] && Less(a[3..], b[3..]));
    assert Less(a[1..], b[1..]) <==> a[1] < b[1] || (a[1] == b[1] && Less(a[2..], b[2..]));
  }

  ghost predicate BestFirst(order: seq<Payload>) {
    forall i, j :: 0 <= i < j < |order| ==> NotWorse(order[i], order[j])
  }

  lemma QueueIsBestFirst(group: seq<Payload>)
    ensures BestFirst(Sorted(group, Rank)) && multiset(Sorted(group, Rank)) == multiset(group)
  {
    var order := Sorted(group, Rank);
    SortedSorts(group, Rank);
    forall i, j | 0 <= i < j < |order| ensures NotWorse(order[i], order[j]) {
      assert !Less(Rank(order[j]), Rank(order[i]));
      LessOfFive(Rank(order[j]), Rank(order[i]));
    }
  }

  /** The sampled chunk is this payload's, an empty symbol counting as none. */
  predicate IsTaken(c: SampledChunk, p: Payload) {
    && c.path == p.path && c.startLine == p.startLine && c.endLine == p.endLine && c.content == p.content
    && c.symbol == if p.symbol == Some("") then None else p.symbol
  }

  ghost predicate IsAmong(c: SampledChunk, order: seq<Payload>, n: nat) {
    exists i :: 0 <= i < n && i < |order| && IsTaken(c, order[i])
  }

  ghost predicate IsIn(p: Payload, chosen: seq<SampledChunk>) {
    exists c :: c in chosen && IsTaken(c, p)
  }

  lemma BestAreIn(chosen: seq<SampledChunk>, payloads: seq<Payload>, files: seq<string>, level: nat, cut: nat,
                  j: nat, i: nat)
    requires IsPickedAt(chosen, payloads, files, level, cut) && j < |files|
    requires i < Share(Sizes(QueuesOf(payloads, files)), level, cut, j)
    ensures i < |QueuesOf(payloads, files)[j]| && IsIn(QueuesOf(payloads, files)[j][i], chosen)
  {
    var sizes := Sizes(QueuesOf(payloads, files));
    PicksAreShares(sizes, level, cut, Pick(j, i));
    var at :| 0 <= at < |Picks(sizes, level, cut)| && Picks(sizes, level, cut)[at] == Pick(j, i);
    assert chosen[at] in chosen && IsTaken(chosen[at], QueuesOf(payloads, files)[j][i]);
  }

  lemma OnlyBestAreIn(chosen: seq<SampledChunk>, payloads: seq<Payload>, files: seq<string>, level: nat, cut: nat,
                      j: nat, at: nat)
    requires IsPickedAt(chosen, payloads, files, level, cut) && j < |files| && Distinct(files)
    requires at < |chosen| && chosen[at].path == files[j]
    ensures IsAmong(chosen[at], QueuesOf(payloads, files)[j], Share(Sizes(QueuesOf(payloads, files)), level, cut, j))
  {
    var sizes := Sizes(QueuesOf(payloads, files));
    var pick := Picks(sizes, level, cut)[at];
    PicksAreShares(sizes, level, cut, pick);
    PickedFromItsFile(payloads, files, pick.file, pick.place);
    assert pick.file == j;
    assert IsTaken(chosen[at], QueuesOf(payloads, files)[j][pick.place]);
  }

  /** A sample takes of each file its best chunks, so many of them, and no other. */
  lemma EachFileGivesItsBest(chosen: seq<SampledChunk>, payloads: seq<Payload>, count: nat, files: seq<string>, j: nat)
      returns (order: seq<Payload>, n: nat)
    requires IsSample(chosen, payloads, count, files) && Distinct(files) && j < |files|
    ensures multiset(order) == multiset(Having(payloads, PathOf, files[j])) && BestFirst(order) && n <= |order|
    ensures forall i :: 0 <= i < n ==> IsIn(order[i], chosen)
    ensures forall c :: c in chosen && c.path == files[j] ==> IsAmong(c, order, n)
  {
    var level, cut :| IsPickedAt(chosen, payloads, files, level, cut);
    order := QueuesOf(payloads, files)[j];
    n := Share(Sizes(QueuesOf(payloads, files)), level, cut, j);
    QueueIsBestFirst(Having(payloads, PathOf, files[j]));
    forall i | 0 <= i < n ensures IsIn(order[i], chosen) {
      BestAreIn(chosen, payloads, files, level, cut, j, i);
    }
    forall c | c in chosen && c.path == files[j] ensures IsAmong(c, order, n) {
      var at :| 0 <= at < |chosen| && chosen[at] == c;
      OnlyBestAreIn(chosen, payloads, files, level, cut, j, at);
    }
  }

  lemma PickedFromItsFile(payloads: seq<Payload>, files: seq<string>, f: nat, place: nat)
    requires f < |files| && place < |QueuesOf(payloads, files)[f]|
    ensures QueuesOf(payloads, files)[f][place].path == files[f]
  {
    var group := Having(payloads, PathOf, files[f]);
    var p := Sorted(group, Rank)[place];
    SortedHasSameElements(group, Rank, p);
    assert p in Sorted(group, Rank);
    HavingSelects(payloads, PathOf, files[f], p);
    assert PathOf(p) == p.path;
  }

  /** No two chunks of one file rank the same: the chunk index settles it. */
  ghost predicate DistinctRanks(payloads: seq<Payload>) {
    forall i, j :: 0 <= i < j < |payloads| && PathOf(payloads[i]) == PathOf(payloads[j]) ==>
        Rank(payloads[i]) != Rank(payloads[j])
  }

  /** Then neither the names the generator shuffles nor the queues depend on the store's scroll order. */
  lemma SampleForgetsOrder(p: seq<Payload>, q: seq<Payload>, files: seq<string>)
    requires multiset(p) == multiset(q) && DistinctRanks(p) && DistinctRanks(q)
    ensures FileNames(p) == FileNames(q)
    ensures QueuesOf(p, files) == QueuesOf(q, files)
  {
    NamesForgetOrder(p, q, PathOf);
    forall j | 0 <= j < |files| ensures QueuesOf(p, files)[j] == QueuesOf(q, files)[j] {
      HavingPermutes(p, q, PathOf, files[j]);
      HavingKeepsDistinct(p, PathOf, files[j], Rank);
      HavingKeepsDistinct(q, PathOf, files[j], Rank);
      SortForgetsOrder(Having(p, PathOf, files[j]), Having(q, PathOf, files[j]), Rank);
    }
  }

  /** And the picks themselves are settled by the sizes and how many there are. */
  lemma PicksAreSettledByCount(sizes: seq<nat>, level: nat, cut: nat, level': nat, cut': nat)
    requires cut <= |sizes| && cut' <= |sizes|
    requires |Picks(sizes, level, cut)| == |Picks(sizes, level', cut')|
    ensures Picks(sizes, level, cut) == Picks(sizes, level', cut')
  {
    if level < level' || (level == level' && cut <= cut') {
      PicksExtend(sizes, level, cut, level', cut');
    } else {
      PicksExtend(sizes, level', cut', level, cut);
    }
  }

  lemma {:induction false} PicksExtend(sizes: seq<nat>, level: nat, cut: nat, level': nat, cut': nat)
    requires cut <= |sizes| && cut' <= |sizes|
    requires level < level' || (level == level' && cut <= cut')
    ensures Picks(sizes, level, cut) <= Picks(sizes, level', cut')
    decreases level', cut'
  {
    if level == level' && cut == cut' {
    } else if cut' > 0 {
      PicksExtend(sizes, level, cut, level', cut' - 1);
    } else {
      PicksExtend(sizes, level, cut, level' - 1, |sizes|);
      assert Picks(sizes, level', 0) == Rounds(sizes, level') == Picks(sizes, level' - 1, |sizes|);
    }
  }

  /** So two runs over the same chunks in whatever order, with the same shuffle, return the same sample. */
  lemma SampleIsDetermined(p: seq<Payload>, q: seq<Payload>, count: nat, files: seq<string>,
                           chosen: seq<SampledChunk>, other: seq<SampledChunk>)
    requires multiset(p) == multiset(q) && DistinctRanks(p) && DistinctRanks(q)
    requires IsSample(chosen, p, count, files) && IsSample(other, q, count, files)
    ensures chosen == other
  {
    SampleForgetsOrder(p, q, files);
    assert |p| == |multiset(p)| && |q| == |multiset(q)|;
    var sizes := Sizes(QueuesOf(p, files));
    var level, cut :| IsPickedAt(chosen, p, files, level, cut);
    var level', cut' :| IsPickedAt(other, q, files, level', cut');
    PicksAreSettledByCount(sizes, level, cut, level', cut');
  }
}
