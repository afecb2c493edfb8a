/**
 * BSPNode: a binary space partitioning tree built from a list of polygons and
 * traversed back to front. The tree is generic in the polygon type P: the plane
 * test `classify(p, splitter)`, the coplanar tie-break `sameDir(p, splitter)`
 * (normal . splitter.normal > 0), the splitting of a spanning polygon and the
 * camera test `cameraInFront(splitter)` (camera distance > 0) are parameters.
 * The source skips the splitter by object identity; its lists never hold one
 * object twice, so the model skips it by position. A tree that is null in the
 * source is Empty here.
 */
module Bsp {
  import opened Wrappers
  import opened Polyfaces
  import opened Arithmetic

  const WEIGHT_BALANCE: real := 1.0
  const WEIGHT_SPLIT: real := 10.0
  const MAX_CANDIDATES: int := 20
  /** Double.MAX_VALUE = (2^53 - 1) * 2^971, exactly. */
  const MAX_DOUBLE: real := 179769313486231570814527423731704356798070567525844996598917476803157260780028538760589558632766878171540458953514382464234321326889464182768467546703537516986049910576551282076245490090389328944075868508455133942304583236903222948165808559332123348274797826204144723168738177180919299881250404026184124858368.0
  /** A Java list holds at most Integer.MAX_VALUE elements. */
  const MAX_LIST: int := 0x7FFF_FFFF

  datatype Tree<P> = Empty | Node(splitter: P, front: Tree<P>, back: Tree<P>)

  /** size(): the number of nodes. */
  function Size<P(==)>(t: Tree<P>): nat
  {
    match t
    case Empty => 0
    case Node(_, f, b) => 1 + Size(f) + Size(b)
  }

  /** deepness(): the number of nodes on the longest path from the root. */
  function Depth<P(==)>(t: Tree<P>): nat
  {
    match t
    case Empty => 0
    case Node(_, f, b) => 1 + if Depth(f) >= Depth(b) then Depth(f) else Depth(b)
  }

  lemma {:induction false} DepthAtMostSize<P>(t: Tree<P>)
    ensures Depth(t) <= Size(t)
    ensures t.Node? ==> 1 <= Depth(t)
  {
    match t
    case Empty =>
    case Node(_, f, b) =>
      DepthAtMostSize(f);
      DepthAtMostSize(b);
  }

  /** The splitters of all nodes. */
  function Members<P(==)>(t: Tree<P>): multiset<P>
  {
    match t
    case Empty => multiset{}
    case Node(s, f, b) => multiset{s} + Members(f) + Members(b)
  }

  lemma {:induction false} MembersSize<P>(t: Tree<P>)
    ensures |Members(t)| == Size(t)
  {
    match t
    case Empty =>
    case Node(_, f, b) =>
      MembersSize(f);
      MembersSize(b);
  }

  // ---------------------------------------------------------------- cost

  /** How many of list[..k], other than the candidate itself, classify as `side`. */
  function CountUpTo<P(==)>(list: seq<P>, cand: nat, classify: (P, P) -> Side, side: Side, k: nat): (n: nat)
    requires cand < |list| && k <= |list|
    ensures n <= k
  {
    if k == 0 then 0
    else
      var here := if k - 1 != cand && classify(list[k - 1], list[cand]) == side then 1 else 0;
      CountUpTo(list, cand, classify, side, k - 1) + here
  }

  function Count<P(==)>(list: seq<P>, cand: nat, classify: (P, P) -> Side, side: Side): nat
    requires cand < |list|
  {
    CountUpTo(list, cand, classify, side, |list|)
  }

  function AbsInt(x: int): nat
  {
    if x < 0 then -x else x
  }

  /** calculateCost: balance penalty plus split penalty; COPLANAR counts for nothing. */
  function Cost<P(==)>(list: seq<P>, cand: nat, classify: (P, P) -> Side): real
    requires cand < |list|
  {
    WEIGHT_BALANCE * (AbsInt(Count(list, cand, classify, Front) - Count(list, cand, classify, Back)) as real)
    + WEIGHT_SPLIT * (Count(list, cand, classify, Spanning) as real)
  }

  /** Every polygon but the candidate falls in exactly one of the four counts. */
  lemma {:induction false} CountsPartition<P>(list: seq<P>, cand: nat, classify: (P, P) -> Side, k: nat)
    requires cand < |list| && k <= |list|
    ensures CountUpTo(list, cand, classify, Front, k) + CountUpTo(list, cand, classify, Back, k)
          + CountUpTo(list, cand, classify, Spanning, k) + CountUpTo(list, cand, classify, Coplanar, k)
          == k - (if cand < k then 1 else 0)
  {
    if k > 0 {
      CountsPartition(list, cand, classify, k - 1);
    }
  }

  lemma CostBounds<P>(list: seq<P>, cand: nat, classify: (P, P) -> Side)
    requires cand < |list|
    ensures 0.0 <= Cost(list, cand, classify) <= 11.0 * ((|list| - 1) as real)
  {
    CountsPartition(list, cand, classify, |list|);
  }

  /** Appending a polygon coplanar with the candidate does not change its cost. */
  lemma {:induction false} CountPrefix<P>(list: seq<P>, p: P, cand: nat, classify: (P, P) -> Side, side: Side, k: nat)
    requires cand < |list| && k <= |list|
    ensures CountUpTo(list + [p], cand, classify, side, k) == CountUpTo(list, cand, classify, side, k)
  {
    if k > 0 {
      CountPrefix(list, p, cand, classify, side, k - 1);
      assert (list + [p])[k - 1] == list[k - 1];
    }
  }

  lemma CoplanarIgnored<P>(list: seq<P>, p: P, cand: nat, classify: (P, P) -> Side)
    requires cand < |list| && classify(p, list[cand]) == Coplanar
    ensures Cost(list + [p], cand, classify) == Cost(list, cand, classify)
  {
    var l := list + [p];
    assert l[|list|] == p && l[cand] == list[cand];
    CountPrefix(list, p, cand, classify, Front, |list|);
    CountPrefix(list, p, cand, classify, Back, |list|);
    CountPrefix(list, p, cand, classify, Spanning, |list|);
  }

  /** calculateCost: one pass counting FRONT, BACK and SPANNING, skipping the candidate. */
  method CalculateCost<P(==)>(cand: nat, list: seq<P>, classify: (P, P) -> Side) returns (cost: real)
    requires cand < |list|
    ensures cost == Cost(list, cand, classify)
  {
    var front, back, spanning := 0, 0, 0;
    for j := 0 to |list|
      invariant front == CountUpTo(list, cand, classify, Front, j)
      invariant back == CountUpTo(list, cand, classify, Back, j)
      invariant spanning == CountUpTo(list, cand, classify, Spanning, j)
    {
      if j != cand {
        var classification := classify(list[j], list[cand]);
        if classification == Front {
          front := front + 1;
        } else if classification == Back {
          back := back + 1;
        } else if classification == Spanning {
          spanning := spanning + 1;
        }
      }
    }
    var balancePenalty := WEIGHT_BALANCE * (AbsInt(front - back) as real);
    var splitPenalty := WEIGHT_SPLIT * (spanning as real);
    cost := balancePenalty + splitPenalty;
  }

  // ---------------------------------------------------------------- splitter choice

  /** The sampling stride: list.size() / min(list.size(), MAX_CANDIDATES). */
  function Step(n: nat): (step: nat)
    requires n > 0
    ensures 1 <= step <= n
    ensures n <= MAX_CANDIDATES ==> step == 1
  {
    var numCandidates := if n < MAX_CANDIDATES then n else MAX_CANDIDATES;
    n / numCandidates
  }

  predicate IsCandidate(n: nat, step: nat, j: int)
    requires step >= 1
  {
    0 <= j < n && j % step == 0
  }

  /** With at most MAX_CANDIDATES polygons every one is a candidate. */
  lemma AllCandidatesWhenSmall(n: nat, j: int)
    requires 0 < n <= MAX_CANDIDATES && 0 <= j < n
    ensures IsCandidate(n, Step(n), j)
  {
  }

  /** The cost of every polygon of the list as a splitter. */
  function Costs<P(==)>(list: seq<P>, classify: (P, P) -> Side): (costs: seq<real>)
    ensures |costs| == |list|
    ensures forall j | 0 <= j < |list| :: costs[j] == Cost(list, j, classify)
  {
    seq(|list|, j requires 0 <= j < |list| => Cost(list, j, classify))
  }

  /**
   * The candidate loop from index i on, with the best index so far (-1 for null)
   * and its cost: a strictly lower cost replaces the current choice.
   */
  function Scan(costs: seq<real>, step: nat, i: nat, best: int, minCost: real): int
    requires step >= 1
    decreases |costs| - i
  {
    if i >= |costs| then best
    else if costs[i] < minCost then Scan(costs, step, i + step, i, costs[i])
    else Scan(costs, step, i + step, best, minCost)
  }

  /** The index of the splitter build chooses, or -1 when it finds none. */
  function Choose<P(==)>(list: seq<P>, classify: (P, P) -> Side): int
    requires |list| > 0
  {
    Scan(Costs(list, classify), Step(|list|), 0, -1, MAX_DOUBLE)
  }

  /** The candidates below i + step that are not below i: just i. */
  lemma NextCandidate(step: nat, i: nat, j: nat)
    requires step >= 1 && i % step == 0 && j % step == 0 && i <= j < i + step
    ensures j == i
  {
    var a, b := j / step, i / step;
    assert j - i == step * (a - b);
    MulMono(step, a - b);
  }

  /** The least cost among the candidates, at the earliest candidate with that cost. */
  ghost predicate IsBest(costs: seq<real>, step: nat, r: int, below: int)
    requires step >= 1
  {
    && IsCandidate(|costs|, step, r)
    && forall j | IsCandidate(|costs|, step, j) && j < below ::
         costs[r] <= costs[j] && (j < r ==> costs[r] < costs[j])
  }

  /** What the candidate loop has established after the candidates below i. */
  ghost predicate ScanState(costs: seq<real>, step: nat, i: nat, best: int, minCost: real)
    requires step >= 1
  {
    && i % step == 0
    && if best == -1 then i == 0 && minCost == MAX_DOUBLE
       else IsBest(costs, step, best, i) && best < i && minCost == costs[best]
  }

  /** The candidates below i + step are those below i and i itself. */
  lemma CandidatesBelowNext(costs: seq<real>, step: nat, i: nat)
    requires step >= 1 && i % step == 0
    ensures (i + step) % step == 0
    ensures forall j | IsCandidate(|costs|, step, j) && j < i + step :: j < i || j == i
  {
    assert i == step * (i / step);
    DivModUnique(i + step, step, i / step + 1, 0);
    forall j | IsCandidate(|costs|, step, j) && j < i + step
      ensures j < i || j == i
    {
      if j >= i {
        NextCandidate(step, i, j);
      }
    }
  }

  /** A strictly cheaper candidate i becomes the best so far ... */
  lemma ScanImproves(costs: seq<real>, step: nat, i: nat, best: int, minCost: real)
    requires step >= 1 && i < |costs| && costs[i] < minCost
    requires ScanState(costs, step, i, best, minCost)
    ensures ScanState(costs, step, i + step, i, costs[i])
  {
    CandidatesBelowNext(costs, step, i);
    forall j | IsCandidate(|costs|, step, j) && j < i
      ensures costs[i] < costs[j]
    {
      assert best != -1;
    }
  }

  /** ... and any other keeps the best so far, which exists as no cost reaches Double.MAX_VALUE. */
  lemma ScanKeeps(costs: seq<real>, step: nat, i: nat, best: int, minCost: real)
    requires step >= 1 && i < |costs| && MAX_DOUBLE > costs[i] >= minCost
    requires ScanState(costs, step, i, best, minCost)
    ensures best != -1 && ScanState(costs, step, i + step, best, minCost)
  {
    CandidatesBelowNext(costs, step, i);
  }

  lemma {:induction false} ScanChoosesBest(costs: seq<real>, step: nat, i: nat, best: int, minCost: real)
    requires step >= 1
    requires forall j | 0 <= j < |costs| :: costs[j] < MAX_DOUBLE
    requires ScanState(costs, step, i, best, minCost)
    requires best == -1 ==> i < |costs|
    ensures IsBest(costs, step, Scan(costs, step, i, best, minCost), |costs|)
    decreases |costs| - i
  {
    if i >= |costs| {
      assert IsBest(costs, step, best, i);
    } else {
      if costs[i] < minCost {
        ScanImproves(costs, step, i, best, minCost);
        ScanChoosesBest(costs, step, i + step, i, costs[i]);
      } else {
        ScanKeeps(costs, step, i, best, minCost);
        ScanChoosesBest(costs, step, i + step, best, minCost);
      }
    }
  }

  /**
   * For a non-empty list, some candidate is chosen (any finite cost beats
   * Double.MAX_VALUE); it has the least cost among the candidates and is the earliest
   * of those with that cost, the comparison being strict.
   */
  lemma ChooseIsBest<P>(list: seq<P>, classify: (P, P) -> Side)
    requires 0 < |list| <= MAX_LIST
    ensures IsCandidate(|list|, Step(|list|), Choose(list, classify))
    ensures forall j | IsCandidate(|list|, Step(|list|), j) ::
      Cost(list, Choose(list, classify), classify) <= Cost(list, j, classify)
    ensures forall j | IsCandidate(|list|, Step(|list|), j) && j < Choose(list, classify) ::
      Cost(list, j, classify) > Cost(list, Choose(list, classify), classify)
  {
    var costs := Costs(list, classify);
    forall j | 0 <= j < |costs|
      ensures costs[j] < MAX_DOUBLE
    {
      CostBounds(list, j, classify);
    }
    ScanChoosesBest(costs, Step(|list|), 0, -1, MAX_DOUBLE);
  }

  /** The candidate loop of build. */
  method ChooseSplitter<P(==)>(list: seq<P>, classify: (P, P) -> Side) returns (splitter: int)
    requires |list| > 0
    ensures splitter == Choose(list, classify)
  {
    var numCandidates := if |list| < MAX_CANDIDATES then |list| else MAX_CANDIDATES;
    var step := |list| / numCandidates;
    splitter := -1;
    var minCost := MAX_DOUBLE;
    var i := 0;
    while i < |list|
      invariant Scan(Costs(list, classify), step, i, splitter, minCost) == Choose(list, classify)
      decreases |list| - i
    {
      var currentCost := CalculateCost(i, list, classify);
      if currentCost < minCost {
        minCost := currentCost;
        splitter := i;
      }
      i := i + step;
    }
  }

  // ---------------------------------------------------------------- partition

  function AppendOpt<P(==)>(list: seq<P>, o: Option<P>): (r: seq<P>)
    ensures |list| <= |r| <= |list| + 1
  {
    match o
    case Some(p) => list + [p]
    case None => list
  }

  /**
   * The front and back lists after the first k polygons: FRONT to front, BACK to
   * back, COPLANAR by the normals' direction, SPANNING split into both; the
   * splitter itself is skipped. Each polygon adds at most one to each list.
   */
  function PartitionUpTo<P(==)>(list: seq<P>, sp: nat, classify: (P, P) -> Side, sameDir: (P, P) -> bool,
                            split: (P, P) -> (Option<P>, Option<P>), k: nat): (r: (seq<P>, seq<P>))
    requires sp < |list| && k <= |list|
    ensures |r.0| <= k - (if sp < k then 1 else 0) && |r.1| <= k - (if sp < k then 1 else 0)
  {
    if k == 0 then ([], [])
    else
      var (f, b) := PartitionUpTo(list, sp, classify, sameDir, split, k - 1);
      var p, s := list[k - 1], list[sp];
      if k - 1 == sp then (f, b)
      else
        match classify(p, s)
        case Front => (f + [p], b)
        case Back => (f, b + [p])
        case Coplanar => if sameDir(p, s) then (f + [p], b) else (f, b + [p])
        case Spanning => (AppendOpt(f, split(p, s).0), AppendOpt(b, split(p, s).1))
  }

  /** The partition loop of build. */
  method Partition<P(==)>(list: seq<P>, sp: nat, classify: (P, P) -> Side, sameDir: (P, P) -> bool,
                      split: (P, P) -> (Option<P>, Option<P>)) returns (frontList: seq<P>, backList: seq<P>)
    requires sp < |list|
    ensures (frontList, backList) == PartitionUpTo(list, sp, classify, sameDir, split, |list|)
  {
    frontList, backList := [], [];
    var splitter := list[sp];
    for k := 0 to |list|
      invariant (frontList, backList) == PartitionUpTo(list, sp, classify, sameDir, split, k)
    {
      var poly := list[k];
      if k != sp {
        var classification := classify(poly, splitter);
        if classification == Front {
          frontList := frontList + [poly];
        } else if classification == Back {
          backList := backList + [poly];
        } else if classification == Coplanar {
          if sameDir(poly, splitter) {
            frontList := frontList + [poly];
          } else {
            backList := backList + [poly];
          }
        } else {
          var pieces := split(poly, splitter);
          frontList := AppendOpt(frontList, pieces.0);
          backList := AppendOpt(backList, pieces.1);
        }
      }
    }
  }

  // ---------------------------------------------------------------- build

  /** build: choose a splitter, partition the rest, recurse on both lists. */
  function BuildTree<P(==)>(list: seq<P>, classify: (P, P) -> Side, sameDir: (P, P) -> bool,
                        split: (P, P) -> (Option<P>, Option<P>)): Tree<P>
    decreases |list|
  {
    if |list| == 0 then Empty
    else
      var sp := Choose(list, classify);
      if !(0 <= sp < |list|) then Empty
      else
        var (f, b) := PartitionUpTo(list, sp, classify, sameDir, split, |list|);
        Node(list[sp], BuildTree(f, classify, sameDir, split), BuildTree(b, classify, sameDir, split))
  }

  method Build<P(==)>(list: seq<P>, classify: (P, P) -> Side, sameDir: (P, P) -> bool,
                  split: (P, P) -> (Option<P>, Option<P>)) returns (node: Tree<P>)
    ensures node == BuildTree(list, classify, sameDir, split)
    decreases |list|
  {
    if |list| == 0 {
      return Empty;
    }
    var splitter := ChooseSplitter(list, classify);
    if splitter < 0 || splitter >= |list| {
      return Empty;
    }
    var frontList, backList := Partition(list, splitter, classify, sameDir, split);
    var front := Build(frontList, classify, sameDir, split);
    var back := Build(backList, classify, sameDir, split);
    node := Node(list[splitter], front, back);
  }

  /**
   * An empty list gives null; a non-empty one gives a node whose splitter is the
   * best sampled candidate of the list.
   */
  lemma BuildRoot<P>(list: seq<P>, classify: (P, P) -> Side, sameDir: (P, P) -> bool,
                     split: (P, P) -> (Option<P>, Option<P>))
    requires |list| <= MAX_LIST
    ensures |list| == 0 ==> BuildTree(list, classify, sameDir, split) == Empty
    ensures |list| > 0 ==>
      var t := BuildTree(list, classify, sameDir, split);
      && t.Node?
      && IsCandidate(|list|, Step(|list|), Choose(list, classify))
      && t.splitter == list[Choose(list, classify)]
      && t.splitter in list
  {
    if |list| > 0 {
      ChooseIsBest(list, classify);
    }
  }

  /** One polygon that is not SPANNING goes to exactly one list, or to none if it is the splitter. */
  lemma PartitionStep<P>(list: seq<P>, sp: nat, classify: (P, P) -> Side, sameDir: (P, P) -> bool,
                         split: (P, P) -> (Option<P>, Option<P>), k: nat)
    requires sp < |list| && 0 < k <= |list|
    requires classify(list[k - 1], list[sp]) != Spanning
    ensures var r, q := PartitionUpTo(list, sp, classify, sameDir, split, k), PartitionUpTo(list, sp, classify, sameDir, split, k - 1);
      multiset(r.0) + multiset(r.1) == multiset(q.0) + multiset(q.1) + (if k - 1 == sp then multiset{} else multiset{list[k - 1]})
  {
  }

  /** Everything the first k steps have placed: both lists, plus the splitter once it is passed. */
  function Placed<P(==)>(list: seq<P>, sp: nat, classify: (P, P) -> Side, sameDir: (P, P) -> bool,
                         split: (P, P) -> (Option<P>, Option<P>), k: nat): multiset<P>
    requires sp < |list| && k <= |list|
  {
    var r := PartitionUpTo(list, sp, classify, sameDir, split, k);
    multiset(r.0) + multiset(r.1) + (if sp < k then multiset{list[sp]} else multiset{})
  }

  /** A step over a polygon that is not SPANNING places exactly that polygon. */
  lemma PlacedStep<P>(list: seq<P>, sp: nat, classify: (P, P) -> Side, sameDir: (P, P) -> bool,
                      split: (P, P) -> (Option<P>, Option<P>), k: nat)
    requires sp < |list| && 0 < k <= |list|
    requires classify(list[k - 1], list[sp]) != Spanning
    ensures Placed(list, sp, classify, sameDir, split, k) == Placed(list, sp, classify, sameDir, split, k - 1) + multiset{list[k - 1]}
  {
    PartitionStep(list, sp, classify, sameDir, split, k);
    var r, q := PartitionUpTo(list, sp, classify, sameDir, split, k), PartitionUpTo(list, sp, classify, sameDir, split, k - 1);
    MultisetAccount(multiset(r.0) + multiset(r.1), multiset(q.0) + multiset(q.1), list[k - 1], list[sp], k - 1 == sp, sp < k - 1);
  }

  /** The bookkeeping of one step: the new polygon lands in a list unless it is the splitter. */
  lemma MultisetAccount<P>(placed: multiset<P>, placedBefore: multiset<P>, x: P, s: P, here: bool, before: bool)
    requires here ==> x == s && !before
    requires placed == placedBefore + (if here then multiset{} else multiset{x})
    ensures placed + (if before || here then multiset{s} else multiset{})
         == placedBefore + (if before then multiset{s} else multiset{}) + multiset{x}
  {
  }

  /** Without SPANNING polygons nothing is split: each polygon lands in exactly one list. */
  lemma {:induction false} PartitionNoSpanning<P>(list: seq<P>, sp: nat, classify: (P, P) -> Side, sameDir: (P, P) -> bool,
                                                   split: (P, P) -> (Option<P>, Option<P>), k: nat)
    requires sp < |list| && k <= |list|
    requires forall j | 0 <= j < |list| :: classify(list[j], list[sp]) != Spanning
    ensures Placed(list, sp, classify, sameDir, split, k) == multiset(list[..k])
  {
    if k > 0 {
      PartitionNoSpanning(list, sp, classify, sameDir, split, k - 1);
      PlacedStep(list, sp, classify, sameDir, split, k);
      PrefixMultiset(list, k);
    }
  }

  lemma PrefixMultiset<P>(list: seq<P>, k: nat)
    requires 0 < k <= |list|
    ensures multiset(list[..k]) == multiset(list[..k - 1]) + multiset{list[k - 1]}
  {
    assert list[..k] == list[..k - 1] + [list[k - 1]];
  }

  predicate NoSpanning<P(==)>(list: seq<P>, classify: (P, P) -> Side)
  {
    forall i, j | 0 <= i < |list| && 0 <= j < |list| :: classify(list[i], list[j]) != Spanning
  }

  lemma SubNoSpanning<P>(list: seq<P>, sub: seq<P>, classify: (P, P) -> Side)
    requires NoSpanning(list, classify)
    requires multiset(sub) <= multiset(list)
    ensures NoSpanning(sub, classify)
  {
    forall i, j | 0 <= i < |sub| && 0 <= j < |sub|
      ensures classify(sub[i], sub[j]) != Spanning
    {
      assert sub[i] in multiset(list) && sub[j] in multiset(list);
      assert sub[i] in list && sub[j] in list;
    }
  }

  /** Without SPANNING pairs the two lists hold the other polygons, and again have no SPANNING pair. */
  lemma PartitionKeepsPolygons<P>(list: seq<P>, sp: nat, classify: (P, P) -> Side, sameDir: (P, P) -> bool,
                                  split: (P, P) -> (Option<P>, Option<P>))
    requires sp < |list|
    requires NoSpanning(list, classify)
    ensures var r := PartitionUpTo(list, sp, classify, sameDir, split, |list|);
      && multiset(r.0) + multiset(r.1) + multiset{list[sp]} == multiset(list)
      && NoSpanning(r.0, classify) && NoSpanning(r.1, classify)
  {
    var r := PartitionUpTo(list, sp, classify, sameDir, split, |list|);
    PartitionNoSpanning(list, sp, classify, sameDir, split, |list|);
    assert list[..|list|] == list;
    SubNoSpanning(list, r.0, classify);
    SubNoSpanning(list, r.1, classify);
  }

  /** With no SPANNING pair the tree holds exactly the input polygons: size() is the list length. */
  lemma {:induction false} BuildKeepsPolygons<P>(list: seq<P>, classify: (P, P) -> Side, sameDir: (P, P) -> bool,
                                                 split: (P, P) -> (Option<P>, Option<P>))
    requires |list| <= MAX_LIST
    requires NoSpanning(list, classify)
    ensures Members(BuildTree(list, classify, sameDir, split)) == multiset(list)
    ensures Size(BuildTree(list, classify, sameDir, split)) == |list|
    decreases |list|
  {
    var t := BuildTree(list, classify, sameDir, split);
    if |list| > 0 {
      ChooseIsBest(list, classify);
      var sp := Choose(list, classify);
      var (f, b) := PartitionUpTo(list, sp, classify, sameDir, split, |list|);
      PartitionKeepsPolygons(list, sp, classify, sameDir, split);
      BuildKeepsPolygons(f, classify, sameDir, split);
      BuildKeepsPolygons(b, classify, sameDir, split);
      assert t == Node(list[sp], BuildTree(f, classify, sameDir, split), BuildTree(b, classify, sameDir, split));
    }
    MembersSize(t);
  }

  /**
   * The BSP invariant: everything in a node's front subtree is not behind its
   * splitter and everything in its back subtree is not ahead of it.
   */
  predicate Partitioned<P(==)>(t: Tree<P>, notBehind: (P, P) -> bool, notAhead: (P, P) -> bool)
  {
    match t
    case Empty => true
    case Node(s, f, b) =>
      && (forall p | p in Members(f) :: notBehind(p, s))
      && (forall p | p in Members(b) :: notAhead(p, s))
      && Partitioned(f, notBehind, notAhead)
      && Partitioned(b, notBehind, notAhead)
  }

  /** classify and split agree with the two side predicates. */
  ghost predicate SoundSides<P(!new)>(classify: (P, P) -> Side, split: (P, P) -> (Option<P>, Option<P>),
                          notBehind: (P, P) -> bool, notAhead: (P, P) -> bool)
  {
    && (forall p, s :: classify(p, s) == Front ==> notBehind(p, s))
    && (forall p, s :: classify(p, s) == Back ==> notAhead(p, s))
    && (forall p, s :: classify(p, s) == Coplanar ==> notBehind(p, s) && notAhead(p, s))
    && (forall p, s :: split(p, s).0.Some? ==> notBehind(split(p, s).0.value, s))
    && (forall p, s :: split(p, s).1.Some? ==> notAhead(split(p, s).1.value, s))
  }

  /** A piece of a polygon is on every side of every plane the polygon is on. */
  ghost predicate Hereditary<P(!new)>(split: (P, P) -> (Option<P>, Option<P>), notBehind: (P, P) -> bool, notAhead: (P, P) -> bool)
  {
    && (forall p, s, r :: notBehind(p, r) && split(p, s).0.Some? ==> notBehind(split(p, s).0.value, r))
    && (forall p, s, r :: notBehind(p, r) && split(p, s).1.Some? ==> notBehind(split(p, s).1.value, r))
    && (forall p, s, r :: notAhead(p, r) && split(p, s).0.Some? ==> notAhead(split(p, s).0.value, r))
    && (forall p, s, r :: notAhead(p, r) && split(p, s).1.Some? ==> notAhead(split(p, s).1.value, r))
  }

  /** The two lists of the partition lie on their sides of the splitter ... */
  lemma {:induction false} PartitionSides<P(!new)>(list: seq<P>, sp: nat, classify: (P, P) -> Side, sameDir: (P, P) -> bool,
                                             split: (P, P) -> (Option<P>, Option<P>),
                                             notBehind: (P, P) -> bool, notAhead: (P, P) -> bool, k: nat)
    requires sp < |list| && k <= |list|
    requires SoundSides(classify, split, notBehind, notAhead)
    ensures var r := PartitionUpTo(list, sp, classify, sameDir, split, k);
      && (forall p | p in r.0 :: notBehind(p, list[sp]))
      && (forall p | p in r.1 :: notAhead(p, list[sp]))
  {
    if k > 0 {
      PartitionSides(list, sp, classify, sameDir, split, notBehind, notAhead, k - 1);
    }
  }

  /** ... and keep any side, with respect to any plane r, that all input polygons share. */
  lemma {:induction false} PartitionInherits<P(!new)>(list: seq<P>, sp: nat, classify: (P, P) -> Side, sameDir: (P, P) -> bool,
                                                split: (P, P) -> (Option<P>, Option<P>),
                                                notBehind: (P, P) -> bool, notAhead: (P, P) -> bool,
                                                r: P, behindSide: bool, k: nat)
    requires sp < |list| && k <= |list|
    requires Hereditary(split, notBehind, notAhead)
    requires forall p | p in list :: if behindSide then notAhead(p, r) else notBehind(p, r)
    ensures var res := PartitionUpTo(list, sp, classify, sameDir, split, k);
      forall p | p in res.0 + res.1 :: if behindSide then notAhead(p, r) else notBehind(p, r)
  {
    if k > 0 {
      PartitionInherits(list, sp, classify, sameDir, split, notBehind, notAhead, r, behindSide, k - 1);
      assert list[k - 1] in list;
    }
  }

  /** All members of a built tree keep a hereditary side shared by the input. */
  lemma {:induction false} BuildInherits<P(!new)>(list: seq<P>, classify: (P, P) -> Side, sameDir: (P, P) -> bool,
                                            split: (P, P) -> (Option<P>, Option<P>),
                                            notBehind: (P, P) -> bool, notAhead: (P, P) -> bool,
                                            r: P, behindSide: bool)
    requires Hereditary(split, notBehind, notAhead)
    requires forall p | p in list :: if behindSide then notAhead(p, r) else notBehind(p, r)
    ensures forall p | p in Members(BuildTree(list, classify, sameDir, split)) ::
      if behindSide then notAhead(p, r) else notBehind(p, r)
    decreases |list|
  {
    if |list| > 0 {
      var sp := Choose(list, classify);
      if 0 <= sp < |list| {
        var (f, b) := PartitionUpTo(list, sp, classify, sameDir, split, |list|);
        PartitionInherits(list, sp, classify, sameDir, split, notBehind, notAhead, r, behindSide, |list|);
        assert forall p | p in f :: p in f + b;
        assert forall p | p in b :: p in f + b;
        BuildInherits(f, classify, sameDir, split, notBehind, notAhead, r, behindSide);
        BuildInherits(b, classify, sameDir, split, notBehind, notAhead, r, behindSide);
        assert list[sp] in list;
      }
    }
  }

  /** build establishes the BSP invariant whenever classify and split are sound. */
  lemma {:induction false} BuildPartitioned<P(!new)>(list: seq<P>, classify: (P, P) -> Side, sameDir: (P, P) -> bool,
                                               split: (P, P) -> (Option<P>, Option<P>),
                                               notBehind: (P, P) -> bool, notAhead: (P, P) -> bool)
    requires SoundSides(classify, split, notBehind, notAhead)
    requires Hereditary(split, notBehind, notAhead)
    ensures Partitioned(BuildTree(list, classify, sameDir, split), notBehind, notAhead)
    decreases |list|
  {
    if |list| > 0 {
      var sp := Choose(list, classify);
      if 0 <= sp < |list| {
        var (f, b) := PartitionUpTo(list, sp, classify, sameDir, split, |list|);
        PartitionSides(list, sp, classify, sameDir, split, notBehind, notAhead, |list|);
        BuildInherits(f, classify, sameDir, split, notBehind, notAhead, list[sp], false);
        BuildInherits(b, classify, sameDir, split, notBehind, notAhead, list[sp], true);
        BuildPartitioned(f, classify, sameDir, split, notBehind, notAhead);
        BuildPartitioned(b, classify, sameDir, split, notBehind, notAhead);
      }
    }
  }

  // ---------------------------------------------------------------- traverse

  /** The drawing order: the far side of each splitter, the splitter, then the near side. */
  function Order<P(==)>(t: Tree<P>, cameraInFront: P -> bool): seq<P>
  {
    match t
    case Empty => []
    case Node(s, f, b) =>
      if cameraInFront(s) then Order(b, cameraInFront) + [s] + Order(f, cameraInFront)
      else Order(f, cameraInFront) + [s] + Order(b, cameraInFront)
  }

  /** traverse appends to drawList and never touches what it already holds. */
  method Traverse<P(==)>(t: Tree<P>, cameraInFront: P -> bool, drawList: seq<P>) returns (out: seq<P>)
    ensures out == drawList + Order(t, cameraInFront)
    decreases t
  {
    match t
    case Empty =>
      out := drawList;
    case Node(s, f, b) =>
      if cameraInFront(s) {
        out := Traverse(b, cameraInFront, drawList);
        out := out + [s];
        out := Traverse(f, cameraInFront, out);
      } else {
        out := Traverse(f, cameraInFront, drawList);
        out := out + [s];
        out := Traverse(b, cameraInFront, out);
      }
  }

  /** Traversal emits every node's splitter exactly once, whatever the camera. */
  lemma {:induction false} OrderIsPermutation<P>(t: Tree<P>, cameraInFront: P -> bool)
    ensures multiset(Order(t, cameraInFront)) == Members(t)
    ensures |Order(t, cameraInFront)| == Size(t)
  {
    match t
    case Empty =>
    case Node(s, f, b) =>
      OrderIsPermutation(f, cameraInFront);
      OrderIsPermutation(b, cameraInFront);
  }

  /** Two camera positions draw the same polygons, in two orders. */
  lemma OrderCameraIndependent<P>(t: Tree<P>, c1: P -> bool, c2: P -> bool)
    ensures multiset(Order(t, c1)) == multiset(Order(t, c2))
  {
    OrderIsPermutation(t, c1);
    OrderIsPermutation(t, c2);
  }

  /** Elements of a + [s] + b before s come from a, those after it from b. */
  lemma JoinSides<P>(a: seq<P>, s: P, b: seq<P>, left: P -> bool, right: P -> bool)
    requires forall p | p in a :: left(p)
    requires forall p | p in b :: right(p)
    ensures var o := a + [s] + b;
      && o[|a|] == s
      && (forall i | 0 <= i < |a| :: left(o[i]))
      && (forall i | |a| < i < |o| :: right(o[i]))
  {
    var o := a + [s] + b;
    forall i | 0 <= i < |a|
      ensures left(o[i])
    {
      assert o[i] == a[i];
    }
    forall i | |a| < i < |o|
      ensures right(o[i])
    {
      assert o[i] == b[i - |a| - 1];
    }
  }

  lemma OrderMembers<P>(t: Tree<P>, cameraInFront: P -> bool)
    ensures forall p | p in Order(t, cameraInFront) :: p in Members(t)
  {
    OrderIsPermutation(t, cameraInFront);
    forall p | p in Order(t, cameraInFront)
      ensures p in Members(t)
    {
      assert p in multiset(Order(t, cameraInFront));
    }
  }

  /**
   * Painter's order at a node of a partitioned tree: everything drawn before the
   * splitter is on the far side of its plane, everything after on the camera's side.
   */
  lemma PainterOrder<P>(t: Tree<P>, cameraInFront: P -> bool, notBehind: (P, P) -> bool, notAhead: (P, P) -> bool)
    requires t.Node? && Partitioned(t, notBehind, notAhead)
    ensures var o := Order(t, cameraInFront);
      var s := t.splitter;
      var k := if cameraInFront(s) then |Order(t.back, cameraInFront)| else |Order(t.front, cameraInFront)|;
      && k < |o| && o[k] == s
      && (forall i | 0 <= i < k :: if cameraInFront(s) then notAhead(o[i], s) else notBehind(o[i], s))
      && (forall i | k < i < |o| :: if cameraInFront(s) then notBehind(o[i], s) else notAhead(o[i], s))
  {
    var s, f, b := t.splitter, t.front, t.back;
    OrderMembers(f, cameraInFront);
    OrderMembers(b, cameraInFront);
    var behind := (p: P) => notAhead(p, s);
    var ahead := (p: P) => notBehind(p, s);
    if cameraInFront(s) {
      JoinSides(Order(b, cameraInFront), s, Order(f, cameraInFront), behind, ahead);
    } else {
      JoinSides(Order(f, cameraInFront), s, Order(b, cameraInFront), ahead, behind);
    }
  }
}
