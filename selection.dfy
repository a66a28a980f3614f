/**
 * Host and path selection. SIMPLE keeps the nodes with enough free CPU,
 * RAM and disk; the path algorithms post-process what the graph library
 * computed (the lengths and paths of Dijkstra from the source, or the
 * simple paths and their costs) into either every candidate sorted by
 * length, or the single best one. The graph algorithms and the cost
 * formula are inputs.
 */
module Selection {
  import opened Common
  import opened TopologyModel

  /** The default strategy: an empty name or `ALL`. */
  predicate IsAll(strategy: string)
  {
    strategy == "" || strategy == "ALL"
  }

  // ---------------------------------------------------------------------
  // SIMPLE node selection
  // ---------------------------------------------------------------------

  /** What SIMPLE needs of a request: its source (a node, or an address that is no node) and the minima of its class of service. */
  datatype Requirement = Requirement(src: Option<Node>, minCpu: real, minRam: real, minDisk: real)

  /**
   * `_check_resources`: the node is not the request's source, is up, and
   * for CPU, RAM and disk what remains free after the request is at least
   * the node's threshold times its total.
   */
  predicate Passes(node: Node, req: Requirement)
    reads node
  {
    && req.src != Some(node)
    && node.state
    && node.cpuFree - req.minCpu >= node.cpuCount as real * node.threshold
    && node.memoryFree - req.minRam >= node.memoryTotal * node.threshold
    && node.diskFree - req.minDisk >= node.diskTotal * node.threshold
  }

  /** The passing nodes, in input order. */
  function Passing(nodes: seq<Node>, req: Requirement): (r: seq<Node>)
    reads nodes
    ensures forall i :: 0 <= i < |r| ==> r[i] in nodes && Passes(r[i], req)
    ensures forall i :: 0 <= i < |nodes| && Passes(nodes[i], req) ==> nodes[i] in r
    ensures |r| <= |nodes|
  {
    if nodes == [] then []
    else (if Passes(nodes[0], req) then [nodes[0]] else []) + Passing(nodes[1..], req)
  }

  /** The first passing node is the passing node of least index. */
  lemma {:induction false} FirstPassingIsEarliest(nodes: seq<Node>, req: Requirement)
    requires Passing(nodes, req) != []
    ensures exists i :: (0 <= i < |nodes| && nodes[i] == Passing(nodes, req)[0] && Passes(nodes[i], req)
                         && forall j :: 0 <= j < i ==> !Passes(nodes[j], req))
  {
    if Passes(nodes[0], req) {
      assert nodes[0] == Passing(nodes, req)[0];
    } else {
      FirstPassingIsEarliest(nodes[1..], req);
      var i :| 0 <= i < |nodes[1..]| && nodes[1..][i] == Passing(nodes[1..], req)[0] && Passes(nodes[1..][i], req)
        && forall j :: 0 <= j < i ==> !Passes(nodes[1..][j], req);
      assert nodes[i + 1] == Passing(nodes, req)[0];
      forall j | 0 <= j < i + 1 ensures !Passes(nodes[j], req) {
        if j > 0 {
          assert nodes[j] == nodes[1..][j - 1];
        }
      }
    }
  }

  /**
   * `_SimpleNodeSelection.select`: ALL (or no strategy) gives every passing
   * node in order; FIRST gives the first passing node, and `None` when no
   * node passes (the loop falls off the end); any other strategy gives an
   * empty list.
   */
  method SimpleSelect(nodes: seq<Node>, req: Requirement, strategy: string) returns (r: Option<seq<Node>>)
    ensures IsAll(strategy) ==> r == Some(Passing(nodes, req))
    ensures strategy == "FIRST" ==>
      r == if Passing(nodes, req) == [] then None else Some([Passing(nodes, req)[0]])
    ensures !IsAll(strategy) && strategy != "FIRST" ==> r == Some([])
  {
    if IsAll(strategy) {
      return Some(Passing(nodes, req));
    } else if strategy == "FIRST" {
      var i := 0;
      while i < |nodes|
        invariant 0 <= i <= |nodes|
        invariant Passing(nodes[i..], req) == Passing(nodes, req)
      {
        assert nodes[i..][1..] == nodes[i + 1..];
        if Passes(nodes[i], req) {
          return Some([nodes[i]]);
        }
        i := i + 1;
      }
      return None;
    } else {
      return Some([]);
    }
  }

  // ---------------------------------------------------------------------
  // Path candidates, sorted insertion and best choice
  // ---------------------------------------------------------------------

  /** One entry of a path selection: `{'path': ..., 'length': ...}`. */
  datatype PathEntry = PathEntry(path: Option<seq<NodeId>>, length: ExtReal)

  /** Python's `<=` on lengths. */
  predicate Le(a: ExtReal, b: ExtReal)
  {
    !b.Less(a)
  }

  lemma LessThenLe(a: ExtReal, b: ExtReal, c: ExtReal)
    requires a.Less(b) && Le(b, c)
    ensures a.Less(c)
  {
  }

  lemma LeThenLe(a: ExtReal, b: ExtReal, c: ExtReal)
    requires Le(a, b) && Le(b, c)
    ensures Le(a, c)
  {
  }

  predicate Sorted(xs: seq<PathEntry>)
  {
    forall i, j :: 0 <= i < j < |xs| ==> Le(xs[i].length, xs[j].length)
  }

  /** `insort(xs, e, key=length)` on a sorted list: `e` goes after every entry not longer than it. */
  function InsortRight(xs: seq<PathEntry>, e: PathEntry): (r: seq<PathEntry>)
    ensures |r| == |xs| + 1
  {
    if xs == [] then [e]
    else if e.length.Less(xs[0].length) then [e] + xs
    else [xs[0]] + InsortRight(xs[1..], e)
  }

  /** Insertion adds the entry and loses none. */
  lemma {:induction false} InsortRightPermutes(xs: seq<PathEntry>, e: PathEntry)
    ensures multiset(InsortRight(xs, e)) == multiset(xs) + multiset{e}
  {
    if xs != [] {
      assert xs == [xs[0]] + xs[1..];
      if !e.length.Less(xs[0].length) {
        InsortRightPermutes(xs[1..], e);
      }
    }
  }

  lemma {:induction false} InsortRightSorted(xs: seq<PathEntry>, e: PathEntry)
    requires Sorted(xs)
    ensures Sorted(InsortRight(xs, e))
  {
    if xs != [] && !e.length.Less(xs[0].length) {
      InsortRightSorted(xs[1..], e);
      InsortRightPermutes(xs[1..], e);
      var r := InsortRight(xs[1..], e);
      forall x | x in r ensures Le(xs[0].length, x.length) {
        assert x in multiset(r);
        assert x in multiset(xs[1..]) || x == e;
      }
    }
  }

  /** The entries of a given length, in order. */
  function WithLength(xs: seq<PathEntry>, len: ExtReal): seq<PathEntry>
  {
    if xs == [] then [] else (if xs[0].length == len then [xs[0]] else []) + WithLength(xs[1..], len)
  }

  lemma {:induction false} WithLengthAppend(a: seq<PathEntry>, b: seq<PathEntry>, len: ExtReal)
    ensures WithLength(a + b, len) == WithLength(a, len) + WithLength(b, len)
  {
    if a != [] {
      assert (a + b)[0] == a[0];
      assert (a + b)[1..] == a[1..] + b;
      WithLengthAppend(a[1..], b, len);
    } else {
      assert a + b == b;
    }
  }

  lemma {:induction false} WithLengthNone(xs: seq<PathEntry>, len: ExtReal)
    requires forall i :: 0 <= i < |xs| ==> len.Less(xs[i].length)
    ensures WithLength(xs, len) == []
  {
    if xs != [] {
      WithLengthNone(xs[1..], len);
    }
  }

  lemma WithLengthCons(x: PathEntry, rest: seq<PathEntry>, len: ExtReal)
    ensures WithLength([x] + rest, len) == (if x.length == len then [x] else []) + WithLength(rest, len)
  {
    var r := [x] + rest;
    assert r[0] == x && r[1..] == rest;
  }

  lemma SortedTail(xs: seq<PathEntry>)
    requires xs != [] && Sorted(xs)
    ensures Sorted(xs[1..])
  {
    forall i, j | 0 <= i < j < |xs[1..]| ensures Le(xs[1..][i].length, xs[1..][j].length) {
      assert xs[1..][i] == xs[i + 1] && xs[1..][j] == xs[j + 1];
    }
  }

  /** An entry shorter than the head of a sorted list is shorter than every entry of the list. */
  lemma ShorterThanAll(xs: seq<PathEntry>, e: PathEntry)
    requires xs != [] && Sorted(xs) && e.length.Less(xs[0].length)
    ensures forall i :: 0 <= i < |xs| ==> e.length.Less(xs[i].length)
  {
    forall i | 0 <= i < |xs| ensures e.length.Less(xs[i].length) {
      if i > 0 {
        LessThenLe(e.length, xs[0].length, xs[i].length);
      }
    }
  }

  /** Sorted insertion is stable: among entries of equal length the new one comes last. */
  lemma {:induction false} InsortRightStable(xs: seq<PathEntry>, e: PathEntry, len: ExtReal)
    requires Sorted(xs)
    ensures WithLength(InsortRight(xs, e), len) == WithLength(xs, len) + (if e.length == len then [e] else [])
  {
    if xs == [] {
      assert InsortRight(xs, e) == [e] + [];
      WithLengthCons(e, [], len);
    } else if e.length.Less(xs[0].length) {
      assert InsortRight(xs, e) == [e] + xs;
      WithLengthCons(e, xs, len);
      if e.length == len {
        ShorterThanAll(xs, e);
        WithLengthNone(xs, len);
      }
    } else {
      SortedTail(xs);
      InsortRightStable(xs[1..], e, len);
      StableBehindHead(xs, e, len);
    }
  }

  /** Stability carries over from the tail to the whole list when the entry goes behind the head. */
  lemma StableBehindHead(xs: seq<PathEntry>, e: PathEntry, len: ExtReal)
    requires xs != [] && !e.length.Less(xs[0].length)
    requires WithLength(InsortRight(xs[1..], e), len) == WithLength(xs[1..], len) + (if e.length == len then [e] else [])
    ensures WithLength(InsortRight(xs, e), len) == WithLength(xs, len) + (if e.length == len then [e] else [])
  {
    assert InsortRight(xs, e) == [xs[0]] + InsortRight(xs[1..], e);
    WithLengthCons(xs[0], InsortRight(xs[1..], e), len);
    WithLengthCons(xs[0], xs[1..], len);
    assert [xs[0]] + xs[1..] == xs;
  }

  /** Every entry inserted in turn into an initially empty list. */
  function InsertionSorted(cs: seq<PathEntry>): seq<PathEntry>
  {
    if cs == [] then [] else InsortRight(InsertionSorted(cs[..|cs| - 1]), cs[|cs| - 1])
  }

  lemma InsertionSortedSnoc(cs: seq<PathEntry>, e: PathEntry)
    ensures InsertionSorted(cs + [e]) == InsortRight(InsertionSorted(cs), e)
  {
    assert (cs + [e])[..|cs|] == cs;
  }

  /** The sorted list is sorted by length. */
  lemma {:induction false} InsertionSortedSorts(cs: seq<PathEntry>)
    ensures Sorted(InsertionSorted(cs))
  {
    if cs != [] {
      InsertionSortedSorts(cs[..|cs| - 1]);
      InsortRightSorted(InsertionSorted(cs[..|cs| - 1]), cs[|cs| - 1]);
    }
  }

  /** The sorted list is a permutation of the candidates. */
  lemma {:induction false} InsertionSortedPermutes(cs: seq<PathEntry>)
    ensures multiset(InsertionSorted(cs)) == multiset(cs)
  {
    if cs != [] {
      var init := cs[..|cs| - 1];
      InsertionSortedPermutes(init);
      InsortRightPermutes(InsertionSorted(init), cs[|cs| - 1]);
      assert cs == init + [cs[|cs| - 1]];
    }
  }

  /** The sorted list is a stable sort of the candidates: entries of equal length keep their candidate order. */
  lemma {:induction false} InsertionSortedStable(cs: seq<PathEntry>, len: ExtReal)
    ensures WithLength(InsertionSorted(cs), len) == WithLength(cs, len)
  {
    if cs != [] {
      var init := cs[..|cs| - 1];
      var last := cs[|cs| - 1];
      InsertionSortedStable(init, len);
      InsertionSortedSorts(init);
      InsortRightStable(InsertionSorted(init), last, len);
      WithLengthAppend(init, [last], len);
      assert WithLength([last], len) == (if last.length == len then [last] else []) + WithLength([], len);
      assert init + [last] == cs;
    }
  }

  /**
   * The best of the candidates, seen in order: a candidate replaces the
   * best so far only when strictly shorter, starting from no path at
   * infinite length.
   */
  function BestEntry(cs: seq<PathEntry>): PathEntry
  {
    if cs == [] then PathEntry(None, Inf)
    else
      var b := BestEntry(cs[..|cs| - 1]);
      if cs[|cs| - 1].length.Less(b.length) then cs[|cs| - 1] else b
  }

  lemma BestEntrySnoc(cs: seq<PathEntry>, e: PathEntry)
    ensures BestEntry(cs + [e]) == if e.length.Less(BestEntry(cs).length) then e else BestEntry(cs)
  {
    assert (cs + [e])[..|cs|] == cs;
  }

  /**
   * The best entry is no longer than any candidate; when it holds a path it
   * is the first candidate of that length, every earlier one being longer;
   * and, when every candidate holds a path, it holds none exactly when no
   * candidate has a finite length.
   */
  lemma {:induction false} BestIsFirstMinimum(cs: seq<PathEntry>)
    ensures forall i :: 0 <= i < |cs| ==> Le(BestEntry(cs).length, cs[i].length)
    ensures BestEntry(cs).path.Some? ==>
      exists i :: 0 <= i < |cs| && cs[i] == BestEntry(cs) && forall j :: 0 <= j < i ==> cs[i].length.Less(cs[j].length)
    ensures (forall i :: 0 <= i < |cs| ==> cs[i].path.Some?) ==>
      && (BestEntry(cs).path.None? <==> forall i :: 0 <= i < |cs| ==> cs[i].length.Inf?)
      && (BestEntry(cs).path.None? ==> BestEntry(cs).length == Inf)
  {
    if cs != [] {
      var init := cs[..|cs| - 1];
      var last := cs[|cs| - 1];
      BestIsFirstMinimum(init);
      var b := BestEntry(init);
      forall i | 0 <= i < |init| ensures cs[i] == init[i] {
      }
      if last.length.Less(b.length) {
        forall j | 0 <= j < |cs| - 1 ensures last.length.Less(cs[j].length) {
          LessThenLe(last.length, b.length, init[j].length);
        }
        assert cs[|cs| - 1] == BestEntry(cs);
      } else if b.path.Some? {
        var i :| 0 <= i < |init| && init[i] == b && forall j :: 0 <= j < i ==> init[i].length.Less(init[j].length);
        assert cs[i] == b;
      }
    }
  }

  /**
   * `insort` as the bisection module does it: a binary search for the
   * first entry strictly longer than `e`, and `e` inserted before it.
   */
  method Insort(xs: seq<PathEntry>, e: PathEntry) returns (r: seq<PathEntry>)
    requires Sorted(xs)
    ensures r == InsortRight(xs, e)
  {
    var lo, hi := 0, |xs|;
    while lo < hi
      invariant 0 <= lo <= hi <= |xs|
      invariant forall j :: 0 <= j < lo ==> Le(xs[j].length, e.length)
      invariant forall j :: hi <= j < |xs| ==> e.length.Less(xs[j].length)
    {
      var mid := (lo + hi) / 2;
      if e.length.Less(xs[mid].length) {
        hi := mid;
      } else {
        lo := mid + 1;
      }
    }
    InsortRightAt(xs, e, lo);
    r := xs[..lo] + [e] + xs[lo..];
  }

  lemma {:induction false} InsortRightAt(xs: seq<PathEntry>, e: PathEntry, i: nat)
    requires i <= |xs|
    requires forall j :: 0 <= j < i ==> Le(xs[j].length, e.length)
    requires forall j :: i <= j < |xs| ==> e.length.Less(xs[j].length)
    ensures InsortRight(xs, e) == xs[..i] + [e] + xs[i..]
  {
    if i > 0 {
      InsortRightAt(xs[1..], e, i - 1);
      assert xs[..i] == [xs[0]] + xs[1..][..i - 1];
      assert xs[i..] == xs[1..][i - 1..];
    } else {
      assert xs[..0] == [] && xs[0..] == xs;
    }
  }

  // ---------------------------------------------------------------------
  // DIJKSTRA
  // ---------------------------------------------------------------------

  /**
   * The targets reached from the source, in target order, each with its
   * path and length as computed by Dijkstra's algorithm (`lengths` and
   * `paths` are the library's answer and have the same keys).
   */
  function Reached(targets: seq<NodeId>, lengths: map<NodeId, ExtReal>, paths: map<NodeId, seq<NodeId>>): (r: seq<PathEntry>)
    requires lengths.Keys <= paths.Keys
    ensures forall i :: 0 <= i < |r| ==> r[i].path.Some?
    ensures |r| <= |targets|
  {
    if targets == [] then []
    else
      var t := targets[|targets| - 1];
      Reached(targets[..|targets| - 1], lengths, paths) + (if t in lengths then [PathEntry(Some(paths[t]), lengths[t])] else [])
  }

  lemma ReachedStep(targets: seq<NodeId>, lengths: map<NodeId, ExtReal>, paths: map<NodeId, seq<NodeId>>, k: nat)
    requires lengths.Keys <= paths.Keys && k < |targets|
    ensures targets[k] in lengths ==>
      Reached(targets[..k + 1], lengths, paths) ==
        Reached(targets[..k], lengths, paths) + [PathEntry(Some(paths[targets[k]]), lengths[targets[k]])]
    ensures targets[k] !in lengths ==> Reached(targets[..k + 1], lengths, paths) == Reached(targets[..k], lengths, paths)
  {
    assert targets[..k + 1][..k] == targets[..k];
    assert Reached(targets[..k], lengths, paths) + [] == Reached(targets[..k], lengths, paths);
  }

  /** The candidates are exactly the reached targets, each with its path and length. */
  lemma {:induction false} ReachedExactly(targets: seq<NodeId>, lengths: map<NodeId, ExtReal>, paths: map<NodeId, seq<NodeId>>)
    requires lengths.Keys <= paths.Keys
    ensures forall e :: e in Reached(targets, lengths, paths) <==>
      exists t :: t in targets && t in lengths && e == PathEntry(Some(paths[t]), lengths[t])
  {
    if targets != [] {
      var init := targets[..|targets| - 1];
      var last := targets[|targets| - 1];
      ReachedExactly(init, lengths, paths);
      assert forall u :: u in targets <==> u in init || u == last;
    }
  }

  /**
   * `_DijkstraPathSelection.select` over the library's answer: ALL (or no
   * strategy) inserts each reached target in turn, so the result is sorted
   * by length and ties keep target order; BEST keeps the first target of
   * strictly smallest length, or no path at infinite length; any other
   * strategy gives an empty list.
   */
  method DijkstraSelect(targets: seq<NodeId>, lengths: map<NodeId, ExtReal>, paths: map<NodeId, seq<NodeId>>, strategy: string)
    returns (r: seq<PathEntry>)
    requires lengths.Keys <= paths.Keys
    ensures IsAll(strategy) ==> r == InsertionSorted(Reached(targets, lengths, paths))
    ensures strategy == "BEST" ==> r == [BestEntry(Reached(targets, lengths, paths))]
    ensures !IsAll(strategy) && strategy != "BEST" ==> r == []
  {
    if IsAll(strategy) {
      r := DijkstraAll(targets, lengths, paths);
    } else if strategy == "BEST" {
      var best := DijkstraBest(targets, lengths, paths);
      r := [best];
    } else {
      r := [];
    }
  }

  /** The ALL loop of the Dijkstra selection. */
  method DijkstraAll(targets: seq<NodeId>, lengths: map<NodeId, ExtReal>, paths: map<NodeId, seq<NodeId>>)
    returns (r: seq<PathEntry>)
    requires lengths.Keys <= paths.Keys
    ensures r == InsertionSorted(Reached(targets, lengths, paths))
  {
    r := [];
    for k := 0 to |targets|
      invariant r == InsertionSorted(Reached(targets[..k], lengths, paths))
    {
      ReachedStep(targets, lengths, paths, k);
      var t := targets[k];
      if t in lengths {
        var e := PathEntry(Some(paths[t]), lengths[t]);
        InsertionSortedSnoc(Reached(targets[..k], lengths, paths), e);
        InsertionSortedSorts(Reached(targets[..k], lengths, paths));
        r := Insort(r, e);
      }
    }
    assert targets[..|targets|] == targets;
  }

  /** The BEST loop of the Dijkstra selection: the best length and path so far. */
  method DijkstraBest(targets: seq<NodeId>, lengths: map<NodeId, ExtReal>, paths: map<NodeId, seq<NodeId>>)
    returns (best: PathEntry)
    requires lengths.Keys <= paths.Keys
    ensures best == BestEntry(Reached(targets, lengths, paths))
  {
    best := PathEntry(None, Inf);
    for k := 0 to |targets|
      invariant best == BestEntry(Reached(targets[..k], lengths, paths))
    {
      ReachedStep(targets, lengths, paths, k);
      var t := targets[k];
      if t in lengths {
        BestEntrySnoc(Reached(targets[..k], lengths, paths), PathEntry(Some(paths[t]), lengths[t]));
      }
      if t in lengths && lengths[t].Less(best.length) {
        best := PathEntry(Some(paths[t]), lengths[t]);
      }
    }
    assert targets[..|targets|] == targets;
  }

  // ---------------------------------------------------------------------
  // LEASTCOST
  // ---------------------------------------------------------------------

  /** A path with its cost; a cost computation that raised counts as infinite. */
  function Costed(path: seq<NodeId>, cost: Option<ExtReal>): PathEntry
  {
    PathEntry(Some(path), if cost.Some? then cost.value else Inf)
  }

  /** Every simple path with its cost, in the library's order. */
  function CostedPaths(paths: seq<seq<NodeId>>, cost: seq<NodeId> -> Option<ExtReal>): (r: seq<PathEntry>)
    ensures |r| == |paths|
    ensures forall i :: 0 <= i < |paths| ==> r[i] == Costed(paths[i], cost(paths[i]))
  {
    if paths == [] then []
    else CostedPaths(paths[..|paths| - 1], cost) + [Costed(paths[|paths| - 1], cost(paths[|paths| - 1]))]
  }

  /**
   * `_LeastCostPathSelection.select` over the simple paths and the cost
   * formula (`None` when it raised): ALL (or no strategy) inserts every
   * path by cost; BEST keeps the first path of strictly smallest cost; any
   * other strategy still walks the paths and gives an empty list.
   */
  method LeastCostSelect(paths: seq<seq<NodeId>>, cost: seq<NodeId> -> Option<ExtReal>, strategy: string)
    returns (r: seq<PathEntry>)
    ensures IsAll(strategy) ==> r == InsertionSorted(CostedPaths(paths, cost))
    ensures strategy == "BEST" ==> r == [BestEntry(CostedPaths(paths, cost))]
    ensures !IsAll(strategy) && strategy != "BEST" ==> r == []
  {
    var ret: seq<PathEntry> := [];
    var best := PathEntry(None, Inf);
    for k := 0 to |paths|
      invariant IsAll(strategy) ==> ret == InsertionSorted(CostedPaths(paths[..k], cost))
      invariant strategy == "BEST" ==> best == BestEntry(CostedPaths(paths[..k], cost))
    {
      assert paths[..k + 1][..k] == paths[..k];
      var c := cost(paths[k]);
      var cpath := if c.Some? then c.value else Inf;
      ghost var done := CostedPaths(paths[..k], cost);
      assert CostedPaths(paths[..k + 1], cost) == done + [PathEntry(Some(paths[k]), cpath)];
      if IsAll(strategy) {
        InsertionSortedSnoc(done, PathEntry(Some(paths[k]), cpath));
        InsertionSortedSorts(done);
        ret := Insort(ret, PathEntry(Some(paths[k]), cpath));
      } else if strategy == "BEST" {
        BestEntrySnoc(done, PathEntry(Some(paths[k]), cpath));
        if cpath.Less(best.length) {
          best := PathEntry(Some(paths[k]), cpath);
        }
      }
    }
    assert paths[..|paths|] == paths;
    if IsAll(strategy) {
      r := ret;
    } else if strategy == "BEST" {
      r := [best];
    } else {
      r := [];
    }
  }

  // ---------------------------------------------------------------------
  // Algorithm lookup
  // ---------------------------------------------------------------------

  datatype PathAlgorithm = Dijkstra | LeastCost

  /** `str.upper()` on one character: ASCII lower-case letters move to upper case, other characters are kept. */
  function UpperChar(c: char): char
  {
    if 'a' <= c <= 'z' then (c as int - 32) as char else c
  }

  /** `str.upper()` on ASCII letters; other characters are kept. */
  function Upper(s: string): (r: string)
    ensures |r| == |s|
    ensures forall i :: 0 <= i < |s| ==> r[i] == UpperChar(s[i])
  {
    if s == [] then []
    else [UpperChar(s[0])] + Upper(s[1..])
  }

  /**
   * `PathSelector(algorithm)`: the algorithm whose name is the upper-cased
   * argument, and DIJKSTRA for any unknown name.
   */
  function PathAlgorithmNamed(name: string): (r: PathAlgorithm)
    ensures r == LeastCost <==> Upper(name) == "LEASTCOST"
  {
    if Upper(name) == "LEASTCOST" then LeastCost else Dijkstra
  }

  /** The lookup ignores case. */
  lemma PathAlgorithmCaseInsensitive(a: string, b: string)
    requires Upper(a) == Upper(b)
    ensures PathAlgorithmNamed(a) == PathAlgorithmNamed(b)
  {
  }

  /** The lower-case spelling of LEASTCOST selects it. */
  lemma LowerCaseLeastCost()
    ensures PathAlgorithmNamed("leastcost") == LeastCost
  {
    var u := Upper("leastcost");
    assert UpperChar('l') == 'L' && UpperChar('e') == 'E' && UpperChar('a') == 'A';
    assert UpperChar('s') == 'S' && UpperChar('t') == 'T' && UpperChar('c') == 'C' && UpperChar('o') == 'O';
    assert u == "LEASTCOST";
  }

  /** Names other than LEASTCOST, in any case, fall back to DIJKSTRA. */
  lemma OtherNamesFallBack()
    ensures PathAlgorithmNamed("dijkstra") == Dijkstra
    ensures PathAlgorithmNamed("shortest") == Dijkstra
  {
  }
}
