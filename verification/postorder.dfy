/** The control-flow graph of a function and its depth-first reverse postorder. */
module Postorder {
  import opened Mir
  import opened Options
  import opened Graphs

  datatype Cfg = Cfg(succs: seq<seq<nat>>, preds: seq<seq<nat>>)

  /** The predecessor lists hold exactly the edges of the graph, backwards. */
  ghost predicate WellFormed(cfg: Cfg)
  {
    && |cfg.preds| == |cfg.succs|
    && forall u: nat, v: nat {:trigger u in cfg.preds[v]} :: v < |cfg.preds| ==> (u in cfg.preds[v] <==> Edge(cfg.succs, u, v))
  }

  /** The jump targets of every block, as the terminators list them. */
  ghost function FlowGraph(func: MirFunction): (g: Graph)
    ensures |g| == |func.blocks|
  {
    seq(|func.blocks|, b requires 0 <= b < |func.blocks| => Targets(func.blocks[b]))
  }

  // ---------------------------------------------------------------- building the graph

  /** Inserting into a strictly ascending list: sorting followed by removal of duplicates. */
  function InsertSorted(x: nat, s: seq<nat>): (r: seq<nat>)
    ensures forall y :: y in r <==> y == x || y in s
    ensures Ascending(s) ==> Ascending(r)
  {
    if s == [] then [x]
    else if x < s[0] then [x] + s
    else if x == s[0] then s
    else
      var r := InsertSorted(x, s[1..]);
      assert Ascending(s) ==> Ascending(r) && forall i :: 0 <= i < |r| ==> s[0] < r[i] by {
        if Ascending(s) {
          assert Ascending(s[1..]);
          forall i | 0 <= i < |r| ensures s[0] < r[i] {
            assert r[i] in r;
          }
        }
      }
      [s[0]] + r
  }

  ghost predicate Ascending(s: seq<nat>)
  {
    forall i, j :: 0 <= i < j < |s| ==> s[i] < s[j]
  }

  function SortDedup(s: seq<nat>): (r: seq<nat>)
    ensures Ascending(r)
    ensures forall y :: y in r <==> y in s
  {
    if s == [] then [] else InsertSorted(s[0], SortDedup(s[1..]))
  }

  /** `preds` lists, in ascending order, the blocks below `i` that have an edge to each block. */
  ghost predicate PredsBelow(succs: seq<seq<nat>>, preds: seq<seq<nat>>, i: nat)
  {
    && |succs| == |preds|
    && (forall v :: 0 <= v < |preds| ==> Ascending(preds[v]))
    && (forall u: nat, v: nat {:trigger u in preds[v]} :: v < |preds| ==> (u in preds[v] <==> u < i && Edge(succs, u, v)))
  }

  method BuildCfg(func: MirFunction) returns (cfg: Cfg)
    ensures WellFormed(cfg) && |cfg.succs| == |func.blocks|
    ensures forall b :: 0 <= b < |func.blocks| ==>
      Ascending(cfg.succs[b]) && (forall t :: t in cfg.succs[b] <==> t in Targets(func.blocks[b]))
    ensures forall b :: 0 <= b < |func.blocks| ==> Ascending(cfg.preds[b])
  {
    var n := |func.blocks|;
    var succs: seq<seq<nat>> := seq(n, _ => []);
    var preds: seq<seq<nat>> := seq(n, _ => []);
    for i := 0 to n
      invariant |succs| == n && PredsBelow(succs, preds, i)
      invariant forall b :: 0 <= b < i ==>
        Ascending(succs[b]) && (forall t :: t in succs[b] <==> t in Targets(func.blocks[b]))
    {
      var out := SortDedup(Targets(func.blocks[i]));
      succs := succs[i := out];
      preds := AddPreds(succs, preds, i);
    }
    cfg := Cfg(succs, preds);
  }

  method AddPreds(succs: seq<seq<nat>>, preds0: seq<seq<nat>>, i: nat) returns (preds: seq<seq<nat>>)
    requires i < |succs| && Ascending(succs[i]) && PredsBelow(succs, preds0, i)
    ensures PredsBelow(succs, preds, i + 1)
  {
    var n, out := |succs|, succs[i];
    preds := preds0;
    for k := 0 to |out|
      invariant |preds| == n
      invariant forall v :: 0 <= v < n ==> Ascending(preds[v])
      invariant forall u: nat, v: nat {:trigger u in preds[v]} :: v < n ==>
        (u in preds[v] <==> u in preds0[v] || (u == i && v in out[..k]))
    {
      var s := out[k];
      if s < n {
        assert s !in out[..k];
        AppendAscending(preds[s], i);
        preds := preds[s := preds[s] + [i]];
      }
      assert out[..k + 1] == out[..k] + [s];
    }
    assert out[..|out|] == out;
  }

  lemma AppendAscending(s: seq<nat>, x: nat)
    requires Ascending(s)
    requires forall y :: y in s ==> y < x
    ensures Ascending(s + [x])
  {
    assert forall j :: 0 <= j < |s| ==> s[j] in s;
  }

  // ---------------------------------------------------------------- reverse postorder

  /** A depth-first reverse postorder: the entry first, then every other reachable block after
      one of its predecessors, and nothing else. */
  ghost predicate IsRpo(g: Graph, rpo: seq<nat>)
  {
    && |rpo| > 0 && rpo[0] == 0
    && (forall i, j :: 0 <= i < j < |rpo| ==> rpo[i] != rpo[j])
    && (forall v :: v in rpo <==> Reaches(g, 0, v))
    && (forall j {:trigger HasEarlierPred(g, rpo, j)} :: 0 < j < |rpo| ==> HasEarlierPred(g, rpo, j))
  }

  ghost predicate HasEarlierPred(g: Graph, rpo: seq<nat>, j: nat)
    requires j < |rpo|
  {
    exists i :: 0 <= i < j && Edge(g, rpo[i], rpo[j])
  }

  /** An open node and the position of its next unexplored successor. */
  datatype Frame = Frame(node: nat, child: nat)

  /** Every successor of `u` among its first `k` ones has been visited. */
  ghost predicate Explored(g: Graph, visited: set<nat>, u: nat, k: nat)
  {
    u < |g| && k <= |g[u]| && forall i :: 0 <= i < k && g[u][i] < |g| ==> g[u][i] in visited
  }

  /** The `j`-th finished node has a predecessor that is still open or was finished later. */
  ghost predicate HasLaterPred(g: Graph, stack: seq<Frame>, post: seq<nat>, j: nat)
  {
    j < |post| &&
    (|| (exists i :: 0 <= i < |stack| && Edge(g, stack[i].node, post[j]))
     || (exists k :: j < k < |post| && Edge(g, post[k], post[j])))
  }

  ghost predicate OnStack(stack: seq<Frame>, v: nat)
  {
    exists i :: 0 <= i < |stack| && stack[i].node == v
  }

  /** The visited nodes are the finished and the open ones, each listed once. */
  ghost predicate Partition(visited: set<nat>, stack: seq<Frame>, post: seq<nat>)
  {
    && (forall v {:trigger v in visited} {:trigger OnStack(stack, v)} :: v in visited ==> v in post || OnStack(stack, v))
    && (forall j :: 0 <= j < |post| ==> post[j] in visited)
    && (forall i :: 0 <= i < |stack| ==> stack[i].node in visited)
    && (forall i, j :: 0 <= i < j < |post| ==> post[i] != post[j])
    && (forall i, j :: 0 <= i < j < |stack| ==> stack[i].node != stack[j].node)
    && (forall i :: 0 <= i < |stack| ==> stack[i].node !in post)
  }

  /** The open nodes form a path from the entry; the entry is finished last. */
  ghost predicate OpenPath(g: Graph, stack: seq<Frame>, post: seq<nat>)
  {
    && (stack != [] ==> stack[0].node == 0)
    && (stack == [] ==> |post| > 0 && post[|post| - 1] == 0)
    && (forall i, j :: 0 <= i < j < |stack| && j == i + 1 ==> Edge(g, stack[i].node, stack[j].node))
  }

  ghost predicate AllExplored(g: Graph, visited: set<nat>, stack: seq<Frame>, post: seq<nat>)
  {
    && (forall i :: 0 <= i < |stack| ==> Explored(g, visited, stack[i].node, stack[i].child))
    && (forall j :: 0 <= j < |post| ==> post[j] < |g| && Explored(g, visited, post[j], |g[post[j]]|))
  }

  ghost predicate LaterPreds(g: Graph, stack: seq<Frame>, post: seq<nat>)
  {
    forall j {:trigger HasLaterPred(g, stack, post, j)} ::
      0 <= j < |post| && post[j] != 0 ==> HasLaterPred(g, stack, post, j)
  }

  ghost predicate AllReached(g: Graph, visited: set<nat>)
  {
    && (forall v :: v in visited ==> v < |g|)
    && (forall v {:trigger Reaches(g, 0, v)} :: v in visited ==> Reaches(g, 0, v))
  }

  lemma ReachedPush(g: Graph, visited: set<nat>, u: nat, next: nat)
    requires AllReached(g, visited) && u in visited && Edge(g, u, next)
    ensures AllReached(g, visited + {next})
  {
    assert Reaches(g, 0, u);
    ReachesStep(g, 0, u, next);
  }

  /** State of the search between two steps of its loop. */
  ghost predicate Searching(g: Graph, visited: set<nat>, stack: seq<Frame>, post: seq<nat>)
  {
    && |g| > 0 && 0 in visited
    && AllReached(g, visited)
    && Partition(visited, stack, post)
    && OpenPath(g, stack, post)
    && AllExplored(g, visited, stack, post)
    && LaterPreds(g, stack, post)
  }

  lemma PartitionPush(visited: set<nat>, stack: seq<Frame>, post: seq<nat>, k: nat, next: nat)
    requires Partition(visited, stack, post) && stack != [] && next !in visited
    ensures Partition(visited + {next}, stack[..|stack| - 1] + [Frame(stack[|stack| - 1].node, k), Frame(next, 0)], post)
  {
    var stack' := stack[..|stack| - 1] + [Frame(stack[|stack| - 1].node, k), Frame(next, 0)];
    assert forall i :: 0 <= i < |stack| ==> stack'[i].node == stack[i].node;
    assert stack'[|stack|].node == next;
    forall v | v in visited + {next} ensures v in post || OnStack(stack', v) {
      if v != next && OnStack(stack, v) {
        var i :| 0 <= i < |stack| && stack[i].node == v;
        assert stack'[i].node == v;
      }
    }
  }

  lemma PartitionBump(visited: set<nat>, stack: seq<Frame>, post: seq<nat>, k: nat)
    requires Partition(visited, stack, post) && stack != []
    ensures Partition(visited, stack[..|stack| - 1] + [Frame(stack[|stack| - 1].node, k)], post)
  {
    var stack' := stack[..|stack| - 1] + [Frame(stack[|stack| - 1].node, k)];
    assert forall i :: 0 <= i < |stack| ==> stack'[i].node == stack[i].node;
    forall v | v in visited ensures v in post || OnStack(stack', v) {
      if i :| 0 <= i < |stack| && stack[i].node == v {
        assert stack'[i].node == v;
      }
    }
  }

  lemma PartitionPop(visited: set<nat>, stack: seq<Frame>, post: seq<nat>)
    requires Partition(visited, stack, post) && stack != []
    ensures Partition(visited, stack[..|stack| - 1], post + [stack[|stack| - 1].node])
  {
    var stack', u := stack[..|stack| - 1], stack[|stack| - 1].node;
    assert forall i :: 0 <= i < |stack'| ==> stack'[i] == stack[i];
    forall v | v in visited ensures v in post + [u] || OnStack(stack', v) {
      if i :| 0 <= i < |stack| && stack[i].node == v {
        assert i < |stack'| ==> stack'[i].node == v;
      }
    }
  }

  /** Keeping all open nodes open keeps the later-predecessor property. */
  lemma LaterPredsGrow(g: Graph, stack: seq<Frame>, stack': seq<Frame>, post: seq<nat>)
    requires LaterPreds(g, stack, post) && |stack| <= |stack'|
    requires forall i :: 0 <= i < |stack| ==> stack'[i].node == stack[i].node
    ensures LaterPreds(g, stack', post)
  {
    forall j | 0 <= j < |post| && post[j] != 0
      ensures HasLaterPred(g, stack', post, j)
    {
      assert HasLaterPred(g, stack, post, j);
      if i :| 0 <= i < |stack| && Edge(g, stack[i].node, post[j]) {
        assert Edge(g, stack'[i].node, post[j]);
      }
    }
  }

  lemma LaterPredsPop(g: Graph, stack: seq<Frame>, post: seq<nat>)
    requires LaterPreds(g, stack, post) && OpenPath(g, stack, post) && stack != []
    ensures LaterPreds(g, stack[..|stack| - 1], post + [stack[|stack| - 1].node])
  {
    var stack', u := stack[..|stack| - 1], stack[|stack| - 1].node;
    var post' := post + [u];
    forall j | 0 <= j < |post'| && post'[j] != 0
      ensures HasLaterPred(g, stack', post', j)
    {
      if j == |post| {
        assert Edge(g, stack'[|stack| - 2].node, u);
      } else {
        assert HasLaterPred(g, stack, post, j);
        if i :| 0 <= i < |stack| && Edge(g, stack[i].node, post[j]) {
          if i == |stack| - 1 {
            assert Edge(g, post'[|post|], post'[j]);
          } else {
            assert Edge(g, stack'[i].node, post'[j]);
          }
        } else {
          var m :| j < m < |post| && Edge(g, post[m], post[j]);
          assert Edge(g, post'[m], post'[j]);
        }
      }
    }
  }

  lemma OpenPathPush(g: Graph, stack: seq<Frame>, post: seq<nat>, k: nat, next: nat)
    requires OpenPath(g, stack, post) && stack != [] && Edge(g, stack[|stack| - 1].node, next)
    ensures OpenPath(g, stack[..|stack| - 1] + [Frame(stack[|stack| - 1].node, k), Frame(next, 0)], post)
  {
    var stack' := stack[..|stack| - 1] + [Frame(stack[|stack| - 1].node, k), Frame(next, 0)];
    assert forall i :: 0 <= i < |stack| ==> stack'[i].node == stack[i].node;
  }

  lemma ExploredPush(g: Graph, visited: set<nat>, stack: seq<Frame>, post: seq<nat>, next: nat)
    requires AllExplored(g, visited, stack, post) && stack != [] && stack[|stack| - 1].node < |g| && next < |g|
    requires var Frame(u, k) := stack[|stack| - 1]; k < |g[u]| && g[u][k] == next
    ensures var Frame(u, k) := stack[|stack| - 1];
      AllExplored(g, visited + {next}, stack[..|stack| - 1] + [Frame(u, k + 1), Frame(next, 0)], post)
  {
    var Frame(u, k) := stack[|stack| - 1];
    var visited', stack' := visited + {next}, stack[..|stack| - 1] + [Frame(u, k + 1), Frame(next, 0)];
    forall i | 0 <= i < |stack'| ensures Explored(g, visited', stack'[i].node, stack'[i].child) {
      if i < |stack| {
        assert Explored(g, visited, stack[i].node, stack[i].child);
      }
    }
    forall j | 0 <= j < |post| ensures post[j] < |g| && Explored(g, visited', post[j], |g[post[j]]|) {
      assert Explored(g, visited, post[j], |g[post[j]]|);
    }
  }

  lemma ExploredSkip(g: Graph, visited: set<nat>, stack: seq<Frame>, post: seq<nat>)
    requires AllExplored(g, visited, stack, post) && stack != [] && stack[|stack| - 1].node < |g|
    requires var Frame(u, k) := stack[|stack| - 1]; k < |g[u]| && (g[u][k] < |g| ==> g[u][k] in visited)
    ensures var Frame(u, k) := stack[|stack| - 1];
      AllExplored(g, visited, stack[..|stack| - 1] + [Frame(u, k + 1)], post)
  {
    var Frame(u, k) := stack[|stack| - 1];
    var stack' := stack[..|stack| - 1] + [Frame(u, k + 1)];
    forall i | 0 <= i < |stack'| ensures Explored(g, visited, stack'[i].node, stack'[i].child) {
      assert Explored(g, visited, stack[i].node, stack[i].child);
    }
  }

  lemma OpenPathPop(g: Graph, stack: seq<Frame>, post: seq<nat>)
    requires OpenPath(g, stack, post) && stack != []
    ensures OpenPath(g, stack[..|stack| - 1], post + [stack[|stack| - 1].node])
  {
  }

  lemma ExploredPop(g: Graph, visited: set<nat>, stack: seq<Frame>, post: seq<nat>)
    requires AllExplored(g, visited, stack, post) && stack != [] && stack[|stack| - 1].node < |g|
    requires stack[|stack| - 1].child == |g[stack[|stack| - 1].node]|
    ensures AllExplored(g, visited, stack[..|stack| - 1], post + [stack[|stack| - 1].node])
  {
    assert Explored(g, visited, stack[|stack| - 1].node, stack[|stack| - 1].child);
  }

  lemma OpenPathBump(g: Graph, stack: seq<Frame>, post: seq<nat>, k: nat)
    requires OpenPath(g, stack, post) && stack != []
    ensures OpenPath(g, stack[..|stack| - 1] + [Frame(stack[|stack| - 1].node, k)], post)
  {
    var stack' := stack[..|stack| - 1] + [Frame(stack[|stack| - 1].node, k)];
    assert forall i :: 0 <= i < |stack| ==> stack'[i].node == stack[i].node;
  }

  lemma SearchPush(g: Graph, visited: set<nat>, stack: seq<Frame>, post: seq<nat>, stack': seq<Frame>, visited': set<nat>)
    requires Searching(g, visited, stack, post) && stack != []
    requires var Frame(u, k) := stack[|stack| - 1];
      && u < |g| && k < |g[u]| && g[u][k] < |g| && g[u][k] !in visited
      && visited' == visited + {g[u][k]}
      && stack' == stack[..|stack| - 1] + [Frame(u, k + 1), Frame(g[u][k], 0)]
    ensures Searching(g, visited', stack', post)
  {
    var Frame(u, k) := stack[|stack| - 1];
    var next := g[u][k];
    ReachedPush(g, visited, u, next);
    PartitionPush(visited, stack, post, k + 1, next);
    LaterPredsGrow(g, stack, stack', post);
    OpenPathPush(g, stack, post, k + 1, next);
    ExploredPush(g, visited, stack, post, next);
  }

  lemma SearchSkip(g: Graph, visited: set<nat>, stack: seq<Frame>, post: seq<nat>, stack': seq<Frame>)
    requires Searching(g, visited, stack, post) && stack != []
    requires var Frame(u, k) := stack[|stack| - 1];
      && u < |g| && k < |g[u]| && (g[u][k] < |g| ==> g[u][k] in visited)
      && stack' == stack[..|stack| - 1] + [Frame(u, k + 1)]
    ensures Searching(g, visited, stack', post)
  {
    var Frame(u, k) := stack[|stack| - 1];
    PartitionBump(visited, stack, post, k + 1);
    LaterPredsGrow(g, stack, stack', post);
    OpenPathBump(g, stack, post, k + 1);
    ExploredSkip(g, visited, stack, post);
  }

  lemma SearchFinish(g: Graph, visited: set<nat>, stack: seq<Frame>, post: seq<nat>, stack': seq<Frame>, post': seq<nat>)
    requires Searching(g, visited, stack, post) && stack != []
    requires var Frame(u, k) := stack[|stack| - 1];
      u < |g| && k == |g[u]| && stack' == stack[..|stack| - 1] && post' == post + [u]
    ensures Searching(g, visited, stack', post')
  {
    PartitionPop(visited, stack, post);
    LaterPredsPop(g, stack, post);
    OpenPathPop(g, stack, post);
    ExploredPop(g, visited, stack, post);
  }

  function Reverse(s: seq<nat>): (r: seq<nat>)
    ensures |r| == |s|
    ensures forall i :: 0 <= i < |s| ==> r[i] == s[|s| - 1 - i]
  {
    seq(|s|, i requires 0 <= i < |s| => s[|s| - 1 - i])
  }

  /** With no node open, the finished nodes are the reachable ones. */
  lemma DoneReached(g: Graph, visited: set<nat>, post: seq<nat>, v: nat)
    requires |g| > 0 && 0 in visited && AllReached(g, visited)
    requires Partition(visited, [], post) && AllExplored(g, visited, [], post)
    ensures v in post <==> Reaches(g, 0, v)
  {
    forall u: nat, w: nat | u in visited && Edge(g, u, w)
      ensures w in visited
    {
      assert !OnStack([], u);
      var j :| 0 <= j < |post| && post[j] == u;
      assert Explored(g, visited, post[j], |g[post[j]]|);
    }
    if p :| PathFromTo(g, p, 0, v) {
      ClosedAlongPath(g, p, visited);
      assert !OnStack([], v);
    }
  }

  lemma DoneOrder(g: Graph, post: seq<nat>, j: nat)
    requires LaterPreds(g, [], post) && j < |post| && post[|post| - 1 - j] != 0
    ensures HasEarlierPred(g, Reverse(post), j)
  {
    var rpo, j' := Reverse(post), |post| - 1 - j;
    assert HasLaterPred(g, [], post, j');
    var k :| j' < k < |post| && Edge(g, post[k], post[j']);
    assert rpo[|post| - 1 - k] == post[k];
  }

  lemma SearchDone(g: Graph, visited: set<nat>, post: seq<nat>)
    requires Searching(g, visited, [], post)
    ensures IsRpo(g, Reverse(post))
  {
    var rpo := Reverse(post);
    forall v: nat ensures v in rpo <==> Reaches(g, 0, v) {
      DoneReached(g, visited, post, v);
      assert v in rpo ==> v in post;
      if i :| 0 <= i < |post| && post[i] == v {
        assert rpo[|post| - 1 - i] == v;
      }
    }
    forall j | 0 < j < |rpo| ensures HasEarlierPred(g, rpo, j) {
      assert post[|post| - 1 - j] != 0;
      DoneOrder(g, post, j);
    }
  }

  function Below(n: nat): (r: set<nat>)
    ensures forall v :: v in r <==> 0 <= v < n
    ensures |r| == n
  {
    if n == 0 then {} else Below(n - 1) + {n - 1}
  }

  method ReversePostorder(g: Graph) returns (rpo: seq<nat>)
    requires |g| > 0
    ensures IsRpo(g, rpo)
  {
    var postorder: seq<nat> := [];
    var visited := seq(|g|, _ => false)[0 := true];
    var stack: seq<Frame> := [Frame(0, 0)];
    ghost var seen: set<nat> := {0};
    SearchInit(g);
    while stack != []
      invariant Marks(visited, seen, |g|)
      invariant Searching(g, seen, stack, postorder)
      decreases Below(|g|) - seen, |stack|, Remaining(g, stack)
    {
      var Frame(node, childI) := stack[|stack| - 1];
      assert Explored(g, seen, stack[|stack| - 1].node, stack[|stack| - 1].child);
      var rest := stack[..|stack| - 1];
      if childI < |g[node]| && g[node][childI] < |g| && !visited[g[node][childI]] {
        var next := g[node][childI];
        ghost var seen' := seen + {next};
        var stack' := rest + [Frame(node, childI + 1), Frame(next, 0)];
        SearchPush(g, seen, stack, postorder, stack', seen');
        assert next in Below(|g|) - seen;
        visited, stack, seen := visited[next := true], stack', seen';
      } else if childI < |g[node]| {
        var stack' := rest + [Frame(node, childI + 1)];
        SearchSkip(g, seen, stack, postorder, stack');
        stack := stack';
      } else {
        SearchFinish(g, seen, stack, postorder, rest, postorder + [node]);
        postorder, stack := postorder + [node], rest;
      }
    }
    SearchDone(g, seen, postorder);
    rpo := Reverse(postorder);
  }

  ghost predicate Marks(visited: seq<bool>, seen: set<nat>, n: nat)
  {
    |visited| == n && forall v :: 0 <= v < n ==> (visited[v] <==> v in seen)
  }

  /** Successors the top of the stack has still to look at. */
  ghost function Remaining(g: Graph, stack: seq<Frame>): int
  {
    if stack != [] && stack[|stack| - 1].node < |g|
    then |g[stack[|stack| - 1].node]| - stack[|stack| - 1].child
    else 0
  }

  lemma SearchInit(g: Graph)
    requires |g| > 0
    ensures Searching(g, {0}, [Frame(0, 0)], [])
  {
    ReachesSelf(g, 0);
    assert [Frame(0, 0)][0].node == 0;
    assert OnStack([Frame(0, 0)], 0);
  }
}
