/**
 The extraction of internal transactions: a queue walk over a trace that names every node by its type and
 its path, and records the calls and creations.
 */
module InternalTxs {
  import opened Common
  import opened Decimals

  datatype Trace = Trace(kind: string, from: Address, to: Address, value: nat, calls: seq<Trace>)

  /** The row's name is all the unique index sees of it within a clause. */
  datatype InternalTx = InternalTx(name: string, from: Address, to: Address, value: nat)

  // ---------------------------------------------------------------------------
  // Names
  // ---------------------------------------------------------------------------

  /** A path as the source writes it: indexes joined by underscores. The root's path is [0]. */
  function Suffix(path: seq<nat>): string
    requires path != []
  {
    if |path| == 1 then Decimal(path[0])
    else Suffix(path[..|path| - 1]) + "_" + Decimal(path[|path| - 1])
  }

  function LowerChar(c: char): char {
    if 'A' <= c <= 'Z' then (c as int + 32) as char else c
  }

  function Lower(s: string): (r: string)
    ensures |r| == |s| && forall i :: 0 <= i < |s| ==> r[i] == LowerChar(s[i])
  {
    seq(|s|, i requires 0 <= i < |s| => LowerChar(s[i]))
  }

  function Name(kind: string, path: seq<nat>): string
    requires path != []
  {
    Lower(kind) + "_" + Suffix(path)
  }

  /** The last underscore splits a name, because no number contains one. */
  lemma LastUnderscore(a: string, x: string, b: string, y: string)
    requires a + "_" + x == b + "_" + y
    requires (forall i :: 0 <= i < |x| ==> x[i] != '_') && (forall i :: 0 <= i < |y| ==> y[i] != '_')
    ensures a == b && x == y
  {
    var s, t := a + "_" + x, b + "_" + y;
    assert s[|a|] == '_' && t[|b|] == '_';
    assert forall i :: |a| < i < |s| ==> s[i] == x[i - |a| - 1];
    assert forall i :: |b| < i < |t| ==> t[i] == y[i - |b| - 1];
    assert s[..|a|] == a && t[..|b|] == b;
    assert s[|a| + 1..] == x && t[|b| + 1..] == y;
  }

  lemma {:induction false} SuffixUnderscores(path: seq<nat>)
    requires path != []
    ensures |path| == 1 <==> forall i :: 0 <= i < |Suffix(path)| ==> Suffix(path)[i] != '_'
  {
    if |path| > 1 {
      var front := Suffix(path[..|path| - 1]);
      assert Suffix(path)[|front|] == '_';
    }
  }

  lemma {:induction false} SuffixInjective(p: seq<nat>, q: seq<nat>)
    requires p != [] && q != [] && Suffix(p) == Suffix(q)
    ensures p == q
  {
    SuffixUnderscores(p);
    SuffixUnderscores(q);
    if |p| == 1 {
      DecimalInjective(p[0], q[0]);
    } else {
      var m, n := |p| - 1, |q| - 1;
      LastUnderscore(Suffix(p[..m]), Decimal(p[m]), Suffix(q[..n]), Decimal(q[n]));
      SuffixInjective(p[..m], q[..n]);
      DecimalInjective(p[m], q[n]);
      assert p == p[..m] + [p[m]] && q == q[..n] + [q[n]];
    }
  }

  /** Type and path together are an injective encoding, for types without an underscore. */
  lemma NameInjective(k: string, p: seq<nat>, l: string, q: seq<nat>)
    requires p != [] && q != [] && Name(k, p) == Name(l, q)
    requires (forall i :: 0 <= i < |k| ==> k[i] != '_') && (forall i :: 0 <= i < |l| ==> l[i] != '_')
    ensures p == q && Lower(k) == Lower(l)
  {
    FirstUnderscore(Lower(k), Suffix(p), Lower(l), Suffix(q));
    SuffixInjective(p, q);
  }

  lemma FirstUnderscore(x: string, a: string, y: string, b: string)
    requires x + "_" + a == y + "_" + b
    requires (forall i :: 0 <= i < |x| ==> x[i] != '_') && (forall i :: 0 <= i < |y| ==> y[i] != '_')
    ensures x == y && a == b
  {
    var s, t := x + "_" + a, y + "_" + b;
    assert s[|x|] == '_' && t[|y|] == '_';
    assert s[..|x|] == x && t[..|y|] == y;
    assert forall i :: 0 <= i < |x| ==> s[i] == x[i];
    assert forall i :: 0 <= i < |y| ==> t[i] == y[i];
    assert |x| == |y|;
    assert s[|x| + 1..] == a && t[|y| + 1..] == b;
  }

  // ---------------------------------------------------------------------------
  // The nodes of a trace, with their paths
  // ---------------------------------------------------------------------------

  datatype Visit = Visit(path: seq<nat>, node: Trace)

  function Nodes(t: Trace, path: seq<nat>): seq<Visit>
    decreases t, 1
  {
    [Visit(path, t)] + NodesIn(t.calls, path, 0)
  }

  function NodesIn(calls: seq<Trace>, path: seq<nat>, first: nat): seq<Visit>
    decreases calls, 0
  {
    if calls == [] then [] else Nodes(calls[0], path + [first]) + NodesIn(calls[1..], path, first + 1)
  }

  /** Every path below a node starts with the node's path. */
  lemma {:induction false} PathsExtend(t: Trace, path: seq<nat>, v: Visit)
    requires v in Nodes(t, path)
    ensures |v.path| >= |path| && v.path[..|path|] == path
    decreases t, 1
  {
    if v != Visit(path, t) {
      PathsExtendIn(t.calls, path, 0, v);
    }
  }

  lemma {:induction false} PathsExtendIn(calls: seq<Trace>, path: seq<nat>, first: nat, v: Visit)
    requires v in NodesIn(calls, path, first)
    ensures |v.path| > |path| && v.path[..|path|] == path && v.path[|path|] >= first
    decreases calls, 0
  {
    if v in Nodes(calls[0], path + [first]) {
      PathsExtend(calls[0], path + [first], v);
      assert v.path[..|path| + 1] == path + [first];
      assert v.path[..|path|] == v.path[..|path| + 1][..|path|];
      assert v.path[|path|] == v.path[..|path| + 1][|path|];
    } else {
      PathsExtendIn(calls[1..], path, first + 1, v);
    }
  }

  /** A path occurs once. */
  ghost predicate PathsDiffer(s: seq<Visit>) {
    forall i, j :: 0 <= i < j < |s| ==> s[i].path != s[j].path
  }

  lemma {:induction false} NodesDiffer(t: Trace, path: seq<nat>)
    ensures PathsDiffer(Nodes(t, path))
    decreases t, 1
  {
    NodesInDiffer(t.calls, path, 0);
    forall y | y in NodesIn(t.calls, path, 0)
      ensures y.path != path
    {
      PathsExtendIn(t.calls, path, 0, y);
    }
  }

  lemma {:induction false} NodesInDiffer(calls: seq<Trace>, path: seq<nat>, first: nat)
    ensures PathsDiffer(NodesIn(calls, path, first))
    decreases calls, 0
  {
    if calls != [] {
      var a, b := Nodes(calls[0], path + [first]), NodesIn(calls[1..], path, first + 1);
      NodesDiffer(calls[0], path + [first]);
      NodesInDiffer(calls[1..], path, first + 1);
      forall x, y | x in a && y in b
        ensures x.path != y.path
      {
        PathsExtend(calls[0], path + [first], x);
        assert x.path[|path|] == (path + [first])[|path|];
        PathsExtendIn(calls[1..], path, first + 1, y);
      }
    }
  }

  /** Reordering keeps paths different. */
  lemma PermutationDiffers(s: seq<Visit>, t: seq<Visit>)
    requires PathsDiffer(s) && multiset(s) == multiset(t)
    ensures PathsDiffer(t)
  {
    forall i, j | 0 <= i < j < |t|
      ensures t[i].path != t[j].path
    {
      if t[i].path == t[j].path {
        assert t[i] in multiset(s) && t[j] in multiset(s);
        assert t[i] in s && t[j] in s;
        var k :| 0 <= k < |s| && s[k] == t[i];
        var l :| 0 <= l < |s| && s[l] == t[j];
        assert k == l;
        OccursTwice(t, i, j);
        OccursOnce(s, k);
      }
    }
  }

  lemma OccursTwice(t: seq<Visit>, i: nat, j: nat)
    requires i < j < |t| && t[i] == t[j]
    ensures multiset(t)[t[i]] >= 2
  {
    var a, b, c := t[..i], t[i..j], t[j..];
    assert t == a + b + c;
    assert b[0] == t[i] && c[0] == t[i];
    assert t[i] in multiset(b) && t[i] in multiset(c);
  }

  lemma {:induction false} OccursOnce(s: seq<Visit>, k: nat)
    requires PathsDiffer(s) && k < |s|
    ensures multiset(s)[s[k]] == 1
  {
    var a, b := s[..k], s[k + 1..];
    assert s == a + [s[k]] + b;
    assert s[k] !in a && s[k] !in b;
  }

  // ---------------------------------------------------------------------------
  // The nodes are those the indexes of a path lead to
  // ---------------------------------------------------------------------------

  /** Taking the children of these indexes, one after the other, leads from the trace to the node. */
  ghost predicate LeadsTo(t: Trace, indexes: seq<nat>, node: Trace) {
    if indexes == [] then node == t
    else indexes[0] < |t.calls| && LeadsTo(t.calls[indexes[0]], indexes[1..], node)
  }

  lemma {:induction false} NodesAreLedTo(t: Trace, path: seq<nat>, indexes: seq<nat>, node: Trace)
    ensures Visit(path + indexes, node) in Nodes(t, path) <==> LeadsTo(t, indexes, node)
    decreases t, 1
  {
    var v := Visit(path + indexes, node);
    if indexes == [] {
      assert path + indexes == path;
      if v in NodesIn(t.calls, path, 0) {
        PathsExtendIn(t.calls, path, 0, v);
      }
    } else {
      assert v.path != path;
      ChildrenAreLedTo(t.calls, path, 0, indexes, node);
    }
  }

  lemma NextIndex(t: Trace, path: seq<nat>, first: nat, v: Visit)
    requires v in Nodes(t, path + [first])
    ensures |v.path| > |path| && v.path[|path|] == first
  {
    PathsExtend(t, path + [first], v);
    assert v.path[..|path| + 1][|path|] == first;
  }

  lemma {:induction false} ChildrenAreLedTo(
      calls: seq<Trace>, path: seq<nat>, first: nat, indexes: seq<nat>, node: Trace)
    requires indexes != []
    ensures Visit(path + indexes, node) in NodesIn(calls, path, first)
       <==> first <= indexes[0] < first + |calls| && LeadsTo(calls[indexes[0] - first], indexes[1..], node)
    decreases calls, 0
  {
    if calls != [] {
      var v := Visit(path + indexes, node);
      if indexes[0] == first {
        assert path + [first] + indexes[1..] == path + indexes;
        NodesAreLedTo(calls[0], path + [first], indexes[1..], node);
        if v in NodesIn(calls[1..], path, first + 1) {
          PathsExtendIn(calls[1..], path, first + 1, v);
        }
      } else {
        if v in Nodes(calls[0], path + [first]) {
          NextIndex(calls[0], path, first, v);
        }
        ChildrenAreLedTo(calls[1..], path, first + 1, indexes, node);
      }
    }
  }

  // ---------------------------------------------------------------------------
  // The queue walk
  // ---------------------------------------------------------------------------

  predicate IsRecorded(kind: string) {
    kind == "CALL" || kind == "CREATE" || kind == "CREATE2"
  }

  ghost predicate HavePaths(visited: seq<Visit>) {
    forall v :: v in visited ==> v.path != []
  }

  /** What the unique index asks of the rows of one clause. */
  ghost predicate NamesDiffer(rows: seq<InternalTx>) {
    forall i, j :: 0 <= i < j < |rows| ==> rows[i].name != rows[j].name
  }

  function RowOf(v: Visit): InternalTx
    requires v.path != []
  {
    InternalTx(Name(v.node.kind, v.path), v.node.from, v.node.to, v.node.value)
  }

  /** The rows of the recorded nodes, in order of the visit. */
  ghost function Rows(visited: seq<Visit>): seq<InternalTx>
    requires HavePaths(visited)
  {
    if visited == [] then []
    else
      var front, v := visited[..|visited| - 1], visited[|visited| - 1];
      if IsRecorded(v.node.kind) then Rows(front) + [RowOf(v)] else Rows(front)
  }

  /** All nodes below the queued ones. */
  ghost function Queued(q: seq<Visit>): multiset<Visit> {
    if q == [] then multiset{} else multiset(Nodes(q[0].node, q[0].path)) + Queued(q[1..])
  }

  lemma {:induction false} QueuedAppend(q: seq<Visit>, v: Visit)
    ensures Queued(q + [v]) == Queued(q) + multiset(Nodes(v.node, v.path))
  {
    if q != [] {
      assert (q + [v])[1..] == q[1..] + [v];
      QueuedAppend(q[1..], v);
    }
  }

  /** Distinct names, from distinct paths. */
  lemma {:induction false} RowsDiffer(visited: seq<Visit>)
    requires PathsDiffer(visited) && HavePaths(visited)
    ensures NamesDiffer(Rows(visited))
  {
    if visited != [] {
      var front, v := visited[..|visited| - 1], visited[|visited| - 1];
      RowsDiffer(front);
      if IsRecorded(v.node.kind) {
        forall i | 0 <= i < |Rows(front)|
          ensures Rows(front)[i].name != Name(v.node.kind, v.path)
        {
          var k := RowComesFrom(front, i);
          if Name(front[k].node.kind, front[k].path) == Name(v.node.kind, v.path) {
            NameInjective(front[k].node.kind, front[k].path, v.node.kind, v.path);
          }
        }
      }
    }
  }

  lemma {:induction false} RowComesFrom(visited: seq<Visit>, i: nat) returns (k: nat)
    requires HavePaths(visited)
    requires i < |Rows(visited)|
    ensures k < |visited| && IsRecorded(visited[k].node.kind)
    ensures Rows(visited)[i].name == Name(visited[k].node.kind, visited[k].path)
  {
    var front := visited[..|visited| - 1];
    if i < |Rows(front)| {
      k := RowComesFrom(front, i);
    } else {
      k := |visited| - 1;
    }
  }

  /** The row of a call or a creation: its type in lower case, and the indexes that lead to it behind the root's 0. */
  ghost predicate IsRowOf(trace: Trace, indexes: seq<nat>, node: Trace, row: InternalTx) {
    && LeadsTo(trace, indexes, node)
    && ((node.kind == "CALL" && row.name == "call_" + Suffix([0] + indexes))
        || (node.kind == "CREATE" && row.name == "create_" + Suffix([0] + indexes))
        || (node.kind == "CREATE2" && row.name == "create2_" + Suffix([0] + indexes)))
    && row.from == node.from && row.to == node.to && row.value == node.value
  }

  /** Every call and every creation of the trace has its row, and every row is one's. */
  ghost predicate AreRowsOf(trace: Trace, rows: seq<InternalTx>) {
    && (forall row :: row in rows ==> exists indexes, node :: IsRowOf(trace, indexes, node, row))
    && (forall indexes, node ::
          LeadsTo(trace, indexes, node) && (node.kind == "CALL" || node.kind == "CREATE" || node.kind == "CREATE2") ==>
            exists row :: row in rows && IsRowOf(trace, indexes, node, row))
  }

  lemma LowerCase()
    ensures Lower("CALL") == "call" && Lower("CREATE") == "create" && Lower("CREATE2") == "create2"
  {
  }

  lemma {:induction false} RowsOfVisited(visited: seq<Visit>, v: Visit)
    requires HavePaths(visited) && v in visited && IsRecorded(v.node.kind)
    ensures RowOf(v) in Rows(visited)
  {
    var front := visited[..|visited| - 1];
    if v in front {
      RowsOfVisited(front, v);
    }
  }

  lemma {:induction false} RowIsOfVisited(visited: seq<Visit>, row: InternalTx) returns (v: Visit)
    requires HavePaths(visited) && row in Rows(visited)
    ensures v in visited && IsRecorded(v.node.kind) && row == RowOf(v)
  {
    var front := visited[..|visited| - 1];
    if row in Rows(front) {
      v := RowIsOfVisited(front, row);
    } else {
      v := visited[|visited| - 1];
    }
  }

  lemma RowIsOfNode(trace: Trace, visited: seq<Visit>, row: InternalTx) returns (indexes: seq<nat>, node: Trace)
    requires multiset(visited) == multiset(Nodes(trace, [0])) && HavePaths(visited) && row in Rows(visited)
    ensures IsRowOf(trace, indexes, node, row)
  {
    var v := RowIsOfVisited(visited, row);
    indexes, node := v.path[1..], v.node;
    assert v in multiset(visited) && v in Nodes(trace, [0]);
    PathsExtend(trace, [0], v);
    assert v.path == [0] + indexes;
    NodesAreLedTo(trace, [0], indexes, node);
    LowerCase();
  }

  lemma NodeHasRow(trace: Trace, visited: seq<Visit>, indexes: seq<nat>, node: Trace) returns (row: InternalTx)
    requires multiset(visited) == multiset(Nodes(trace, [0])) && HavePaths(visited)
    requires LeadsTo(trace, indexes, node) && IsRecorded(node.kind)
    ensures row in Rows(visited) && IsRowOf(trace, indexes, node, row)
  {
    var v := Visit([0] + indexes, node);
    NodesAreLedTo(trace, [0], indexes, node);
    assert v in multiset(Nodes(trace, [0])) && v in visited;
    RowsOfVisited(visited, v);
    LowerCase();
    row := RowOf(v);
  }

  lemma RowsAreThose(trace: Trace, visited: seq<Visit>, rows: seq<InternalTx>)
    requires multiset(visited) == multiset(Nodes(trace, [0])) && HavePaths(visited) && rows == Rows(visited)
    ensures AreRowsOf(trace, rows)
  {
    forall row | row in rows
      ensures exists indexes, node :: IsRowOf(trace, indexes, node, row)
    {
      var indexes, node := RowIsOfNode(trace, visited, row);
    }
    forall indexes, node |
        LeadsTo(trace, indexes, node) && (node.kind == "CALL" || node.kind == "CREATE" || node.kind == "CREATE2")
      ensures exists row :: row in rows && IsRowOf(trace, indexes, node, row)
    {
      var row := NodeHasRow(trace, visited, indexes, node);
    }
  }

  /** The queue of nodes and suffixes stands for a queue of nodes and paths. */
  ghost predicate StandsFor(q: seq<(Trace, string)>, visits: seq<Visit>) {
    && |q| == |visits|
    && forall i :: 0 <= i < |q| ==>
         visits[i].path != [] && visits[i].node == q[i].0 && Suffix(visits[i].path) == q[i].1
  }

  lemma PushStandsFor(q: seq<(Trace, string)>, visits: seq<Visit>, child: Trace, path: seq<nat>, index: nat)
    requires StandsFor(q, visits) && path != []
    ensures StandsFor(q + [(child, Suffix(path) + "_" + Decimal(index))], visits + [Visit(path + [index], child)])
  {
    assert (path + [index])[..|path|] == path;
  }

  /** What holds between two visits: the visited and the queued nodes are all nodes, and the rows are written. */
  ghost predicate Walking(rows: seq<InternalTx>, visited: seq<Visit>, q: seq<(Trace, string)>, visits: seq<Visit>,
                          all: multiset<Visit>)
  {
    && HavePaths(visited)
    && rows == Rows(visited)
    && StandsFor(q, visits)
    && multiset(visited) + Queued(visits) == all
  }

  /** The walk visits every node of the trace exactly once, and gives all recorded rows different names. */
  method Extract(trace: Trace) returns (rows: seq<InternalTx>, ghost visited: seq<Visit>)
    ensures multiset(visited) == multiset(Nodes(trace, [0])) && PathsDiffer(visited)
    ensures HavePaths(visited) && rows == Rows(visited)
    ensures AreRowsOf(trace, rows) && NamesDiffer(rows)
  {
    rows, visited := [], [];
    var q := [(trace, "0")];
    ghost var visits := [Visit([0], trace)];
    ghost var all := multiset(Nodes(trace, [0]));
    while q != []
      invariant Walking(rows, visited, q, visits, all)
      decreases |Queued(visits)|
    {
      rows, visited, q, visits := VisitFirst(rows, visited, q, visits, all);
    }
    WalkEnds(trace, rows, visited, visits);
  }

  lemma WalkEnds(trace: Trace, rows: seq<InternalTx>, visited: seq<Visit>, visits: seq<Visit>)
    requires Walking(rows, visited, [], visits, multiset(Nodes(trace, [0])))
    ensures multiset(visited) == multiset(Nodes(trace, [0])) && PathsDiffer(visited) && NamesDiffer(rows)
    ensures AreRowsOf(trace, rows)
  {
    RowsAreThose(trace, visited, rows);
    NodesDiffer(trace, [0]);
    PermutationDiffers(Nodes(trace, [0]), visited);
    RowsDiffer(visited);
  }

  /** One turn of the loop. */
  method VisitFirst(rows: seq<InternalTx>, ghost visited: seq<Visit>, q: seq<(Trace, string)>, ghost visits: seq<Visit>,
                    ghost all: multiset<Visit>)
    returns (r: seq<InternalTx>, ghost v: seq<Visit>, p: seq<(Trace, string)>, ghost s: seq<Visit>)
    requires Walking(rows, visited, q, visits, all) && q != []
    ensures Walking(r, v, p, s, all) && |Queued(s)| < |Queued(visits)|
  {
    var (node, suffix) := q[0];
    ghost var here, rest := visits[0], visits[1..];
    assert visits == [here] + rest;
    r := Record(rows, node, suffix);
    p, s := Push(q[1..], rest, node.calls, here.path, suffix);
    v := visited + [here];
  }

  method Record(rows: seq<InternalTx>, node: Trace, suffix: string) returns (r: seq<InternalTx>)
    ensures r == if IsRecorded(node.kind)
                 then rows + [InternalTx(Lower(node.kind) + "_" + suffix, node.from, node.to, node.value)] else rows
  {
    var name := Lower(node.kind) + "_" + suffix;
    if node.kind == "CALL" || node.kind == "CREATE" || node.kind == "CREATE2" {
      return rows + [InternalTx(name, node.from, node.to, node.value)];
    }
    return rows;
  }

  /** The children go to the end of the queue. */
  method Push(q: seq<(Trace, string)>, ghost visits: seq<Visit>, calls: seq<Trace>, ghost path: seq<nat>,
              suffix: string)
    returns (r: seq<(Trace, string)>, ghost s: seq<Visit>)
    requires StandsFor(q, visits) && path != [] && Suffix(path) == suffix
    ensures StandsFor(r, s)
    ensures Queued(s) == Queued(visits) + multiset(NodesIn(calls, path, 0))
  {
    r, s := q, visits;
    ghost var all := Queued(visits) + multiset(NodesIn(calls, path, 0));
    for index := 0 to |calls|
      invariant StandsFor(r, s)
      invariant Queued(s) + multiset(NodesIn(calls[index..], path, index)) == all
    {
      var childSuffix := suffix + "_" + Decimal(index);
      assert calls[index..][1..] == calls[index + 1..];
      QueuedAppend(s, Visit(path + [index], calls[index]));
      PushStandsFor(r, s, calls[index], path, index);
      r, s := r + [(calls[index], childSuffix)], s + [Visit(path + [index], calls[index])];
    }
  }
}
