/** The retained size of a result graph, estimated by a worklist that may meet objects twice. */
module ReplayCost {

  /** A JavaScript value as the estimate sees it; objects are known by identity. */
  datatype Value = Missing | Text(length: nat) | Scalar | Callable | Object(id: nat)

  datatype Field = Field(keyLength: nat, value: Value)

  datatype Node = ArrayNode(items: seq<Value>) | RecordNode(fields: seq<Field>)

  /** A heap: finite, possibly cyclic and shared, with no dangling reference. */
  type Graph = map<nat, Node>

  ghost predicate WellFormed(g: Graph, root: Value) {
    && (root.Object? ==> root.id in g)
    && forall n, v :: n in g && v in Children(g[n]) && v.Object? ==> v.id in g
  }

  function FieldValues(fields: seq<Field>): (r: seq<Value>)
    ensures |r| == |fields| && forall i :: 0 <= i < |r| ==> r[i] == fields[i].value
  {
    if |fields| == 0 then [] else [fields[0].value] + FieldValues(fields[1..])
  }

  function Children(n: Node): seq<Value> {
    match n case ArrayNode(items) => items case RecordNode(fields) => FieldValues(fields)
  }

  // ---------- the reference: a sum over the reachable objects ----------

  /** What a value costs where it is mentioned; objects cost where they are. */
  function LeafCost(v: Value): nat {
    match v
    case Missing => 0
    case Text(length) => length * 2
    case Scalar => 8
    case Callable => 8
    case Object(_) => 0
  }

  function LeafSum(values: seq<Value>): nat {
    if |values| == 0 then 0 else LeafSum(values[..|values| - 1]) + LeafCost(values[|values| - 1])
  }

  function KeySum(fields: seq<Field>): nat {
    if |fields| == 0 then 0 else KeySum(fields[..|fields| - 1]) + 8 + fields[|fields| - 1].keyLength * 2
  }

  function OwnCost(n: Node): nat {
    match n case ArrayNode(items) => 24 + |items| * 8 case RecordNode(fields) => 32 + KeySum(fields)
  }

  function NodeCost(n: Node): nat {
    OwnCost(n) + LeafSum(Children(n))
  }

  predicate RefersTo(g: Graph, from: nat, to: nat) {
    from in g && to in g && Object(to) in Children(g[from])
  }

  /** A way through the heap from the root to `path`'s last object. */
  ghost predicate IsPath(g: Graph, root: Value, path: seq<nat>) {
    && |path| > 0 && root == Object(path[0]) && path[0] in g
    && forall i, j :: 0 <= i < |path| && j == i + 1 < |path| ==> RefersTo(g, path[i], path[j])
  }

  ghost predicate Reachable(g: Graph, root: Value, n: nat) {
    exists path :: IsPath(g, root, path) && path[|path| - 1] == n
  }

  ghost function ReachSet(g: Graph, root: Value): set<nat> {
    set n | n in g && Reachable(g, root, n)
  }

  ghost function SumCost(g: Graph, s: set<nat>): nat
    requires s <= g.Keys
  {
    if s == {} then 0 else var n :| n in s; NodeCost(g[n]) + SumCost(g, s - {n})
  }

  /** The size of everything reachable, each object counted once: no traversal order in sight. */
  ghost function Total(g: Graph, root: Value): nat {
    LeafCost(root) + SumCost(g, ReachSet(g, root))
  }

  // ---------- laws ----------

  lemma {:induction false} SumCostAdd(g: Graph, s: set<nat>, x: nat)
    requires s <= g.Keys && x in g && x !in s
    ensures SumCost(g, s + {x}) == SumCost(g, s) + NodeCost(g[x])
    decreases s
  {
    var all := s + {x};
    var n :| n in all && SumCost(g, all) == NodeCost(g[n]) + SumCost(g, all - {n});
    if n == x {
      assert all - {n} == s;
    } else {
      assert all - {n} == (s - {n}) + {x};
      SumCostAdd(g, s - {n}, x);
      assert (s - {n}) + {n} == s;
      SumCostAdd(g, s - {n}, n);
    }
  }

  lemma {:induction false} SumCostMonotone(g: Graph, s: set<nat>, t: set<nat>)
    requires s <= t <= g.Keys
    ensures SumCost(g, s) <= SumCost(g, t)
    decreases t - s
  {
    if s != t {
      assert exists x :: x in t && x !in s;
      var x :| x in t && x !in s;
      SumCostAdd(g, s, x);
      SumCostMonotone(g, s + {x}, t);
    }
  }

  lemma LeafSumSnoc(values: seq<Value>, v: Value)
    ensures LeafSum(values + [v]) == LeafSum(values) + LeafCost(v)
  {
    assert (values + [v])[..|values|] == values;
  }

  lemma {:induction false} LeafSumConcat(a: seq<Value>, b: seq<Value>)
    ensures LeafSum(a + b) == LeafSum(a) + LeafSum(b)
    decreases |b|
  {
    if |b| == 0 {
      assert a + b == a;
    } else {
      var front := b[..|b| - 1];
      assert a + b == (a + front) + [b[|b| - 1]];
      LeafSumSnoc(a + front, b[|b| - 1]);
      LeafSumConcat(a, front);
    }
  }

  lemma ReachRoot(g: Graph, root: Value)
    requires root.Object? && root.id in g
    ensures root.id in ReachSet(g, root)
  {
    assert IsPath(g, root, [root.id]);
  }

  lemma ReachChild(g: Graph, root: Value, n: nat, v: Value)
    requires WellFormed(g, root) && n in ReachSet(g, root) && v in Children(g[n]) && v.Object?
    ensures v.id in ReachSet(g, root)
  {
    var path :| IsPath(g, root, path) && path[|path| - 1] == n;
    assert IsPath(g, root, path + [v.id]);
    assert (path + [v.id])[|path|] == v.id;
  }

  /** Whatever contains the root and is closed under references contains everything reachable. */
  lemma {:induction false} ClosedContains(g: Graph, root: Value, s: set<nat>, path: seq<nat>)
    requires IsPath(g, root, path)
    requires root.id in s && forall n, v :: n in s && n in g && v in Children(g[n]) && v.Object? ==> v.id in s
    ensures path[|path| - 1] in s
    decreases |path|
  {
    if |path| > 1 {
      var front := path[..|path| - 1];
      assert IsPath(g, root, front);
      ClosedContains(g, root, s, front);
    }
  }

  /** What the worklist guarantees between two of its steps. */
  ghost predicate Explored(g: Graph, root: Value, seen: set<nat>, pending: seq<Value>) {
    && seen <= ReachSet(g, root)
    && (forall v :: v in pending && v.Object? ==> v.id in ReachSet(g, root))
    && (root.Object? ==> root.id in seen || root in pending)
    && (forall n, v :: n in seen && n in g && v in Children(g[n]) && v.Object? ==> v.id in seen || v in pending)
  }

  lemma ExploredAll(g: Graph, root: Value, seen: set<nat>)
    requires WellFormed(g, root) && Explored(g, root, seen, [])
    ensures seen == ReachSet(g, root)
  {
    forall n | n in ReachSet(g, root) ensures n in seen {
      var path :| IsPath(g, root, path) && path[|path| - 1] == n;
      ClosedContains(g, root, seen, path);
    }
  }

  lemma PopKeeps(g: Graph, root: Value, seen: set<nat>, pending: seq<Value>, v: Value)
    requires Explored(g, root, seen, pending + [v]) && (v.Object? ==> v.id in seen)
    ensures Explored(g, root, seen, pending)
  {
    assert forall w :: w in pending + [v] <==> w in pending || w == v;
  }

  lemma ExpandKeeps(g: Graph, root: Value, seen: set<nat>, pending: seq<Value>, n: nat)
    requires WellFormed(g, root) && Explored(g, root, seen, pending + [Object(n)]) && n in g
    ensures n in ReachSet(g, root) && Explored(g, root, seen + {n}, pending + Children(g[n]))
  {
    assert Object(n) in pending + [Object(n)];
    assert forall w :: w in pending + [Object(n)] <==> w in pending || w == Object(n);
    assert forall w :: w in pending + Children(g[n]) <==> w in pending || w in Children(g[n]);
    forall v | v in Children(g[n]) && v.Object? ensures v.id in ReachSet(g, root) {
      ReachChild(g, root, n, v);
    }
  }

  /** Visiting an object: what the worklist holds and what it has counted stay in balance. */
  lemma VisitCounts(g: Graph, root: Value, seen: set<nat>, rest: seq<Value>, n: nat)
    requires WellFormed(g, root) && Explored(g, root, seen, rest + [Object(n)]) && n in g && n !in seen
    ensures LeafSum(rest + Children(g[n])) == LeafSum(rest) + LeafSum(Children(g[n]))
    ensures SumCost(g, seen + {n}) == SumCost(g, seen) + NodeCost(g[n])
    ensures SumCost(g, seen) + NodeCost(g[n]) <= SumCost(g, ReachSet(g, root))
  {
    ExpandKeeps(g, root, seen, rest, n);
    SumCostAdd(g, seen, n);
    SumCostMonotone(g, seen + {n}, ReachSet(g, root));
    LeafSumConcat(rest, Children(g[n]));
  }

  // ---------- the estimate ----------

  /** What the loop has counted and what it still holds amount to the objects seen so far. */
  ghost predicate Balanced(g: Graph, root: Value, seen: set<nat>, pending: seq<Value>, bytes: nat) {
    seen <= g.Keys && bytes + LeafSum(pending) == LeafCost(root) + SumCost(g, seen)
  }

  /** Terminates on every finite heap, cyclic or shared: each turn visits a new object or shrinks the
      worklist. The result is the total when that is within the bound, else one more than the bound. */
  method EstimateReplayResultBytes(g: Graph, root: Value, stopAfterBytes: nat) returns (bytes: nat)
    requires WellFormed(g, root)
    ensures bytes == if Total(g, root) <= stopAfterBytes then Total(g, root) else stopAfterBytes + 1
  {
    var seen: set<nat>, pending := {}, [root];
    bytes := 0;
    if root.Object? { ReachRoot(g, root); }
    while |pending| > 0
      invariant Explored(g, root, seen, pending)
      invariant Balanced(g, root, seen, pending, bytes)
      invariant bytes <= stopAfterBytes
      decreases g.Keys - seen, |pending|
    {
      var value, rest := pending[|pending| - 1], pending[..|pending| - 1];
      assert pending == rest + [value];
      SeenCosts(g, root, seen, pending, bytes);
      if value.Object? && value.id !in seen {
        var gaveUp;
        gaveUp, bytes, pending := Visit(g, root, seen, rest, value.id, bytes, stopAfterBytes);
        if gaveUp {
          return stopAfterBytes + 1;
        }
        seen := seen + {value.id};
      } else {
        PopKeeps(g, root, seen, rest, value);
        pending := rest;
        bytes := bytes + (match value case Missing => 0 case Object(_) => 0 case Text(length) => length * 2 case _ => 8);
        if bytes > stopAfterBytes {
          return stopAfterBytes + 1;
        }
      }
    }
    ExploredAll(g, root, seen);
  }

  lemma SeenCosts(g: Graph, root: Value, seen: set<nat>, pending: seq<Value>, bytes: nat)
    requires Explored(g, root, seen, pending) && Balanced(g, root, seen, pending, bytes)
    ensures bytes + LeafSum(pending) <= Total(g, root)
  {
    SumCostMonotone(g, seen, ReachSet(g, root));
  }

  /** One object that was not seen before: its own cost is counted, its children are put on the worklist. */
  method Visit(g: Graph, ghost root: Value, ghost seen: set<nat>, rest: seq<Value>, n: nat, bytes: nat, stopAfterBytes: nat)
    returns (gaveUp: bool, after: nat, pending: seq<Value>)
    requires WellFormed(g, root) && n in g && n !in seen
    requires Explored(g, root, seen, rest + [Object(n)]) && Balanced(g, root, seen, rest + [Object(n)], bytes)
    ensures gaveUp ==> Total(g, root) > stopAfterBytes
    ensures !gaveUp ==> after <= stopAfterBytes && Explored(g, root, seen + {n}, pending)
    ensures !gaveUp ==> Balanced(g, root, seen + {n}, pending, after)
  {
    VisitCounts(g, root, seen, rest, n);
    LeafSumSnoc(rest, Object(n));
    var children;
    after, children := Expand(g[n], bytes, stopAfterBytes);
    gaveUp := after > stopAfterBytes;
    pending := rest + children;
    if !gaveUp { ExpandKeeps(g, root, seen, rest, n); }
  }

  /** Visits one object. It gives up as soon as the bound is passed, and then reports no more than the
      object costs. */
  method Expand(node: Node, bytes: nat, stopAfterBytes: nat) returns (after: nat, children: seq<Value>)
    ensures after <= stopAfterBytes ==> after == bytes + OwnCost(node) && children == Children(node)
    ensures after > stopAfterBytes ==> bytes + OwnCost(node) > stopAfterBytes
  {
    match node {
      case ArrayNode(items) =>
        after, children := bytes + 24 + |items| * 8, items;
      case RecordNode(fields) =>
        after, children := bytes + 32, [];
        var i := 0;
        while i < |fields|
          invariant i <= |fields|
          invariant after == bytes + 32 + KeySum(fields[..i])
          invariant |children| == i && forall j :: 0 <= j < i ==> children[j] == fields[j].value
        {
          KeySumPrefix(fields, i + 1);
          assert fields[..i + 1][..i] == fields[..i];
          after := after + 8 + fields[i].keyLength * 2;
          if after > stopAfterBytes {
            return;
          }
          children := children + [fields[i].value];
          i := i + 1;
        }
        assert fields[..i] == fields;
        assert children == FieldValues(fields);
    }
  }

  lemma {:induction false} KeySumPrefix(fields: seq<Field>, n: nat)
    requires n <= |fields|
    ensures KeySum(fields[..n]) <= KeySum(fields)
    decreases |fields|
  {
    if n < |fields| {
      assert fields[..|fields| - 1][..n] == fields[..n];
      KeySumPrefix(fields[..|fields| - 1], n);
    } else {
      assert fields[..n] == fields;
    }
  }
}
