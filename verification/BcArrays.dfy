// The arrays of bc (storage.c): trees of nodes with sixteen items each, which grow at
// the root.  Every element has a cell of its own, growing changes no value, and a copy
// has no node in common with the original.
module BcArrays {
  import opened BcStore

  const NODE_SIZE: nat := 16
  const NODE_DEPTH: nat := 4

  // The index without its h last digits in base sixteen.
  function Quot(i: nat, h: nat): nat
  {
    if h == 0 then i else Quot(i, h - 1) / NODE_SIZE
  }

  lemma QuotOne(i: nat)
    ensures Quot(i, 1) == i / NODE_SIZE
  {
    assert Quot(i, 0) == i;
  }

  // Four digits are enough for the largest subscript.
  lemma FourDigits(i: nat, h: nat)
    requires i <= BC_DIM_MAX && h >= NODE_DEPTH
    ensures Quot(i, h) == 0
  {
    if h == 4 {
      assert Quot(i, 0) == i && Quot(i, 1) <= 4095 && Quot(i, 2) <= 255 && Quot(i, 3) <= 15;
    } else {
      FourDigits(i, h - 1);
    }
  }

  // A node of some height holds the elements whose index has this quotient.
  class Node {
    var num: seq<Num>
    var down: seq<Node?>
    ghost const height: nat
    ghost const quot: nat

    constructor Leaf(values: seq<Num>, ghost q: nat)
      ensures height == 1 && quot == q && num == values && down == []
    {
      num, down, height, quot := values, [], 1, q;
    }

    constructor Inner(first: Node?, ghost h: nat, ghost q: nat)
      ensures height == h && quot == q && num == [] && down == seq(NODE_SIZE, _ => null)[0 := first]
    {
      num, down, height, quot := [], seq(NODE_SIZE, _ => null)[0 := first], h, q;
    }
  }

  // A place in the tree: a height and a quotient.
  datatype Place = Place(h: nat, q: nat)

  function Above(p: Place): Place
  {
    Place(p.h + 1, p.q / NODE_SIZE)
  }

  function Below(p: Place, k: nat): Place
    requires p.h > 0
  {
    Place(p.h - 1, p.q * NODE_SIZE + k)
  }

  function LeafOf(i: nat): Place
  {
    Place(1, i / NODE_SIZE)
  }

  type Places = map<Place, Node>

  // The item of node n at k is the node of the place below, if there is one.
  ghost predicate Linked(at: Places, p: Place, k: nat)
    requires p in at && p.h > 1
    reads at[p]
  {
    |at[p].down| == NODE_SIZE
    && (k < NODE_SIZE ==> at[p].down[k] == if Below(p, k) in at then at[Below(p, k)] else null)
  }

  // A node is as its place demands.
  ghost predicate Fitted(at: Places, p: Place)
    requires p in at
    reads at[p]
  {
    at[p].height == p.h && at[p].quot == p.q
    && if p.h == 1 then |at[p].num| == NODE_SIZE else p.h > 1 && forall k: nat :: Linked(at, p, k)
  }

  // The places of a tree: the root, and what hangs below it.
  ghost predicate Rooted(at: Places, depth: nat)
  {
    (depth > 0 ==> Place(depth, 0) in at)
    && forall p :: p in at ==> 1 <= p.h <= depth && (p.h == depth ==> p.q == 0) && (p.h < depth ==> Above(p) in at)
  }

  class Tree {
    const zero: Num
    var tree: Node?
    var depth: nat
    ghost var at: Places

    ghost predicate Valid()
      reads this, at.Values
    {
      depth <= NODE_DEPTH && (if depth == 0 then tree == null && at == map[]
        else Place(depth, 0) in at && tree == at[Place(depth, 0)])
      && Rooted(at, depth) && forall p :: p in at ==> Fitted(at, p)
    }

    // The value of an element; what has no node is zero.
    ghost function Value(i: nat): Num
      reads this, at.Values
    {
      if LeafOf(i) in at && |at[LeafOf(i)].num| == NODE_SIZE then at[LeafOf(i)].num[i % NODE_SIZE] else zero
    }

    constructor Of(z: Num, node: Node, levels: nat, ghost places: Places)
      ensures zero == z && tree == node && depth == levels && at == places
    {
      zero, tree, depth, at := z, node, levels, places;
    }

    constructor (z: Num)
      ensures Valid() && zero == z && forall i: nat :: Value(i) == zero
      ensures at == map[] && depth == 0
    {
      zero, tree, depth, at := z, null, 0, map[];
    }

    // The digits of the index, as many as the tree is deep, and more if they are needed.
    method DigitsOf(index: nat) returns (sub: array<nat>, log: nat)
      requires index <= BC_DIM_MAX && depth <= NODE_DEPTH
      ensures fresh(sub) && sub.Length == NODE_DEPTH && 1 <= log <= NODE_DEPTH && log >= depth && Quot(index, log) == 0
      ensures forall j :: 0 <= j < log ==> sub[j] == Quot(index, j) % NODE_SIZE
    {
      sub := new nat[NODE_DEPTH];
      sub[0] := index % NODE_SIZE;
      var ix := index / NODE_SIZE;
      log := 1;
      QuotOne(index);
      while ix > 0 || log < depth
        invariant 1 <= log <= NODE_DEPTH && ix == Quot(index, log)
        invariant forall j :: 0 <= j < log ==> sub[j] == Quot(index, j) % NODE_SIZE
        decreases NODE_DEPTH - log
      {
        if log >= NODE_DEPTH { FourDigits(index, log); }
        sub[log] := ix % NODE_SIZE;
        ix := ix / NODE_SIZE;
        log := log + 1;
      }
    }

    // One level more above the root.
    method Grow()
      requires Valid() && depth < NODE_DEPTH
      modifies this`tree, this`depth, this`at
      ensures Valid() && depth == old(depth) + 1 && fresh(at.Values - old(at.Values))
      ensures forall p :: p in old(at) ==> p in at && at[p] == old(at)[p]
      ensures forall i: nat :: Value(i) == old(Value(i))
    {
      hide Rooted, Fitted, Linked;
      ghost var was := at;
      var temp;
      if depth != 0 {
        temp := new Node.Inner(tree, depth + 1, 0);
      } else {
        temp := new Node.Leaf(seq(NODE_SIZE, _ => zero), 0);
      }
      tree := temp;
      depth := depth + 1;
      at := at[Place(depth, 0) := temp];
      GrownRooted(was, depth - 1, temp);
      GrownFitted(was, depth - 1, temp);
      OneValueMore(was, Place(depth, 0), temp);
    }

    // The node below, which is made if it is not there; log is its height.
    method Descend(temp: Node, k: nat, log: nat, ghost p: Place) returns (r: Node)
      requires Valid() && p in at && temp == at[p] && p.h == log + 1 && log >= 1 && k < NODE_SIZE
      modifies this`at, temp
      ensures Valid() && Below(p, k) in at && r == at[Below(p, k)] && fresh(at.Values - old(at.Values))
      ensures forall p :: p in old(at) ==> p in at && at[p] == old(at)[p]
      ensures forall i: nat :: Value(i) == old(Value(i))
    {
      hide Rooted;
      assert Fitted(at, p) && Linked(at, p, k);
      if temp.down[k] == null {
        ghost var was, b := at, Below(p, k);
        if log > 1 {
          r := new Node.Inner(null, log, b.q);
        } else {
          r := new Node.Leaf(seq(NODE_SIZE, _ => zero), b.q);
        }
        HungRooted(was, depth, p, k, r);
        ItemsOf(was, p);
        PlacesApart(was, p);
        ghost var items := temp.down;
        temp.down := temp.down[k := r];
        at := at[b := r];
        forall j: nat | j < NODE_SIZE && j != k ensures HasItem(was, p, temp.down, j) {
          assert HasItem(was, p, items, j);
        }
        HungFitted(was, depth, p, k, r);
        OneValueMore(was, b, r);
      } else {
        r := temp.down[k];
      }
    }

    // As many levels as the index has digits.
    method Deepen(log: nat)
      requires Valid() && depth <= log <= NODE_DEPTH
      modifies this`tree, this`depth, this`at
      ensures Valid() && depth == log && fresh(at.Values - old(at.Values))
      ensures forall p :: p in old(at) ==> p in at && at[p] == old(at)[p]
      ensures forall i: nat :: Value(i) == old(Value(i))
    {
      hide Rooted, Fitted;
      while log > depth
        invariant Valid() && depth <= log && fresh(at.Values - old(at.Values))
        invariant forall p :: p in old(at) ==> p in at && at[p] == old(at)[p]
        invariant forall i: nat :: Value(i) == old(Value(i))
        decreases log - depth
      {
        Grow();
      }
    }

    // get_array_num: the node and the item of an element.  What is made on the way
    // changes no value.
    method Locate(index: nat) returns (node: Node, k: nat)
      requires Valid() && index <= BC_DIM_MAX
      modifies this`tree, this`depth, this`at, at.Values
      ensures Valid() && fresh(at.Values - old(at.Values))
      ensures forall p :: p in old(at) ==> p in at && at[p] == old(at)[p]
      ensures LeafOf(index) in at && node == at[LeafOf(index)] && k == index % NODE_SIZE
      ensures forall i: nat :: Value(i) == old(Value(i))
    {
      hide Rooted, Fitted;
      var sub, log := DigitsOf(index);
      Deepen(log);
      node := Walk(index, sub, log);
      k := sub[0];
    }

    // From the root to the leaf.
    method Walk(index: nat, sub: array<nat>, log0: nat) returns (node: Node)
      requires Valid() && depth == log0 >= 1 && Quot(index, log0) == 0 && log0 <= sub.Length
      requires forall j :: 0 <= j < log0 ==> sub[j] == Quot(index, j) % NODE_SIZE
      modifies this`at, at.Values
      ensures Valid() && fresh(at.Values - old(at.Values))
      ensures forall p :: p in old(at) ==> p in at && at[p] == old(at)[p]
      ensures LeafOf(index) in at && node == at[LeafOf(index)]
      ensures forall i: nat :: Value(i) == old(Value(i))
    {
      hide Rooted, Fitted;
      node := tree;
      var log := log0;
      while log > 1
        invariant Valid() && 1 <= log <= log0 && fresh(at.Values - old(at.Values))
        invariant Place(log, Quot(index, log)) in at && node == at[Place(log, Quot(index, log))]
        invariant forall p :: p in old(at) ==> p in at && at[p] == old(at)[p]
        invariant forall i: nat :: Value(i) == old(Value(i))
        invariant forall j :: 0 <= j < log0 ==> sub[j] == Quot(index, j) % NODE_SIZE
        decreases log
      {
        log := log - 1;
        ghost var p := Place(log + 1, Quot(index, log + 1));
        assert Below(p, sub[log]) == Place(log, Quot(index, log));
        assert node in at.Values;
        node := Descend(node, sub[log], log, p);
      }
      QuotOne(index);
    }

    // The elements are those of the map, and zero elsewhere.
    ghost predicate Shows(m: map<int, Num>)
      reads this, at.Values
    {
      forall i: nat :: i <= BC_DIM_MAX ==> Value(i) == if i in m then m[i] else zero
    }

    // store_array
    method Put(index: nat, v: Num, ghost m: map<int, Num>)
      requires Valid() && index <= BC_DIM_MAX && Shows(m)
      modifies this`tree, this`depth, this`at, at.Values
      ensures Valid() && fresh(at.Values - old(at.Values)) && Shows(m[index := v])
      ensures forall i: nat :: Value(i) == if i == index then v else old(Value(i))
    {
      hide Rooted;
      var node, k := Locate(index);
      ghost var p := LeafOf(index);
      PlacesApart(at, p);
      assert Fitted(at, p);
      ghost var num := node.num;
      node.num := node.num[k := v];
      LeafWritten(p);
      forall i: nat ensures Value(i) == if i == index then v else old(Value(i)) {
        if LeafOf(i) == p && i % NODE_SIZE == k { SameIndex(i, index); }
      }
    }

    lemma SameIndex(i: nat, j: nat)
      requires i / NODE_SIZE == j / NODE_SIZE && i % NODE_SIZE == j % NODE_SIZE
      ensures i == j
    {
    }

    lemma LeafWritten(p: Place)
      requires p in at && p.h == 1 && |at[p].num| == NODE_SIZE && at[p].height == 1 && at[p].quot == p.q
      requires forall q :: q in at && q != p ==> Fitted(at, q)
      ensures forall q :: q in at ==> Fitted(at, q)
    {
    }

    // Different elements have different cells.
    lemma CellsDiffer(i: nat, j: nat)
      requires Valid() && LeafOf(i) in at && LeafOf(j) in at && i != j
      ensures at[LeafOf(i)] != at[LeafOf(j)] || i % NODE_SIZE != j % NODE_SIZE
    {
      assert Fitted(at, LeafOf(i)) && Fitted(at, LeafOf(j));
      if i % NODE_SIZE == j % NODE_SIZE && i / NODE_SIZE == j / NODE_SIZE { SameIndex(i, j); }
    }
  }

  // The node's items are those of the places below, but for the new one.
  ghost predicate HasItem(at: Places, p: Place, items: seq<Node?>, j: nat)
    requires p.h > 0
  {
    j < |items| && items[j] == if Below(p, j) in at then at[Below(p, j)] else null
  }

  lemma ItemsOf(at: Places, p: Place)
    requires p in at && p.h > 1 && Fitted(at, p)
    ensures |at[p].down| == NODE_SIZE && forall j: nat :: j < NODE_SIZE ==> HasItem(at, p, at[p].down, j)
  {
    forall j: nat | j < NODE_SIZE ensures HasItem(at, p, at[p].down, j) { assert Linked(at, p, j); }
    assert Linked(at, p, 0);
  }

  lemma HungFitted(was: Places, depth: nat, p: Place, k: nat, n: Node)
    requires Rooted(was, depth) && p in was && p.h > 1 && k < NODE_SIZE && Below(p, k) !in was
    requires was[p].height == p.h && was[p].quot == p.q && |was[p].down| == NODE_SIZE && was[p].down[k] == n
    requires forall j: nat :: j < NODE_SIZE && j != k ==> HasItem(was, p, was[p].down, j)
    requires forall q :: q in was && q != p ==> Fitted(was, q)
    requires n.height == p.h - 1 && n.quot == Below(p, k).q
    requires if p.h == 2 then |n.num| == NODE_SIZE else n.down == seq(NODE_SIZE, _ => null)[0 := null]
    ensures var at := was[Below(p, k) := n]; forall q :: q in at ==> Fitted(at, q)
  {
    var b := Below(p, k);
    var at := was[b := n];
    forall q | q in at ensures Fitted(at, q) {
      if q.h > 1 {
        forall j: nat ensures Linked(at, q, j) {
          if q == b {
            NothingBelow(was, depth, b, j);
          } else if q == p {
            if j < NODE_SIZE && j != k { assert HasItem(was, p, was[p].down, j); }
          } else {
            assert Linked(was, q, j);
          }
        }
      }
    }
  }

  // Below a place without node there is none.
  lemma NothingBelow(at: Places, depth: nat, b: Place, j: nat)
    requires Rooted(at, depth) && b !in at && 1 < b.h <= depth
    ensures j < NODE_SIZE ==> Below(b, j) !in at
  {
    assert j < NODE_SIZE ==> Above(Below(b, j)) == b;
  }

  lemma PlacesApart(at: Places, p: Place)
    requires p in at && forall q :: q in at ==> at[q].height == q.h && at[q].quot == q.q
    ensures forall q :: q in at && q != p ==> at[q] != at[p]
  {
  }

  lemma HungRooted(was: Places, depth: nat, p: Place, k: nat, n: Node)
    requires Rooted(was, depth) && p in was && p.h > 1 && k < NODE_SIZE
    ensures Rooted(was[Below(p, k) := n], depth)
  {
    var b := Below(p, k);
    assert Above(b) == p;
  }

  lemma OneValueMore(was: Places, p: Place, n: Node)
    requires p !in was
    ensures was[p := n].Values == was.Values + {n}
            && forall q :: q in was ==> q in was[p := n] && was[p := n][q] == was[q]
  {
    var at := was[p := n];
    forall x | x in was.Values ensures x in at.Values {
      var q :| q in was && was[q] == x;
      assert at[q] == x;
    }
    assert at[p] == n;
  }

  lemma GrownRooted(was: Places, depth: nat, temp: Node)
    requires Rooted(was, depth) && (depth == 0 ==> was == map[])
    ensures Rooted(was[Place(depth + 1, 0) := temp], depth + 1) && Place(depth + 1, 0) !in was
  {
    var at := was[Place(depth + 1, 0) := temp];
    forall p | p in at ensures 1 <= p.h <= depth + 1 && (p.h == depth + 1 ==> p.q == 0)
      && (p.h < depth + 1 ==> Above(p) in at) {
      if p in was && p.h == depth { assert Above(p) == Place(depth + 1, 0); }
    }
  }

  lemma GrownFitted(was: Places, depth: nat, temp: Node)
    requires Rooted(was, depth) && (forall p :: p in was ==> Fitted(was, p))
    requires temp.height == depth + 1 && temp.quot == 0
    requires if depth == 0 then was == map[] && |temp.num| == NODE_SIZE
             else Place(depth, 0) in was && temp.down == seq(NODE_SIZE, _ => null)[0 := was[Place(depth, 0)]]
    ensures var at := was[Place(depth + 1, 0) := temp]; forall p :: p in at ==> Fitted(at, p)
  {
    var top := Place(depth + 1, 0);
    var at := was[top := temp];
    forall p | p in at ensures Fitted(at, p) {
      if p == top {
        if depth > 0 {
          forall k: nat ensures Linked(at, p, k) {
            if 0 < k < NODE_SIZE { assert Below(p, k) !in was; }
          }
        }
      } else if p.h > 1 {
        forall k: nat ensures Linked(at, p, k) { assert Linked(was, p, k); }
      }
    }
  }

  // ---- Copies ---------------------------------------------------------------------------------

  // The place lies below p, or is p.
  predicate Under(q: Place, p: Place)
  {
    1 <= q.h <= p.h && Quot(q.q, p.h - q.h) == p.q
  }

  // Below which item of p it lies.
  function Branch(q: Place, p: Place): nat
    requires q.h < p.h
  {
    Quot(q.q, p.h - 1 - q.h) % NODE_SIZE
  }

  lemma {:induction false} QuotBelow(q: nat, j: nat, n: nat)
    requires j < NODE_SIZE
    ensures Quot(q * NODE_SIZE + j, n + 1) == Quot(q, n)
  {
    if n == 0 {
      assert Quot(q * NODE_SIZE + j, 0) == q * NODE_SIZE + j;
    } else {
      QuotBelow(q, j, n - 1);
    }
  }

  // The places below p are those below its items.
  lemma UnderBranch(q: Place, p: Place, k: nat)
    requires q.h < p.h && k < NODE_SIZE
    ensures Under(q, Below(p, k)) <==> Under(q, p) && Branch(q, p) == k
  {
  }

  lemma BelowUnder(q: Place, p: Place, j: nat)
    requires Under(q, p) && q.h > 1 && j < NODE_SIZE
    ensures Under(Below(q, j), p) && (q.h < p.h ==> Branch(Below(q, j), p) == Branch(q, p))
    ensures q == p ==> Branch(Below(q, j), p) == j
  {
    QuotBelow(q.q, j, p.h - q.h);
    if q.h < p.h { QuotBelow(q.q, j, p.h - 1 - q.h); }
    assert Quot(Below(q, j).q, 0) == Below(q, j).q;
  }

  // Where no node is, none is below.
  lemma {:induction false} NoneUnder(at: Places, depth: nat, b: Place, q: Place)
    requires Rooted(at, depth) && b.h <= depth && q in at && Under(q, b)
    ensures b in at
    decreases if b.h > q.h then b.h - q.h else 0
  {
    hide Under;
    if q.h < b.h {
      UnderAbove(q, b);
      NoneUnder(at, depth, b, Above(q));
    } else {
      UnderItself(q, b);
    }
  }

  lemma UnderItself(q: Place, b: Place)
    requires Under(q, b) && q.h >= b.h
    ensures q == b
  {
    assert Quot(q.q, 0) == q.q;
  }

  lemma UnderAbove(q: Place, b: Place)
    requires Under(q, b) && q.h < b.h
    ensures Under(Above(q), b)
  {
    AboveQuot(q.q, b.h - q.h);
  }

  lemma {:induction false} AboveQuot(q: nat, n: nat)
    requires n > 0
    ensures Quot(q / NODE_SIZE, n - 1) == Quot(q, n)
  {
    if n == 1 {
      assert Quot(q, 0) == q && Quot(q / NODE_SIZE, 0) == q / NODE_SIZE;
    } else {
      AboveQuot(q, n - 1);
    }
  }

  // Copies of nodes, in the same places.
  ghost predicate Alike(at: Places, to: Places)
    reads at.Values, to.Values
  {
    forall q :: q in to ==> q in at && Fitted(to, q) && (q.h == 1 ==> to[q].num == at[q].num)
  }

  // The nodes below p, or those below its first i items.
  ghost predicate CopyOf(at: Places, to: Places, p: Place)
  {
    forall q :: q in to <==> q in at && Under(q, p)
  }

  ghost predicate PartOf(at: Places, to: Places, p: Place, i: nat)
  {
    forall q :: q in to <==> q in at && q.h < p.h && Under(q, p) && Branch(q, p) < i
  }

  ghost predicate Filled(items: seq<Node?>, to: Places, p: Place, i: nat)
    requires p.h > 0
    ensures Filled(items, to, p, i) ==> |items| == NODE_SIZE
  {
    |items| == NODE_SIZE
    && forall j: nat :: j < NODE_SIZE ==> items[j] == if j < i && Below(p, j) in to then to[Below(p, j)] else null
  }

  lemma Merged(at: Places, to: Places, part: Places, p: Place, i: nat)
    requires p.h > 1 && i < NODE_SIZE && PartOf(at, to, p, i) && CopyOf(at, part, Below(p, i)) && Alike(at, to)
             && Alike(at, part)
    ensures PartOf(at, to + part, p, i + 1) && Alike(at, to + part)
    ensures forall q :: q in to ==> q !in part
  {
    var all := to + part;
    forall q ensures q in all <==> q in at && q.h < p.h && Under(q, p) && Branch(q, p) < i + 1 {
      if q.h < p.h { UnderBranch(q, p, i); }
    }
    forall q | q in to ensures q !in part { UnderBranch(q, p, i); }
    forall q | q in all ensures Fitted(all, q) {
      if q in part { UnderBranch(q, p, i); }
      if q.h > 1 {
        forall j: nat ensures Linked(all, q, j) {
          if j < NODE_SIZE {
            BelowUnder(q, p, j);
            UnderBranch(Below(q, j), p, i);
          }
          if q in part { assert Linked(part, q, j); } else { assert Linked(to, q, j); }
        }
      }
    }
  }

  lemma NothingThere(at: Places, to: Places, depth: nat, p: Place, i: nat)
    requires p.h > 1 && i < NODE_SIZE && p.h <= depth && PartOf(at, to, p, i) && Rooted(at, depth) && Below(p, i) !in at
    ensures PartOf(at, to, p, i + 1)
  {
    forall q | q in at && q.h < p.h && Under(q, p) ensures Branch(q, p) != i {
      UnderBranch(q, p, i);
      if Branch(q, p) == i { NoneUnder(at, depth, Below(p, i), q); }
    }
  }

  lemma Topped(at: Places, to: Places, p: Place, res: Node)
    requires p.h > 1 && p in at && PartOf(at, to, p, NODE_SIZE) && Alike(at, to) && Filled(res.down, to, p, NODE_SIZE)
    requires res.height == p.h && res.quot == p.q
    ensures CopyOf(at, to[p := res], p) && Alike(at, to[p := res])
  {
    var all := to[p := res];
    forall q ensures q in all <==> q in at && Under(q, p) {
      assert Quot(p.q, 0) == p.q;
      if q.h == p.h && Under(q, p) { assert Quot(q.q, 0) == q.q; }
    }
    forall q | q in all ensures Fitted(all, q) {
      if q.h > 1 {
        forall j: nat ensures Linked(all, q, j) {
          if q != p {
            assert Linked(to, q, j);
            if j < NODE_SIZE { assert Below(q, j) != p; }
          }
        }
      }
    }
  }

  lemma HeightsWithin(at: Places, depth: nat, p: Place)
    requires Rooted(at, depth) && p in at
    ensures 1 <= p.h <= depth
  {
  }

  lemma ItemsFitted(at: Places, p: Place)
    requires p in at && p.h > 1 && Fitted(at, p)
    ensures |at[p].down| == NODE_SIZE && forall j: nat :: j < NODE_SIZE ==> HasItem(at, p, at[p].down, j)
  {
    ItemsOf(at, p);
  }

  lemma NothingYet(at: Places, p: Place, items: seq<Node?>)
    requires p.h > 0 && items == seq(NODE_SIZE, _ => null)[0 := null]
    ensures PartOf(at, map[], p, 0) && Alike(at, map[]) && Filled(items, map[], p, 0)
  {
  }

  // The places of one item do not change those of the others.
  lemma MergedItems(at: Places, to: Places, part: Places, p: Place, i: nat, items: seq<Node?>, c: Node)
    requires p.h > 1 && i < NODE_SIZE && PartOf(at, to, p, i) && CopyOf(at, part, Below(p, i))
             && Filled(items, to, p, i)
    requires Below(p, i) in part && c == part[Below(p, i)]
    ensures Filled(items[i := c], to + part, p, i + 1)
  {
    forall j: nat | j < NODE_SIZE && j != i ensures Below(p, j) !in part {
      UnderBranch(Below(p, j), p, i);
      assert Quot(Below(p, j).q, 0) == Below(p, j).q;
    }
  }

  lemma NoItem(at: Places, to: Places, p: Place, i: nat, items: seq<Node?>)
    requires p.h > 1 && i < NODE_SIZE && PartOf(at, to, p, i) && Below(p, i) !in at && Filled(items, to, p, i)
    ensures Filled(items, to, p, i + 1)
  {
  }

  lemma ValuesOfBoth(to: Places, part: Places)
    ensures (to + part).Values <= to.Values + part.Values
  {
  }

  lemma ValuesOfOneMore(to: Places, p: Place, n: Node)
    ensures to[p := n].Values <= to.Values + {n}
  {
  }

  // copy_tree
  method CopyTree(n: Node, depth: nat, ghost at: Places, ghost all: nat, ghost p: Place)
    returns (r: Node, ghost to: Places)
    requires Rooted(at, all) && (forall q :: q in at ==> Fitted(at, q)) && p in at && n == at[p] && p.h == depth
    ensures fresh(to.Values) && CopyOf(at, to, p) && Alike(at, to) && p in to && r == to[p]
    decreases depth, 2
  {
    hide Rooted, Under, Branch;
    assert Fitted(at, p);
    if depth > 1 {
      r, to := CopyInner(n, depth, at, all, p);
    } else {
      var num, i := [], 0;
      while i < NODE_SIZE
        invariant 0 <= i <= NODE_SIZE && num == n.num[..i]
      {
        num := num + [n.num[i]];
        i := i + 1;
      }
      r := new Node.Leaf(num, p.q);
      to := map[p := r];
      LeafAlone(p);
    }
  }

  lemma LeafAlone(p: Place)
    requires p.h == 1
    ensures forall q :: Under(q, p) <==> q == p
  {
    forall q: Place | q.h == 1 ensures Under(q, p) <==> q == p { assert Quot(q.q, 0) == q.q; }
  }

  // One turn of the loop over the items.
  method CopyItem(n: Node, depth: nat, ghost at: Places, ghost all: nat, ghost p: Place, i: nat, r: Node,
      ghost to: Places)
    returns (ghost to': Places)
    requires Rooted(at, all) && (forall q :: q in at ==> Fitted(at, q)) && p in at && n == at[p] && p.h == depth > 1
    requires depth <= all && |n.down| == NODE_SIZE && i < NODE_SIZE && HasItem(at, p, n.down, i)
    requires PartOf(at, to, p, i) && Alike(at, to) && Filled(r.down, to, p, i) && r !in at.Values && r !in to.Values
    modifies r`down
    ensures PartOf(at, to', p, i + 1) && Alike(at, to') && Filled(r.down, to', p, i + 1)
    ensures fresh(to'.Values - to.Values) && r !in to'.Values
    decreases depth, 0
  {
    hide Rooted, Under, Branch, PartOf, CopyOf, Alike, Fitted, Filled;
    if n.down[i] != null {
      var c;
      ghost var part;
      c, part := CopyTree(n.down[i], depth - 1, at, all, Below(p, i));
      Merged(at, to, part, p, i);
      MergedItems(at, to, part, p, i, r.down, c);
      ValuesOfBoth(to, part);
      to' := to + part;
      r.down := r.down[i := c];
    } else {
      NothingThere(at, to, all, p, i);
      NoItem(at, to, p, i, r.down);
      to' := to;
    }
  }

  method CopyInner(n: Node, depth: nat, ghost at: Places, ghost all: nat, ghost p: Place)
    returns (r: Node, ghost to: Places)
    requires Rooted(at, all) && (forall q :: q in at ==> Fitted(at, q)) && p in at && n == at[p] && p.h == depth > 1
    ensures fresh(r) && fresh(to.Values) && CopyOf(at, to, p) && Alike(at, to) && p in to && r == to[p]
    decreases depth, 1
  {
    hide Rooted, Under, Branch, PartOf, CopyOf, Alike, Fitted, Filled;
    HeightsWithin(at, all, p);
    ItemsFitted(at, p);
    r := new Node.Inner(null, depth, p.q);
    to := map[];
    NothingYet(at, p, r.down);
    var i := 0;
    while i < NODE_SIZE
      invariant 0 <= i <= NODE_SIZE && PartOf(at, to, p, i) && Alike(at, to) && Filled(r.down, to, p, i)
      invariant fresh(to.Values) && r !in to.Values
      modifies r
    {
      to := CopyItem(n, depth, at, all, p, i, r, to);
      i := i + 1;
    }
    Topped(at, to, p, r);
    ValuesOfOneMore(to, p, r);
    to := to[p := r];
  }

  // The whole tree hangs below its root.
  lemma {:induction false} AllUnder(at: Places, depth: nat, q: Place)
    requires Rooted(at, depth) && q in at
    ensures Under(q, Place(depth, 0))
    decreases if depth > q.h then depth - q.h else 0
  {
    if q.h < depth {
      AllUnder(at, depth, Above(q));
      AboveQuot(q.q, depth - q.h);
    } else {
      assert Quot(q.q, 0) == q.q;
    }
  }

  lemma CopyRooted(at: Places, to: Places, depth: nat)
    requires Rooted(at, depth) && CopyOf(at, to, Place(depth, 0))
    ensures to.Keys == at.Keys && Rooted(to, depth)
  {
    hide Under;
    forall q | q in at ensures q in to { AllUnder(at, depth, q); }
  }

  // copy_array: the same values, and no node in common.
  method CopyArray(a: Tree) returns (r: Tree)
    requires a.Valid() && a.depth > 0
    ensures fresh(r) && fresh(r.at.Values) && r.Valid() && r.zero == a.zero
    ensures forall i: nat :: r.Value(i) == a.Value(i)
    ensures forall m :: a.Shows(m) ==> r.Shows(m)
  {
    hide Rooted, CopyOf;
    ghost var root := Place(a.depth, 0);
    var node;
    ghost var to;
    node, to := CopyTree(a.tree, a.depth, a.at, a.depth, root);
    CopyRooted(a.at, to, a.depth);
    r := new Tree.Of(a.zero, node, a.depth, to);
    forall i: nat ensures r.Value(i) == a.Value(i) {
      if LeafOf(i) in to { assert Fitted(to, LeafOf(i)) && Fitted(a.at, LeafOf(i)); }
    }
  }
}
