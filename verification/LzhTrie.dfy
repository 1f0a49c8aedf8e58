// The decoding table of LZH (unlzh.c): a direct table on the first bits of a code, and
// trees of nodes for the codes that are longer.  Zero stands for an empty cell and for
// symbol zero as well; here is why the two are never confused.
module LzhTrie {
  import opened Powers
  import opened Canonical

  // ---- Cells ----------------------------------------------------------------------------------

  // The first len bits of codes.
  datatype Prefix = Prefix(len: nat, bits: nat)

  datatype Cell = InTable(i: nat) | InLeft(n: nat) | InRight(n: nat)

  datatype Cells = Cells(table: seq<nat>, left: seq<nat>, right: seq<nat>)

  predicate InCells(c: Cells, at: Cell)
  {
    match at
    case InTable(i) => i < |c.table|
    case InLeft(n) => n < |c.left|
    case InRight(n) => n < |c.right|
  }

  function Get(c: Cells, at: Cell): nat
    requires InCells(c, at)
  {
    match at
    case InTable(i) => c.table[i]
    case InLeft(n) => c.left[n]
    case InRight(n) => c.right[n]
  }

  function Set(c: Cells, at: Cell, v: nat): Cells
    requires InCells(c, at)
  {
    match at
    case InTable(i) => c.(table := c.table[i := v])
    case InLeft(n) => c.(left := c.left[n := v])
    case InRight(n) => c.(right := c.right[n := v])
  }

  lemma SetGet(c: Cells, at: Cell, v: nat, b: Cell)
    requires InCells(c, at) && InCells(c, b)
    ensures InCells(Set(c, at, v), b) && Get(Set(c, at, v), b) == if b == at then v else Get(c, b)
  {
  }

  lemma SetSizes(c: Cells, at: Cell, v: nat)
    requires InCells(c, at)
    ensures var c' := Set(c, at, v); |c'.table| == |c.table| && |c'.left| == |c.left| && |c'.right| == |c.right|
  {
  }

  // ---- Prefixes -------------------------------------------------------------------------------

  function Up(p: Prefix): Prefix
    requires p.len > 0
  {
    Prefix(p.len - 1, p.bits / 2)
  }

  type Nodes = map<Prefix, nat>

  // A prefix has a cell if it is in the table, or if there is a node above it.
  predicate HasCell(nodes: Nodes, tb: nat, p: Prefix)
  {
    (p.len == tb && p.bits < Pow2(tb)) || (p.len > tb && Up(p) in nodes)
  }

  function Where(nodes: Nodes, tb: nat, p: Prefix): Cell
    requires HasCell(nodes, tb, p)
  {
    if p.len == tb then InTable(p.bits)
    else if p.bits % 2 == 1 then InRight(nodes[Up(p)])
    else InLeft(nodes[Up(p)])
  }

  predicate Injective(nodes: Nodes)
  {
    forall p, q :: p in nodes && q in nodes && nodes[p] == nodes[q] ==> p == q
  }

  lemma WhereDiffers(nodes: Nodes, tb: nat, p: Prefix, q: Prefix)
    requires HasCell(nodes, tb, p) && HasCell(nodes, tb, q) && Injective(nodes) && p != q
    ensures Where(nodes, tb, p) != Where(nodes, tb, q)
  {
    if p.len > tb && q.len > tb && Up(p) == Up(q) {
      assert p.bits == 2 * (p.bits / 2) + p.bits % 2 && q.bits == 2 * (q.bits / 2) + q.bits % 2;
    }
  }

  // ---- Symbols --------------------------------------------------------------------------------

  // The first number with this prefix.
  function First(M: nat, p: Prefix): nat
    requires p.len <= M
  {
    p.bits * Pow2(M - p.len)
  }

  // The code of a goes on behind this prefix.
  ghost predicate Through(lens: seq<nat>, M: nat, a: nat, p: Prefix)
    requires LengthsFit(lens, M)
  {
    a < |lens| && p.len < lens[a] && Shr(BlockStart(lens, M, a), M - p.len) == p.bits
  }

  // The cell is that of symbol a.
  ghost predicate Covers(lens: seq<nat>, M: nat, tb: nat, a: nat, p: Prefix)
    requires LengthsFit(lens, M)
  {
    a < |lens| && p.len <= M && (if p.len == tb then lens[a] <= tb else lens[a] == p.len)
      && Owns(lens, M, a, First(M, p))
  }

  // A number with this prefix is in the block.
  lemma InPrefix(M: nat, p: Prefix, w: nat)
    requires p.len <= M
    ensures Shr(w, M - p.len) == p.bits <==> First(M, p) <= w < First(M, p) + Pow2(M - p.len)
  {
    var d := M - p.len;
    Split(w, d);
    if First(M, p) <= w < First(M, p) + Pow2(d) {
      SplitUnique(w, d, p.bits, w - First(M, p));
    }
  }

  // The block of a symbol is the set of numbers with its code as a prefix.
  lemma BlockIsPrefix(lens: seq<nat>, M: nat, a: nat, w: nat)
    requires LengthsFit(lens, M) && a < |lens| && lens[a] > 0
    ensures Owns(lens, M, a, w) <==> Shr(w, M - lens[a]) == Shr(BlockStart(lens, M, a), M - lens[a])
  {
    hide Pow2, Shr, Start;
    var s, d := BlockStart(lens, M, a), M - lens[a];
    var p := Prefix(lens[a], Shr(s, d));
    StartAligned(lens, M, lens[a], a);
    Split(s, d);
    InPrefix(M, p, w);
  }

  // A shorter prefix is a prefix of the longer one.
  lemma ShorterPrefix(w: nat, v: nat, a: nat, b: nat)
    requires a <= b && Shr(w, a) == Shr(v, a)
    ensures Shr(w, b) == Shr(v, b)
  {
    ShrShr(w, a, b - a);
    ShrShr(v, a, b - a);
  }

  lemma FirstHasPrefix(M: nat, p: Prefix)
    requires p.len <= M
    ensures Shr(First(M, p), M - p.len) == p.bits
  {
    InPrefix(M, p, First(M, p));
  }

  // Who covers a prefix is no longer than it, and its code is a prefix of it.
  lemma CoverIs(lens: seq<nat>, M: nat, tb: nat, a: nat, p: Prefix, w: nat)
    requires LengthsFit(lens, M) && Covers(lens, M, tb, a, p) && Shr(w, M - p.len) == p.bits && tb <= p.len
    ensures 0 < lens[a] <= p.len && Owns(lens, M, a, w)
  {
    hide Pow2, Shr, Start;
    BlockIsPrefix(lens, M, a, First(M, p));
    BlockIsPrefix(lens, M, a, w);
    FirstHasPrefix(M, p);
    ShorterPrefix(w, First(M, p), M - p.len, M - lens[a]);
  }

  // Where a code goes through, no symbol is.
  lemma NotThroughLeaf(lens: seq<nat>, M: nat, tb: nat, a: nat, b: nat, p: Prefix)
    requires LengthsFit(lens, M) && Through(lens, M, b, p) && tb <= p.len
    ensures !Covers(lens, M, tb, a, p)
  {
    hide Pow2, Shr, Start;
    if Covers(lens, M, tb, a, p) {
      var s := BlockStart(lens, M, b);
      CoverIs(lens, M, tb, a, p, s);
      BlockIsPrefix(lens, M, b, s);
      OwnerUnique(lens, M, a, b, s);
    }
  }

  lemma OneCovers(lens: seq<nat>, M: nat, tb: nat, a: nat, b: nat, p: Prefix)
    requires LengthsFit(lens, M) && Covers(lens, M, tb, b, p) && a != b
    ensures !Covers(lens, M, tb, a, p)
  {
    if Covers(lens, M, tb, a, p) { OwnerUnique(lens, M, a, b, First(M, p)); }
  }

  // ---- The table while it is built --------------------------------------------------------------

  // The lengths of the codes, the width of numbers, and that of the table.
  datatype Setting = Setting(lens: seq<nat>, M: nat, tb: nat)

  predicate Sound(k: Setting)
  {
    LengthsFit(k.lens, k.M) && 0 < k.tb < k.M && |k.lens| > 0
  }

  // A node is at a prefix of a code, and at a cell.
  ghost predicate NodeOK(k: Setting, nodes: Nodes, avail: nat, thru: nat, p: Prefix)
    requires Sound(k) && p in nodes
  {
    k.tb <= p.len < k.M && |k.lens| <= nodes[p] < avail && HasCell(nodes, k.tb, p)
    && exists a :: 0 <= a < thru && Through(k.lens, k.M, a, p)
  }

  // The first bits of the code of a.
  function PrefixOf(k: Setting, a: nat, l: nat): Prefix
    requires Sound(k) && a < |k.lens| && l <= k.M
  {
    Prefix(l, Shr(BlockStart(k.lens, k.M, a), k.M - l))
  }

  // All prefixes of the code of a that are as long as the table is wide, or longer, but
  // shorter than to, have nodes.
  ghost predicate PathOK(k: Setting, nodes: Nodes, a: nat, to: nat)
    requires Sound(k)
  {
    a < |k.lens| && forall l: nat :: k.tb <= l < to && l <= k.M ==> PrefixOf(k, a, l) in nodes
  }

  // A cell holds its node, its symbol, or zero; in the part of the table below bound,
  // which belongs to short codes, anything until the symbol is there.
  ghost predicate CellOK(k: Setting, bound: nat, c: Cells, nodes: Nodes, m: nat, p: Prefix)
    requires Sound(k) && HasCell(nodes, k.tb, p)
  {
    var at := Where(nodes, k.tb, p);
    InCells(c, at)
    && (p in nodes ==> Get(c, at) == nodes[p])
    && (forall a :: 0 <= a < m && Covers(k.lens, k.M, k.tb, a, p) ==> Get(c, at) == a)
    && (p !in nodes && (p.len > k.tb || p.bits >= bound) && Get(c, at) != 0 ==>
          exists a :: 0 <= a < m && Covers(k.lens, k.M, k.tb, a, p))
  }

  // The first m symbols have their cells; thru of them may have nodes.
  ghost predicate Built(k: Setting, bound: nat, c: Cells, nodes: Nodes, avail: nat, m: nat, thru: nat)
  {
    Sound(k) && m <= thru <= |k.lens| && |c.table| == Pow2(k.tb) && |k.lens| <= avail <= |c.left|
      && |c.left| == |c.right|
    && Injective(nodes) && (forall p :: p in nodes ==> NodeOK(k, nodes, avail, thru, p))
    && (forall a :: 0 <= a < m ==> PathOK(k, nodes, a, k.lens[a]))
    && (forall p :: HasCell(nodes, k.tb, p) ==> CellOK(k, bound, c, nodes, m, p))
  }

  lemma NothingBuilt(k: Setting, bound: nat, c: Cells)
    requires Sound(k) && |c.table| == Pow2(k.tb) && |k.lens| <= |c.left| == |c.right|
    requires forall i :: bound <= i < |c.table| ==> c.table[i] == 0
    ensures Built(k, bound, c, map[], |k.lens|, 0, 0)
  {
  }

  lemma MayPass(k: Setting, bound: nat, c: Cells, nodes: Nodes, avail: nat, m: nat)
    requires Built(k, bound, c, nodes, avail, m, m) && m < |k.lens|
    ensures Built(k, bound, c, nodes, avail, m, m + 1)
  {
    hide Through, Injective, HasCell, CellOK, PathOK;
    forall p | p in nodes ensures NodeOK(k, nodes, avail, m + 1, p) {
      assert NodeOK(k, nodes, avail, m, p);
      var a :| 0 <= a < m && Through(k.lens, k.M, a, p);
    }
  }

  // ---- A node more ------------------------------------------------------------------------------

  // The cell of a code that is on its way is empty or leads to a node, never to a symbol.
  lemma OnTheWay(k: Setting, bound: nat, c: Cells, nodes: Nodes, avail: nat, m: nat, q: Prefix)
    requires Built(k, bound, c, nodes, avail, m, m + 1) && HasCell(nodes, k.tb, q) && Through(k.lens, k.M, m, q)
             && k.tb <= q.len
    requires q.len > k.tb || q.bits >= bound
    ensures CellOK(k, bound, c, nodes, m, q)
    ensures Get(c, Where(nodes, k.tb, q)) == if q in nodes then nodes[q] else 0
  {
    hide HasCell, Through, Covers, Where, Get, Injective, PathOK;
    assert CellOK(k, bound, c, nodes, m, q);
    forall a | 0 <= a < m ensures !Covers(k.lens, k.M, k.tb, a, q) { NotThroughLeaf(k.lens, k.M, k.tb, a, m, q); }
  }

  function NewNode(c: Cells, avail: nat, at: Cell): Cells
    requires avail < |c.left| == |c.right| && InCells(c, at)
  {
    Set(c.(left := c.left[avail := 0], right := c.right[avail := 0]), at, avail)
  }

  lemma NodeMade(k: Setting, bound: nat, c: Cells, nodes: Nodes, avail: nat, m: nat, q: Prefix)
    requires Built(k, bound, c, nodes, avail, m, m + 1) && HasCell(nodes, k.tb, q) && Through(k.lens, k.M, m, q)
    requires k.tb <= q.len < k.M && q !in nodes && avail < |c.left| && InCells(c, Where(nodes, k.tb, q))
    ensures Built(k, bound, NewNode(c, avail, Where(nodes, k.tb, q)), nodes[q := avail], avail + 1, m, m + 1)
  {
    var nodes' := nodes[q := avail];
    var at := Where(nodes, k.tb, q);
    var c' := NewNode(c, avail, at);
    NodesMore(k, nodes, avail, m, q);
    forall a | 0 <= a < m ensures PathOK(k, nodes', a, k.lens[a]) { assert PathOK(k, nodes, a, k.lens[a]); }
    forall p | HasCell(nodes', k.tb, p) ensures CellOK(k, bound, c', nodes', m, p) {
      if p.len > k.tb && Up(p) == q {
        NewCellOK(k, bound, c, nodes, avail, m, q, p);
      } else {
        OldCellOK(k, bound, c, nodes, avail, m, q, p);
      }
    }
  }

  lemma NodesMore(k: Setting, nodes: Nodes, avail: nat, m: nat, q: Prefix)
    requires Sound(k) && Injective(nodes) && (forall p :: p in nodes ==> NodeOK(k, nodes, avail, m + 1, p))
             && m < |k.lens|
    requires HasCell(nodes, k.tb, q) && Through(k.lens, k.M, m, q) && k.tb <= q.len < k.M && q !in nodes
             && |k.lens| <= avail
    ensures var nodes' := nodes[q := avail];
            Injective(nodes') && forall p :: p in nodes' ==> NodeOK(k, nodes', avail + 1, m + 1, p)
  {
    hide Through;
    var nodes' := nodes[q := avail];
    forall p | p in nodes ensures nodes[p] < avail { assert NodeOK(k, nodes, avail, m + 1, p); }
    forall p | p in nodes' ensures NodeOK(k, nodes', avail + 1, m + 1, p) {
      if p != q { assert NodeOK(k, nodes, avail, m + 1, p); }
    }
  }

  // The cells of the new node are empty, and belong to nobody.
  lemma NewCellOK(k: Setting, bound: nat, c: Cells, nodes: Nodes, avail: nat, m: nat, q: Prefix, p: Prefix)
    requires Built(k, bound, c, nodes, avail, m, m + 1) && HasCell(nodes, k.tb, q) && k.tb <= q.len < k.M && q !in nodes
    requires avail < |c.left| && InCells(c, Where(nodes, k.tb, q)) && p.len > k.tb && Up(p) == q
    ensures CellOK(k, bound, NewNode(c, avail, Where(nodes, k.tb, q)), nodes[q := avail], m, p)
  {
    var nodes' := nodes[q := avail];
    var at := Where(nodes, k.tb, q);
    NotNodeBelow(k, nodes, avail, m + 1, q, p);
    OldWhere(k, nodes, avail, m + 1, q);
    SetGet(c.(left := c.left[avail := 0], right := c.right[avail := 0]), at, avail, Where(nodes', k.tb, p));
    forall a | 0 <= a < m ensures !Covers(k.lens, k.M, k.tb, a, p) {
      assert PathOK(k, nodes, a, k.lens[a]);
      NobodyBelow(k, nodes, a, q, p);
    }
  }

  lemma NobodyBelow(k: Setting, nodes: Nodes, a: nat, q: Prefix, p: Prefix)
    requires Sound(k) && a < |k.lens| && PathOK(k, nodes, a, k.lens[a]) && k.tb <= q.len && q !in nodes && p.len > k.tb
             && Up(p) == q
    ensures !Covers(k.lens, k.M, k.tb, a, p)
  {
    if k.lens[a] == p.len { assert PrefixOf(k, a, q.len) in nodes; }
    if Covers(k.lens, k.M, k.tb, a, p) { CoverBelow(k.lens, k.M, k.tb, a, p); }
  }

  // The prefix before the last bit of a code is a prefix of the code.
  lemma CoverBelow(lens: seq<nat>, M: nat, tb: nat, a: nat, p: Prefix)
    requires LengthsFit(lens, M) && Covers(lens, M, tb, a, p) && p.len > tb
    ensures Shr(BlockStart(lens, M, a), M - (p.len - 1)) == Up(p).bits && lens[a] == p.len
  {
    hide Pow2, Start;
    var s := BlockStart(lens, M, a);
    BlockIsPrefix(lens, M, a, First(M, p));
    FirstHasPrefix(M, p);
    ShrShr(s, M - p.len, 1);
  }

  lemma NotNodeBelow(k: Setting, nodes: Nodes, avail: nat, thru: nat, q: Prefix, p: Prefix)
    requires Sound(k) && (forall r :: r in nodes ==> NodeOK(k, nodes, avail, thru, r)) && q !in nodes && p.len > k.tb
             && Up(p) == q
    ensures p !in nodes
  {
    hide Through;
    assert p in nodes ==> NodeOK(k, nodes, avail, thru, p);
  }

  // The cell is not one of the new node.
  lemma OldWhere(k: Setting, nodes: Nodes, avail: nat, thru: nat, p: Prefix)
    requires Sound(k) && (forall r :: r in nodes ==> NodeOK(k, nodes, avail, thru, r)) && HasCell(nodes, k.tb, p)
    ensures Where(nodes, k.tb, p) != InLeft(avail) && Where(nodes, k.tb, p) != InRight(avail)
  {
    hide Through;
    if p.len > k.tb { assert NodeOK(k, nodes, avail, thru, Up(p)); }
  }

  // The other cells are as before.
  lemma OldCellOK(k: Setting, bound: nat, c: Cells, nodes: Nodes, avail: nat, m: nat, q: Prefix, p: Prefix)
    requires Built(k, bound, c, nodes, avail, m, m + 1) && HasCell(nodes, k.tb, q) && Through(k.lens, k.M, m, q)
    requires k.tb <= q.len < k.M && q !in nodes && avail < |c.left| && InCells(c, Where(nodes, k.tb, q))
    requires HasCell(nodes, k.tb, p) && (p.len == k.tb || Up(p) != q)
    ensures CellOK(k, bound, NewNode(c, avail, Where(nodes, k.tb, q)), nodes[q := avail], m, p)
  {
    hide Covers, Through;
    var nodes' := nodes[q := avail];
    var at := Where(nodes, k.tb, q);
    var b := Where(nodes, k.tb, p);
    var c0 := c.(left := c.left[avail := 0], right := c.right[avail := 0]);
    assert CellOK(k, bound, c, nodes, m, p) && Where(nodes', k.tb, p) == b;
    OldWhere(k, nodes, avail, m + 1, p);
    SetGet(c0, at, avail, b);
    if p == q {
      forall a | 0 <= a < m ensures !Covers(k.lens, k.M, k.tb, a, p) { NotThroughLeaf(k.lens, k.M, k.tb, a, m, q); }
    } else {
      WhereDiffers(nodes, k.tb, p, q);
    }
  }

  // ---- A symbol more ----------------------------------------------------------------------------

  // At the end of the code there is no node.
  lemma EndIsNoNode(k: Setting, bound: nat, c: Cells, nodes: Nodes, avail: nat, m: nat, q: Prefix)
    requires Built(k, bound, c, nodes, avail, m, m + 1) && k.tb <= q.len && Covers(k.lens, k.M, k.tb, m, q)
    ensures q !in nodes
  {
    hide Covers, Through, Injective, HasCell, CellOK, PathOK;
    if q in nodes {
      assert NodeOK(k, nodes, avail, m + 1, q);
      var a :| 0 <= a < m + 1 && Through(k.lens, k.M, a, q);
      NotThroughLeaf(k.lens, k.M, k.tb, m, a, q);
    }
  }

  lemma CellOf(k: Setting, bound: nat, c: Cells, nodes: Nodes, avail: nat, m: nat, thru: nat, p: Prefix)
    requires Built(k, bound, c, nodes, avail, m, thru) && HasCell(nodes, k.tb, p)
    ensures CellOK(k, bound, c, nodes, m, p) && InCells(c, Where(nodes, k.tb, p))
  {
    hide NodeOK, PathOK, Injective, Covers;
  }

  // The symbol is written into its cell.
  lemma WrittenCell(k: Setting, bound: nat, c: Cells, nodes: Nodes, m: nat, q: Prefix, p: Prefix)
    requires Sound(k) && m < |k.lens| && HasCell(nodes, k.tb, q) && HasCell(nodes, k.tb, p) && Injective(nodes)
    requires CellOK(k, bound, c, nodes, m, p) && InCells(c, Where(nodes, k.tb, q)) && q !in nodes
    requires Covers(k.lens, k.M, k.tb, m, p) <==> p == q
    ensures CellOK(k, bound, Set(c, Where(nodes, k.tb, q), m), nodes, m + 1, p)
  {
    hide Covers, HasCell, Where, Injective, Get, Set, InCells;
    SetGet(c, Where(nodes, k.tb, q), m, Where(nodes, k.tb, p));
    if p == q {
      forall a | 0 <= a < m ensures !Covers(k.lens, k.M, k.tb, a, p) { OneCovers(k.lens, k.M, k.tb, a, m, p); }
    } else {
      WhereDiffers(nodes, k.tb, p, q);
    }
  }

  // The code of symbol m is longer than the table is wide; its nodes are there.
  lemma LongSymbol(k: Setting, bound: nat, c: Cells, nodes: Nodes, avail: nat, m: nat)
    requires Built(k, bound, c, nodes, avail, m, m + 1) && k.lens[m] > k.tb && PathOK(k, nodes, m, k.lens[m])
    ensures var q := PrefixOf(k, m, k.lens[m]);
            HasCell(nodes, k.tb, q) && InCells(c, Where(nodes, k.tb, q))
            && Built(k, bound, Set(c, Where(nodes, k.tb, q), m), nodes, avail, m + 1, m + 1)
  {
    hide Covers, NodeOK, PathOK, CellOK, Injective, HasCell, Where, InCells, Get, PrefixOf;
    var q := PrefixOf(k, m, k.lens[m]);
    EndCell(k, nodes, m);
    EndIsNoNode(k, bound, c, nodes, avail, m, q);
    CellOf(k, bound, c, nodes, avail, m, m + 1, q);
    var c' := Set(c, Where(nodes, k.tb, q), m);
    SetSizes(c, Where(nodes, k.tb, q), m);
    forall p | HasCell(nodes, k.tb, p) ensures CellOK(k, bound, c', nodes, m + 1, p) {
      CellOf(k, bound, c, nodes, avail, m, m + 1, p);
      if p != q { OneEnd(k, nodes, m, p); }
      WrittenCell(k, bound, c, nodes, m, q, p);
    }
  }

  lemma EndCell(k: Setting, nodes: Nodes, m: nat)
    requires Sound(k) && m < |k.lens| && k.lens[m] > k.tb && PathOK(k, nodes, m, k.lens[m])
    ensures var q := PrefixOf(k, m, k.lens[m]);
            q.len == k.lens[m] && HasCell(nodes, k.tb, q)
            && Covers(k.lens, k.M, k.tb, m, q)
  {
    hide Pow2, Start;
    var q, l := PrefixOf(k, m, k.lens[m]), k.lens[m];
    var s := BlockStart(k.lens, k.M, m);
    assert PrefixOf(k, m, l - 1) in nodes;
    ShrShr(s, k.M - l, 1);
    FirstHasPrefix(k.M, q);
    BlockIsPrefix(k.lens, k.M, m, First(k.M, q));
  }

  // Only one prefix is the end of a long code.
  lemma OneEnd(k: Setting, nodes: Nodes, m: nat, p: Prefix)
    requires Sound(k) && m < |k.lens| && k.lens[m] > k.tb && p != PrefixOf(k, m, k.lens[m])
    ensures !Covers(k.lens, k.M, k.tb, m, p)
  {
    hide Pow2, Start;
    if Covers(k.lens, k.M, k.tb, m, p) {
      BlockIsPrefix(k.lens, k.M, m, First(k.M, p));
      FirstHasPrefix(k.M, p);
    }
  }

  // A symbol without code changes nothing.
  lemma NoCode(k: Setting, bound: nat, c: Cells, nodes: Nodes, avail: nat, m: nat)
    requires Built(k, bound, c, nodes, avail, m, m) && m < |k.lens| && k.lens[m] == 0
    ensures Built(k, bound, c, nodes, avail, m + 1, m + 1)
  {
    hide Through, Injective, HasCell;
    MayPass(k, bound, c, nodes, avail, m);
    forall p | HasCell(nodes, k.tb, p) ensures CellOK(k, bound, c, nodes, m + 1, p) {
      assert CellOK(k, bound, c, nodes, m, p) && !Covers(k.lens, k.M, k.tb, m, p);
    }
  }

  // The cells of a short code.
  predicate FilledWith(was: seq<nat>, table: seq<nat>, from: nat, to: nat, v: nat)
  {
    |table| == |was| && from <= to <= |table|
    && forall i :: 0 <= i < |table| ==> table[i] == if from <= i < to then v else was[i]
  }

  // Its cells are those of the prefixes in its block.
  lemma ShortCells(k: Setting, m: nat, i: nat)
    requires Sound(k) && m < |k.lens| && 0 < k.lens[m] <= k.tb
    ensures var from := Shr(BlockStart(k.lens, k.M, m), k.M - k.tb);
            Covers(k.lens, k.M, k.tb, m, Prefix(k.tb, i)) <==> from <= i < from + Pow2(k.tb - k.lens[m])
  {
    hide Start;
    var s, d, l := BlockStart(k.lens, k.M, m), k.M - k.tb, k.lens[m];
    StartAligned(k.lens, k.M, l, m);
    AlignedBlock(s, d, k.tb - l);
    Pow2Add(k.tb - l, d);
    var from, n := Shr(s, d), Pow2(k.tb - l);
    BlockSteps(from, i, n, Pow2(d));
  }

  lemma AlignedBlock(s: nat, d: nat, e: nat)
    requires Low(s, d + e) == 0
    ensures s == Shr(s, d) * Pow2(d)
  {
    LowLow(s, d, d + e);
    LowZero(d);
    Split(s, d);
  }

  lemma BlockSteps(from: int, i: int, n: int, w: int)
    requires w > 0
    ensures from * w <= i * w < from * w + n * w <==> from <= i < from + n
  {
    Distribute(from, n, w);
    if from <= i { MulMono(from, i, w); } else { MulMono(i + 1, from, w); Distribute(i, 1, w); }
    if i < from + n { MulMono(i + 1, from + n, w); Distribute(i, 1, w); } else { MulMono(from + n, i, w); }
  }

  // A cell after the symbol has been written into its part of the table.
  lemma TableCell(k: Setting, bound: nat, c: Cells, c': Cells, nodes: Nodes, m: nat, p: Prefix)
    requires Sound(k) && m < |k.lens| && HasCell(nodes, k.tb, p) && CellOK(k, bound, c, nodes, m, p)
    requires c'.left == c.left && c'.right == c.right && |c'.table| == |c.table|
             && (p.len == k.tb ==> p.bits < |c.table|)
    requires p.len == k.tb ==> c'.table[p.bits] == if Covers(k.lens, k.M, k.tb, m, p) then m else c.table[p.bits]
    requires p.len > k.tb ==> !Covers(k.lens, k.M, k.tb, m, p)
    requires Covers(k.lens, k.M, k.tb, m, p) ==> p !in nodes
    ensures CellOK(k, bound, c', nodes, m + 1, p)
  {
    hide Covers;
    if Covers(k.lens, k.M, k.tb, m, p) {
      forall a | 0 <= a < m ensures !Covers(k.lens, k.M, k.tb, a, p) { OneCovers(k.lens, k.M, k.tb, a, m, p); }
    }
  }

  lemma ShortSymbol(k: Setting, bound: nat, c: Cells, c': Cells, nodes: Nodes, avail: nat, m: nat)
    requires Built(k, bound, c, nodes, avail, m, m) && m < |k.lens| && 0 < k.lens[m] <= k.tb
    requires c'.left == c.left && c'.right == c.right
    requires var from := Shr(BlockStart(k.lens, k.M, m), k.M - k.tb);
             FilledWith(c.table, c'.table, from, from + Pow2(k.tb - k.lens[m]), m)
    ensures Built(k, bound, c', nodes, avail, m + 1, m + 1)
  {
    hide Covers, NodeOK, PathOK, CellOK, Injective, HasCell, Where, Shr, Start, Pow2;
    MayPass(k, bound, c, nodes, avail, m);
    ShortPath(k, nodes, m);
    forall p | HasCell(nodes, k.tb, p) ensures CellOK(k, bound, c', nodes, m + 1, p) {
      CellOf(k, bound, c, nodes, avail, m, m + 1, p);
      CellLength(nodes, k.tb, p);
      if p.len > k.tb {
        LongPrefix(k, m, p);
      } else {
        ShortCells(k, m, p.bits);
        if Covers(k.lens, k.M, k.tb, m, p) { EndIsNoNode(k, bound, c, nodes, avail, m, p); }
      }
      TableCell(k, bound, c, c', nodes, m, p);
    }
  }

  lemma ShortPath(k: Setting, nodes: Nodes, m: nat)
    requires Sound(k) && m < |k.lens| && k.lens[m] <= k.tb
    ensures PathOK(k, nodes, m, k.lens[m])
  {
  }

  lemma CellLength(nodes: Nodes, tb: nat, p: Prefix)
    requires HasCell(nodes, tb, p)
    ensures p.len >= tb && (p.len == tb ==> p.bits < Pow2(tb)) && (p.len > tb ==> Up(p) in nodes)
  {
  }

  lemma LongPrefix(k: Setting, m: nat, p: Prefix)
    requires Sound(k) && m < |k.lens| && k.lens[m] <= k.tb && p.len > k.tb
    ensures !Covers(k.lens, k.M, k.tb, m, p)
  {
  }

  // ---- Decoding -----------------------------------------------------------------------------------

  // The walk through the nodes, for the bits of w from the one with number l.
  function Walk(k: Setting, c: Cells, j: nat, w: nat, l: nat): nat
    requires k.M >= l
    decreases k.M - l
  {
    if j < |k.lens| || l == k.M || j >= |c.left| || j >= |c.right| then j
    else Walk(k, c, if Shr(w, k.M - 1 - l) % 2 == 1 then c.right[j] else c.left[j], w, l + 1)
  }

  // What the tables make of w.
  function Decoded(k: Setting, c: Cells, w: nat): nat
    requires k.M >= k.tb && Shr(w, k.M - k.tb) < |c.table|
  {
    Walk(k, c, c.table[Shr(w, k.M - k.tb)], w, k.tb)
  }

  // The cell of a prefix of w is reached by walking; a long code of symbol a is walked
  // to its end.
  lemma {:induction false} WalkEnds(k: Setting, bound: nat, c: Cells, nodes: Nodes, avail: nat, a: nat, w: nat, l: nat)
    requires Built(k, bound, c, nodes, avail, |k.lens|, |k.lens|) && a < |k.lens| && k.tb <= l <= k.lens[a]
             && Owns(k.lens, k.M, a, w)
    requires HasCell(nodes, k.tb, PrefixOf(k, a, l))
    ensures InCells(c, Where(nodes, k.tb, PrefixOf(k, a, l)))
    ensures Walk(k, c, Get(c, Where(nodes, k.tb, PrefixOf(k, a, l))), w, l) == a
    decreases k.lens[a] - l
  {
    hide Covers, Shr, Start, Injective, PathOK, NodeOK, CellOK, Owns, HasCell, Pow2, Where, Get, PrefixOf, InCells;
    var p := PrefixOf(k, a, l);
    CellOf(k, bound, c, nodes, avail, |k.lens|, |k.lens|, p);
    if l == k.lens[a] {
      EndCovers(k, a);
      SymbolCell(k, bound, c, nodes, p, a);
    } else {
      PathHas(k, bound, c, nodes, avail, a, l);
      NodeCell(k, bound, c, nodes, |k.lens|, p);
      NextPrefix(k, a, w, l);
      NextCell(k, nodes, c, p, PrefixOf(k, a, l + 1));
      WalkEnds(k, bound, c, nodes, avail, a, w, l + 1);
    }
  }

  lemma SymbolCell(k: Setting, bound: nat, c: Cells, nodes: Nodes, p: Prefix, a: nat)
    requires Sound(k) && HasCell(nodes, k.tb, p) && CellOK(k, bound, c, nodes, |k.lens|, p)
             && Covers(k.lens, k.M, k.tb, a, p)
    ensures InCells(c, Where(nodes, k.tb, p)) && Get(c, Where(nodes, k.tb, p)) == a
  {
    hide Where, Get, HasCell, InCells, Owns, First;
  }

  lemma NodeCell(k: Setting, bound: nat, c: Cells, nodes: Nodes, m: nat, p: Prefix)
    requires Sound(k) && HasCell(nodes, k.tb, p) && CellOK(k, bound, c, nodes, m, p) && p in nodes
    ensures InCells(c, Where(nodes, k.tb, p)) && Get(c, Where(nodes, k.tb, p)) == nodes[p]
  {
  }

  lemma PathHas(k: Setting, bound: nat, c: Cells, nodes: Nodes, avail: nat, a: nat, l: nat)
    requires Built(k, bound, c, nodes, avail, |k.lens|, |k.lens|) && a < |k.lens| && k.tb <= l < k.lens[a]
    ensures var p := PrefixOf(k, a, l);
            p in nodes && |k.lens| <= nodes[p] < |c.left| && nodes[p] < |c.right| && p.len == l
  {
    hide CellOK, Covers, Injective, Start, Shr, Pow2;
    assert PathOK(k, nodes, a, k.lens[a]) && PrefixOf(k, a, l) in nodes;
    assert NodeOK(k, nodes, avail, |k.lens|, PrefixOf(k, a, l));
  }

  // The cells of a node are those of the two prefixes below it.
  lemma NextCell(k: Setting, nodes: Nodes, c: Cells, p: Prefix, q: Prefix)
    requires Sound(k) && p.len >= k.tb && q.len == p.len + 1 && Up(q) == p && p in nodes && nodes[p] < |c.left|
             && nodes[p] < |c.right|
    ensures HasCell(nodes, k.tb, q)
    ensures InCells(c, Where(nodes, k.tb, q))
            && Get(c, Where(nodes, k.tb, q)) == if q.bits % 2 == 1 then c.right[nodes[p]] else c.left[nodes[p]]
  {
  }

  lemma EndCovers(k: Setting, a: nat)
    requires Sound(k) && a < |k.lens| && k.lens[a] >= k.tb
    ensures Covers(k.lens, k.M, k.tb, a, PrefixOf(k, a, k.lens[a]))
  {
    hide Pow2, Start;
    var q := PrefixOf(k, a, k.lens[a]);
    FirstHasPrefix(k.M, q);
    BlockIsPrefix(k.lens, k.M, a, First(k.M, q));
  }

  // The next bit of w is that of the code.
  lemma NextPrefix(k: Setting, a: nat, w: nat, l: nat)
    requires Sound(k) && a < |k.lens| && k.tb <= l < k.lens[a] && Owns(k.lens, k.M, a, w)
    ensures var q := PrefixOf(k, a, l + 1);
            q.len == l + 1 && Up(q) == PrefixOf(k, a, l) && PrefixOf(k, a, l).len == l && q.bits == Shr(w, k.M - 1 - l)
  {
    hide Pow2, Start;
    var s := BlockStart(k.lens, k.M, a);
    BlockIsPrefix(k.lens, k.M, a, w);
    ShorterPrefix(w, s, k.M - k.lens[a], k.M - 1 - l);
    ShrShr(s, k.M - 1 - l, 1);
  }

  // Every number is decoded to the symbol whose code it begins with.
  lemma DecodesOwner(k: Setting, bound: nat, c: Cells, nodes: Nodes, avail: nat, a: nat, w: nat)
    requires Built(k, bound, c, nodes, avail, |k.lens|, |k.lens|) && a < |k.lens| && Owns(k.lens, k.M, a, w)
             && w < Pow2(k.M)
    ensures Shr(w, k.M - k.tb) < |c.table| && Decoded(k, c, w) == a
  {
    hide Covers, Shr, Start, Pow2, NodeOK, PathOK, CellOK, Injective, Walk;
    ShrBound(w, k.M - k.tb, k.tb);
    var p := Prefix(k.tb, Shr(w, k.M - k.tb));
    CellOf(k, bound, c, nodes, avail, |k.lens|, |k.lens|, p);
    if k.lens[a] <= k.tb {
      ShortOwner(k, a, w);
      SymbolCell(k, bound, c, nodes, p, a);
      WalkAtSymbol(k, c, a, w, k.tb);
    } else {
      BlockIsPrefix(k.lens, k.M, a, w);
      ShorterPrefix(w, BlockStart(k.lens, k.M, a), k.M - k.lens[a], k.M - k.tb);
      WalkEnds(k, bound, c, nodes, avail, a, w, k.tb);
    }
  }

  lemma WalkAtSymbol(k: Setting, c: Cells, j: nat, w: nat, l: nat)
    requires k.M >= l && j < |k.lens|
    ensures Walk(k, c, j, w, l) == j
  {
  }

  lemma ShortOwner(k: Setting, a: nat, w: nat)
    requires Sound(k) && a < |k.lens| && Owns(k.lens, k.M, a, w) && k.lens[a] <= k.tb
    ensures Covers(k.lens, k.M, k.tb, a, Prefix(k.tb, Shr(w, k.M - k.tb)))
  {
    hide Pow2, Start;
    var p := Prefix(k.tb, Shr(w, k.M - k.tb));
    BlockIsPrefix(k.lens, k.M, a, w);
    BlockIsPrefix(k.lens, k.M, a, First(k.M, p));
    FirstHasPrefix(k.M, p);
    ShorterPrefix(First(k.M, p), w, k.M - k.tb, k.M - k.lens[a]);
  }
}
