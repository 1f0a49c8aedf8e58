// Precedence climbing (peglib.h): operators with levels and associativity between
// atoms.  What is consumed is atoms and operators by turns, and operators that were
// accepted before it was seen that no atom follows; these are not in the tree that is
// built.  Where there is none of them, the tree is the one in which every operator
// binds as its level and associativity say.
module PegPrecedence {
  import opened Maybes

  // Left or right; operators of one level have the same.
  datatype Info = Info(level: nat, left: bool)

  datatype Op = Op(len: nat, tok: string)

  // What the atom and the operator match at a position, and the table of operators.
  datatype Setting = Setting(end: nat, atoms: nat -> Maybe<nat>, ops: nat -> Maybe<Op>, info: map<string, Info>)

  // An operator of the table has at least one character; matches stay in the text.
  ghost predicate Proper(g: Setting)
  {
    (forall p: nat :: AtomFits(g, p) && OpFits(g, p))
    && (forall s, t :: s in g.info && t in g.info && g.info[s].level == g.info[t].level
                       ==> g.info[s].left == g.info[t].left)
  }

  predicate AtomFits(g: Setting, p: nat)
  {
    g.atoms(p).Just? && p <= g.end ==> p + g.atoms(p).v <= g.end
  }

  predicate OpFits(g: Setting, p: nat)
  {
    g.ops(p).Just? && p <= g.end ==> p + g.ops(p).v.len <= g.end && (g.ops(p).v.tok in g.info ==> g.ops(p).v.len > 0)
  }

  // ---- Trees ------------------------------------------------------------------------------------

  datatype Piece = AtomAt(p: nat, len: nat) | OpAt(p: nat, len: nat, tok: string)

  datatype Tree = Atom(p: nat, len: nat) | Node(l: Tree, op: Piece, r: Tree)

  // The pieces in order.
  function Flat(t: Tree): (r: seq<Piece>)
    ensures |r| > 0
  {
    match t
    case Atom(p, len) => [AtomAt(p, len)]
    case Node(l, op, r) => Flat(l) + [op] + Flat(r)
  }

  function LevelOf(g: Setting, x: Piece): nat
  {
    if x.OpAt? && x.tok in g.info then g.info[x.tok].level else 0
  }

  predicate LeftOf(g: Setting, x: Piece)
  {
    x.OpAt? && x.tok in g.info && g.info[x.tok].left
  }

  // The least level of what may stand to the right of the operator, and to the left.
  function RightLevel(g: Setting, x: Piece): nat
  {
    if LeftOf(g, x) then LevelOf(g, x) + 1 else LevelOf(g, x)
  }

  function LeftLevel(g: Setting, x: Piece): nat
  {
    if LeftOf(g, x) then LevelOf(g, x) else LevelOf(g, x) + 1
  }

  // The root of a child binds as tightly as the operator demands.
  predicate Binds(g: Setting, t: Tree, level: nat)
  {
    t.Node? ==> LevelOf(g, t.op) >= level
  }

  // At every operator the right child binds more tightly, or as tightly when it is
  // right-associative, and the left child the other way around.
  predicate Precedes(g: Setting, t: Tree)
  {
    t.Node? ==>
      t.op.OpAt? && t.op.tok in g.info && Precedes(g, t.l) && Precedes(g, t.r)
      && Binds(g, t.l, LeftLevel(g, t.op)) && Binds(g, t.r, RightLevel(g, t.op))
  }

  // Where the last piece ends.
  function EndOf(t: Tree): nat
  {
    match t case Atom(p, len) => p + len case Node(_, _, r) => EndOf(r)
  }

  // The same, but for the left children of operators with something dropped before them.
  predicate Climbs(g: Setting, t: Tree)
  {
    t.Node? ==>
      t.op.OpAt? && t.op.tok in g.info && Climbs(g, t.l) && Climbs(g, t.r)
      && (EndOf(t.l) == t.op.p ==> Binds(g, t.l, LeftLevel(g, t.op))) && Binds(g, t.r, RightLevel(g, t.op))
  }

  // ---- What is consumed ---------------------------------------------------------------------------

  // An operator of the table, of this level at least.
  predicate Accepts(g: Setting, q: nat, level: nat)
  {
    q < g.end && g.ops(q).Just? && g.ops(q).v.tok in g.info && g.info[g.ops(q).v.tok].level >= level
  }

  function OpPiece(g: Setting, q: nat): Piece
    requires g.ops(q).Just?
  {
    OpAt(q, g.ops(q).v.len, g.ops(q).v.tok)
  }

  // The pieces from q on, when operands of these levels are open, the last one on top.
  // The operand on top takes the operator or is over; an operator without an atom behind
  // it is taken all the same, and then the operand that took it is over.
  ghost function Taken(g: Setting, q: nat, open: seq<nat>): (r: seq<Piece>)
    requires Proper(g) && q <= g.end
    decreases g.end - q, |open|
  {
    if open == [] then []
    else if !Accepts(g, q, open[|open| - 1]) then Taken(g, q, open[..|open| - 1])
    else
      assert OpFits(g, q);
      var x := OpPiece(g, q);
      var after := q + x.len;
      if g.atoms(after).Nothing? then [x] + Taken(g, after, open[..|open| - 1])
      else
        assert AtomFits(g, after);
        var len := g.atoms(after).v;
        [x, AtomAt(after, len)] + Taken(g, after + len, open + [RightLevel(g, x)])
  }

  // The operator and the atom are in the text.
  lemma OpThere(g: Setting, q: nat, level: nat)
    requires Proper(g) && q <= g.end && Accepts(g, q, level)
    ensures g.ops(q).Just? && q < q + g.ops(q).v.len <= g.end
    ensures g.atoms(q + g.ops(q).v.len).Just? ==> q + g.ops(q).v.len + g.atoms(q + g.ops(q).v.len).v <= g.end
  {
    assert OpFits(g, q) && AtomFits(g, q + g.ops(q).v.len);
  }

  // ---- The tree, with a stack --------------------------------------------------------------------

  // An operand that is open: what it takes, its tree so far, and the operator before it.
  datatype Operand = Operand(level: nat, t: Tree, before: Piece)

  // The operand on top is over, and goes to the right of its operator.
  function Closed(open: seq<Operand>): (r: seq<Operand>)
    requires |open| > 1
    ensures |r| == |open| - 1
  {
    var top, under := open[|open| - 1], open[|open| - 2];
    open[..|open| - 2] + [under.(t := Node(under.t, top.before, top.t))]
  }

  // The tree that comes of these operands, and where it stops.
  ghost function Shifted(g: Setting, q: nat, open: seq<Operand>): (r: (Tree, nat))
    requires Proper(g) && q <= g.end && open != []
    decreases g.end - q, |open|
  {
    var top := open[|open| - 1];
    if !Accepts(g, q, top.level) then
      if |open| == 1 then (top.t, q) else Shifted(g, q, Closed(open))
    else
      assert OpFits(g, q);
      var x := OpPiece(g, q);
      var after := q + x.len;
      if g.atoms(after).Nothing? then
        if |open| == 1 then (top.t, after) else Shifted(g, after, Closed(open))
      else
        assert AtomFits(g, after);
        var len := g.atoms(after).v;
        Shifted(g, after + len, open + [Operand(RightLevel(g, x), Atom(after, len), x)])
  }

  // From the atom at p on; before the first operand there is no operator.
  ghost function Parsed(g: Setting, p: nat, level: nat): (Tree, nat)
    requires Proper(g) && p <= g.end && g.atoms(p).Just?
  {
    assert AtomFits(g, p);
    var len := g.atoms(p).v;
    Shifted(g, p + len, [Operand(level, Atom(p, len), AtomAt(p, len))])
  }

  // The upper operands are done first, and become the right operand of what is below.
  lemma {:induction false} ShiftedSplit(g: Setting, q: nat, under: seq<Operand>, open: seq<Operand>)
    requires Proper(g) && q <= g.end && open != [] && under != []
    ensures var (t, q') := Shifted(g, q, open);
            q' <= g.end
            && Shifted(g, q, under + open) == Shifted(g, q', Closed(under + [open[0].(t := t)]))
    decreases g.end - q, |open|
  {
    hide Closed, Proper, Accepts;
    var all, top := under + open, open[|open| - 1];
    assert all[|all| - 1] == top;
    if !Accepts(g, q, top.level) {
      if |open| == 1 { AloneSplit(under, open); } else {
        ClosedSplit(under, open);
        ShiftedSplit(g, q, under, Closed(open));
      }
    } else {
      OpThere(g, q, top.level);
      var x := OpPiece(g, q);
      var after := q + x.len;
      if g.atoms(after).Nothing? {
        if |open| == 1 { AloneSplit(under, open); } else {
          ClosedSplit(under, open);
          ShiftedSplit(g, after, under, Closed(open));
        }
      } else {
        var next := Operand(RightLevel(g, x), Atom(after, g.atoms(after).v), x);
        assert under + (open + [next]) == all + [next];
        ShiftedSplit(g, after + g.atoms(after).v, under, open + [next]);
      }
    }
  }

  lemma AloneSplit(under: seq<Operand>, open: seq<Operand>)
    requires |open| == 1 && under != []
    ensures under + open == under + [open[0].(t := open[0].t)]
  {
  }

  lemma ClosedSplit(under: seq<Operand>, open: seq<Operand>)
    requires |open| > 1
    ensures Closed(under + open) == under + Closed(open) && Closed(open)[0].before == open[0].before
            && Closed(open)[0].level == open[0].level
  {
    assert (under + open)[..|under| + |open| - 2] == under + open[..|open| - 2];
  }

  // What is in the tree: an operator with no atom behind it is dropped.
  function Kept(xs: seq<Piece>): seq<Piece>
    decreases |xs|
  {
    if xs == [] then []
    else if xs[0].OpAt? && (|xs| == 1 || xs[1].OpAt?) then Kept(xs[1..])
    else [xs[0]] + Kept(xs[1..])
  }

  // Where pieces that follow one another end.
  function Behind(xs: seq<Piece>, p: nat): nat
  {
    if xs == [] then p else xs[|xs| - 1].p + xs[|xs| - 1].len
  }

  // The pieces follow one another from p on.
  predicate Tiles(xs: seq<Piece>, p: nat)
    decreases |xs|
  {
    xs == [] || (xs[0].p == p && Tiles(xs[1..], p + xs[0].len))
  }

  // All that parse_expression consumes at p: an atom, and what follows.
  ghost function Consumed(g: Setting, p: nat, level: nat): seq<Piece>
    requires Proper(g) && p <= g.end && g.atoms(p).Just?
  {
    assert AtomFits(g, p);
    [AtomAt(p, g.atoms(p).v)] + Taken(g, p + g.atoms(p).v, [level])
  }

  lemma {:induction false} BehindJoin(xs: seq<Piece>, ys: seq<Piece>, p: nat)
    ensures Behind(xs + ys, p) == Behind(ys, Behind(xs, p))
  {
    if ys == [] { assert xs + ys == xs; }
  }

  lemma {:induction false} KeptJoin(xs: seq<Piece>, ys: seq<Piece>)
    requires ys == [] || ys[0].OpAt?
    ensures Kept(xs + ys) == Kept(xs) + Kept(ys)
    decreases |xs|
  {
    if xs == [] {
      assert xs + ys == ys;
    } else {
      assert (xs + ys)[1..] == xs[1..] + ys;
      KeptJoin(xs[1..], ys);
    }
  }

  // The three cases.
  lemma TakenOver(g: Setting, q: nat, open: seq<nat>)
    requires Proper(g) && q <= g.end && open != [] && !Accepts(g, q, open[|open| - 1])
    ensures Taken(g, q, open) == Taken(g, q, open[..|open| - 1])
  {
  }

  lemma TakenDrop(g: Setting, q: nat, open: seq<nat>)
    requires Proper(g) && q <= g.end && open != [] && Accepts(g, q, open[|open| - 1])
    requires g.atoms(q + g.ops(q).v.len).Nothing?
    ensures var x := OpPiece(g, q); var after := q + x.len;
            q < after <= g.end && Taken(g, q, open) == [x] + Taken(g, after, open[..|open| - 1])
  {
    assert OpFits(g, q);
  }

  lemma TakenPair(g: Setting, q: nat, open: seq<nat>)
    requires Proper(g) && q <= g.end && open != [] && Accepts(g, q, open[|open| - 1])
    requires g.atoms(q + g.ops(q).v.len).Just?
    ensures var x := OpPiece(g, q); var after := q + x.len; var len := g.atoms(after).v;
            q < after <= after + len <= g.end
            && Taken(g, q, open) == [x, AtomAt(after, len)] + Taken(g, after + len, open + [RightLevel(g, x)])
  {
    assert OpFits(g, q);
    assert AtomFits(g, q + g.ops(q).v.len);
  }

  // Taken begins with an operator, lies in the text and has no gaps.
  lemma {:induction false} TakenTiles(g: Setting, q: nat, open: seq<nat>)
    requires Proper(g) && q <= g.end
    ensures var xs := Taken(g, q, open);
            Tiles(xs, q) && q <= Behind(xs, q) <= g.end && (xs != [] ==> xs[0].OpAt?)
    decreases g.end - q, |open|
  {
    if open != [] {
      hide Taken, Proper, Accepts, Tiles, Behind, RightLevel;
      if !Accepts(g, q, open[|open| - 1]) {
        TakenOver(g, q, open);
        TakenTiles(g, q, open[..|open| - 1]);
      } else {
        OpThere(g, q, open[|open| - 1]);
        var x := OpPiece(g, q);
        var after := q + x.len;
        if g.atoms(after).Nothing? {
          TakenDrop(g, q, open);
          TakenTiles(g, after, open[..|open| - 1]);
          FirstTiles(x, Taken(g, after, open[..|open| - 1]));
        } else {
          TakenPair(g, q, open);
          var a := AtomAt(after, g.atoms(after).v);
          var ys := Taken(g, after + a.len, open + [RightLevel(g, x)]);
          TakenTiles(g, after + a.len, open + [RightLevel(g, x)]);
          PairTiles(x, a, ys);
        }
      }
    }
  }

  lemma PairTiles(x: Piece, a: Piece, ys: seq<Piece>)
    requires a.p == x.p + x.len && Tiles(ys, a.p + a.len)
    ensures Tiles([x, a] + ys, x.p) && Behind([x, a] + ys, x.p) == Behind(ys, a.p + a.len)
  {
    FirstTiles(a, ys);
    FirstTiles(x, [a] + ys);
    assert [x] + ([a] + ys) == [x, a] + ys;
  }

  lemma FirstTiles(x: Piece, ys: seq<Piece>)
    requires Tiles(ys, x.p + x.len)
    ensures Tiles([x] + ys, x.p) && Behind([x] + ys, x.p) == Behind(ys, x.p + x.len)
  {
    assert ([x] + ys)[1..] == ys;
    BehindJoin([x], ys, x.p);
  }

  // First what the upper operands take, then the others.
  lemma {:induction false} TakenSplit(g: Setting, q: nat, under: seq<nat>, open: seq<nat>)
    requires Proper(g) && q <= g.end
    ensures var xs := Taken(g, q, open);
            Behind(xs, q) <= g.end && Taken(g, q, under + open) == xs + Taken(g, Behind(xs, q), under)
    decreases g.end - q, |open|
  {
    hide Proper, Behind;
    TakenTiles(g, q, open);
    if open == [] {
      assert under + open == under && Behind([], q) == q by { BehindNone(q); }
    } else {
      hide Taken, Accepts;
      var all, rest := under + open, open[..|open| - 1];
      assert all[|all| - 1] == open[|open| - 1] && all[..|all| - 1] == under + rest;
      if !Accepts(g, q, open[|open| - 1]) {
        TakenOver(g, q, open);
        TakenOver(g, q, all);
        TakenSplit(g, q, under, rest);
      } else {
        OpThere(g, q, open[|open| - 1]);
        var x := OpPiece(g, q);
        var after := q + x.len;
        BehindOne(x, q);
        if g.atoms(after).Nothing? {
          TakenDrop(g, q, open);
          TakenDrop(g, q, all);
          TakenSplit(g, after, under, rest);
          SplitBehind(g, q, [x], Taken(g, after, rest), under);
        } else {
          TakenPair(g, q, open);
          TakenPair(g, q, all);
          var a, more := AtomAt(after, g.atoms(after).v), open + [RightLevel(g, x)];
          assert all + [RightLevel(g, x)] == under + more;
          BehindOne(a, after);
          BehindJoin([x], [a], q);
          assert [x] + [a] == [x, a];
          TakenSplit(g, after + a.len, under, more);
          SplitBehind(g, q, [x, a], Taken(g, after + a.len, more), under);
        }
      }
    }
  }

  lemma BehindNone(q: nat)
    ensures Behind([], q) == q
  {
  }

  lemma BehindOne(x: Piece, p: nat)
    ensures Behind([x], p) == x.p + x.len
  {
  }

  lemma SplitBehind(g: Setting, q: nat, xs: seq<Piece>, ys: seq<Piece>, under: seq<nat>)
    requires Proper(g) && Behind(ys, Behind(xs, q)) <= g.end
    ensures Behind(xs + ys, q) <= g.end
    ensures xs + (ys + Taken(g, Behind(ys, Behind(xs, q)), under)) == (xs + ys) + Taken(g, Behind(xs + ys, q), under)
  {
    BehindJoin(xs, ys, q);
  }

  // ---- Parsing ------------------------------------------------------------------------------------

  // What follows a tree that ends right here belongs above its root, not below it.
  predicate Next(g: Setting, t: Tree, q: nat)
  {
    t.Node? && EndOf(t) == q ==> !Accepts(g, q, RightLevel(g, t.op))
  }

  // What is known after some rounds: the tree, and the pieces up to q.
  ghost predicate Climbed(g: Setting, p: nat, level: nat, q: nat, t: Tree, ys: seq<Piece>)
    requires Proper(g) && p <= g.end && g.atoms(p).Just?
  {
    q <= g.end && Behind(ys, p) == q && Consumed(g, p, level) == ys + Taken(g, q, [level])
    && Flat(t) == Kept(ys) && EndOf(t) <= q && Climbs(g, t) && Binds(g, t, level)
    && Parsed(g, p, level) == Shifted(g, q, [Operand(level, t, AtomAt(p, g.atoms(p).v))])
  }

  // And when it is over.
  ghost predicate Finished(g: Setting, p: nat, level: nat, q: nat, t: Tree)
    requires Proper(g) && p <= g.end && g.atoms(p).Just?
  {
    var xs := Consumed(g, p, level);
    q == Behind(xs, p) <= g.end && Flat(t) == Kept(xs) && EndOf(t) <= q && Climbs(g, t) && Binds(g, t, level)
    && (EndOf(t) == q ==> !Accepts(g, q, level)) && Parsed(g, p, level) == (t, q)
  }

  // parse_expression, with an action that builds a tree.
  method ParseExpression(g: Setting, p: nat, minPrec: nat) returns (r: Maybe<nat>, t: Tree)
    requires Proper(g) && p <= g.end
    ensures r.Nothing? <==> g.atoms(p).Nothing?
    ensures r.Just? ==> Finished(g, p, minPrec, p + r.v, t)
    ensures r.Just? ==> p + g.atoms(p).v <= g.end
                        && (Flat(t) == Consumed(g, p, minPrec) <==> !Hangs(g, p + g.atoms(p).v, minPrec))
    ensures r.Just? && !Hangs(g, p + g.atoms(p).v, minPrec) ==>
              Precedes(g, t) && p + r.v == ChainEnd(g, p + g.atoms(p).v, minPrec) && !Accepts(g, p + r.v, minPrec)
    decreases g.end - p
  {
    hide Climbs, Precedes, Flat, Taken, Kept, Consumed, Behind, ChainEnd, Parsed, Shifted;
    t := Atom(p, 0);
    var len := g.atoms(p);
    if len.Nothing? { return Nothing, t; }
    assert AtomFits(g, p);
    t := Atom(p, len.v);
    ghost var ys := [AtomAt(p, len.v)];
    OneAtom(g, p, minPrec);
    var i := len.v;
    ghost var over := false;
    while p + i < g.end
      invariant Climbed(g, p, minPrec, p + i, t, ys) && Next(g, t, p + i) && !over
      decreases g.end - (p + i)
    {
      var op := g.ops(p + i);
      if op.Nothing? { break; }
      if op.v.tok !in g.info { break; }
      var level := g.info[op.v.tok].level;
      if level < minPrec { break; }
      assert OpFits(g, p + i);
      var x := OpPiece(g, p + i);
      i := i + op.v.len;
      var nextMinPrec := if g.info[op.v.tok].left then level + 1 else level;
      var r2, t2 := ParseExpression(g, p + i, nextMinPrec);
      if r2.Nothing? {
        Dropped(g, p, minPrec, x, t, ys);
        over := true;
        break;
      }
      NodeBuilt(g, p, minPrec, x, t, ys, t2);
      ys := ys + ([x] + Consumed(g, p + i, nextMinPrec));
      t := Node(t, x, t2);
      i := i + r2.v;
    }
    if !over { Over(g, p, minPrec, p + i, t, ys); }
    KeptExactly(g, p, minPrec);
    if Flat(t) == Consumed(g, p, minPrec) { TreePrecedes(g, t, p, minPrec); }
    r := Just(i);
  }

  lemma OneAtom(g: Setting, p: nat, level: nat)
    requires Proper(g) && p <= g.end && g.atoms(p).Just?
    ensures var len := g.atoms(p).v; Climbed(g, p, level, p + len, Atom(p, len), [AtomAt(p, len)])
  {
    assert AtomFits(g, p);
    assert [AtomAt(p, g.atoms(p).v)][1..] == [];
  }

  // An operator with no atom behind it: it is consumed, and the operand is over.
  lemma Dropped(g: Setting, p: nat, level: nat, x: Piece, t: Tree, ys: seq<Piece>)
    requires Proper(g) && p <= g.end && g.atoms(p).Just? && Accepts(g, x.p, level) && x == OpPiece(g, x.p)
    requires Climbed(g, p, level, x.p, t, ys) && g.atoms(x.p + x.len).Nothing?
    ensures Finished(g, p, level, x.p + x.len, t)
  {
    hide Climbs, Flat, Consumed, Parsed;
    assert OpFits(g, x.p);
    assert [level][..0] == [] && [x] + [] == [x];
    assert Taken(g, x.p, [level]) == [x];
    KeptJoin(ys, [x]);
    BehindJoin(ys, [x], p);
    assert Kept([x]) == [];
  }

  lemma Over(g: Setting, p: nat, level: nat, q: nat, t: Tree, ys: seq<Piece>)
    requires Proper(g) && p <= g.end && g.atoms(p).Just? && Climbed(g, p, level, q, t, ys) && !Accepts(g, q, level)
    ensures Finished(g, p, level, q, t)
  {
    hide Climbs, Flat, Consumed, Kept, Parsed;
    assert [level][..0] == [];
    assert Taken(g, q, [level]) == [];
    assert ys + [] == ys && Consumed(g, p, level) == ys;
  }

  lemma NodeBuilt(g: Setting, p: nat, level: nat, x: Piece, t: Tree, ys: seq<Piece>, t2: Tree)
    requires Proper(g) && p <= g.end && g.atoms(p).Just? && Accepts(g, x.p, level) && x == OpPiece(g, x.p)
    requires Climbed(g, p, level, x.p, t, ys) && Next(g, t, x.p)
    requires x.p + x.len <= g.end && g.atoms(x.p + x.len).Just?
    requires var q := Behind(Consumed(g, x.p + x.len, RightLevel(g, x)), x.p + x.len);
             Finished(g, x.p + x.len, RightLevel(g, x), q, t2)
    ensures var zs := Consumed(g, x.p + x.len, RightLevel(g, x)); var q := Behind(zs, x.p + x.len);
            Climbed(g, p, level, q, Node(t, x, t2), ys + ([x] + zs)) && Next(g, Node(t, x, t2), q)
  {
    hide Climbs, Taken, Kept, Flat, Behind, Consumed, Parsed, Shifted;
    var after, next := x.p + x.len, RightLevel(g, x);
    var zs := Consumed(g, after, next);
    var q := Behind(zs, after);
    PiecesBuilt(g, p, level, x, ys);
    TreeBuilt(g, p, level, x, t, t2, q);
    NodeClimbs(g, t, x, t2, level);
    NodeFlat(t, x, t2);
    KeptBuilt(ys, x, zs);
  }

  lemma TreeBuilt(g: Setting, p: nat, level: nat, x: Piece, t: Tree, t2: Tree, q: nat)
    requires Proper(g) && p <= g.end && g.atoms(p).Just? && Accepts(g, x.p, level) && x == OpPiece(g, x.p)
    requires x.p <= g.end && x.p + x.len <= g.end && g.atoms(x.p + x.len).Just? && q <= g.end
    requires Parsed(g, x.p + x.len, RightLevel(g, x)) == (t2, q)
    ensures var b := AtomAt(p, g.atoms(p).v);
            Shifted(g, x.p, [Operand(level, t, b)]) == Shifted(g, q, [Operand(level, Node(t, x, t2), b)])
  {
    hide Closed;
    var after, b := x.p + x.len, AtomAt(p, g.atoms(p).v);
    assert AtomFits(g, after) && OpFits(g, x.p);
    var len := g.atoms(after).v;
    var first, next := Operand(level, t, b), Operand(RightLevel(g, x), Atom(after, len), x);
    var other := Operand(RightLevel(g, x), Atom(after, len), AtomAt(after, len));
    assert [first] + [next] == [first, next];
    assert Shifted(g, x.p, [first]) == Shifted(g, after + len, [first, next]);
    ShiftedSplit(g, after + len, [first], [next]);
    SameBefore(g, after + len, [next], [other]);
    CloseTwo(first, next, t2);
  }

  lemma CloseTwo(first: Operand, next: Operand, t2: Tree)
    ensures Closed([first] + [next.(t := t2)]) == [first.(t := Node(first.t, next.before, t2))]
  {
    var both := [first] + [next.(t := t2)];
    assert both[..0] == [] && both[1] == next.(t := t2) && both[0] == first;
  }

  // What is before the first operand makes no difference to it.
  lemma {:induction false} SameBefore(g: Setting, q: nat, a: seq<Operand>, b: seq<Operand>)
    requires Proper(g) && q <= g.end && a != [] && |a| == |b| && a[1..] == b[1..]
    requires a[0].t == b[0].t && a[0].level == b[0].level
    ensures Shifted(g, q, a) == Shifted(g, q, b)
    decreases g.end - q, |a|
  {
    hide Proper, Accepts;
    var n := |a| - 1;
    var top := a[n];
    assert n > 0 ==> top == a[1..][n - 1] && b[n] == b[1..][n - 1];
    if n > 0 { CloseAlike(a, b); }
    if !Accepts(g, q, top.level) {
      if n > 0 { SameBefore(g, q, Closed(a), Closed(b)); }
    } else {
      OpThere(g, q, top.level);
      var x := OpPiece(g, q);
      var after := q + x.len;
      if g.atoms(after).Nothing? {
        if n > 0 { SameBefore(g, after, Closed(a), Closed(b)); }
      } else {
        var next := Operand(RightLevel(g, x), Atom(after, g.atoms(after).v), x);
        assert (a + [next])[1..] == a[1..] + [next] && (b + [next])[1..] == b[1..] + [next];
        SameBefore(g, after + g.atoms(after).v, a + [next], b + [next]);
      }
    }
  }

  lemma CloseAlike(a: seq<Operand>, b: seq<Operand>)
    requires |a| == |b| > 1 && a[1..] == b[1..] && a[0].t == b[0].t && a[0].level == b[0].level
    ensures var a', b' := Closed(a), Closed(b);
            a'[1..] == b'[1..] && a'[0].t == b'[0].t && a'[0].level == b'[0].level
  {
    var n := |a| - 1;
    assert a[n] == a[1..][n - 1] && b[n] == b[1..][n - 1];
    if n > 1 {
      assert a[n - 1] == a[1..][n - 2] && b[n - 1] == b[1..][n - 2];
      var a', b' := Closed(a), Closed(b);
      assert a'[0] == a[0] && b'[0] == b[0];
      forall i | 0 <= i < |a'| - 1 ensures a'[1..][i] == b'[1..][i] {
        if i + 1 < n - 1 { assert a'[i + 1] == a[1..][i] && b'[i + 1] == b[1..][i]; }
      }
    }
  }

  lemma PiecesBuilt(g: Setting, p: nat, level: nat, x: Piece, ys: seq<Piece>)
    requires Proper(g) && p <= g.end && g.atoms(p).Just? && Accepts(g, x.p, level) && x == OpPiece(g, x.p)
    requires Behind(ys, p) == x.p && Consumed(g, p, level) == ys + Taken(g, x.p, [level])
    requires x.p + x.len <= g.end && g.atoms(x.p + x.len).Just?
    ensures var after := x.p + x.len; var zs := Consumed(g, after, RightLevel(g, x)); var q := Behind(zs, after);
            q <= g.end && Behind(ys + ([x] + zs), p) == q && zs != [] && zs[0].AtomAt?
            && Consumed(g, p, level) == (ys + ([x] + zs)) + Taken(g, q, [level])
  {
    hide Behind;
    var after, next := x.p + x.len, RightLevel(g, x);
    assert AtomFits(g, after);
    var a := AtomAt(after, g.atoms(after).v);
    var ws := Taken(g, after + a.len, [next]);
    assert [level] + [next] == [level, next];
    TakenSplit(g, after + a.len, [level], [next]);
    assert Taken(g, x.p, [level]) == [x, a] + Taken(g, after + a.len, [level, next]);
    BehindOne(x, x.p);
    BehindOne(a, after);
    BehindJoin([a], ws, after);
    BehindJoin([x], [a] + ws, x.p);
    BehindJoin(ys, [x] + ([a] + ws), p);
    var rest := Taken(g, Behind(ws, after + a.len), [level]);
    assert ys + ([x, a] + (ws + rest)) == (ys + ([x] + ([a] + ws))) + rest;
  }

  lemma NodeClimbs(g: Setting, t: Tree, x: Piece, t2: Tree, level: nat)
    requires Proper(g) && x.OpAt? && g.ops(x.p) == Just(Op(x.len, x.tok)) && x.tok in g.info && x.p < g.end
    requires Climbs(g, t) && Climbs(g, t2) && Binds(g, t2, RightLevel(g, x)) && Next(g, t, x.p)
             && LevelOf(g, x) >= level
    ensures Climbs(g, Node(t, x, t2)) && Binds(g, Node(t, x, t2), level)
  {
  }

  lemma NodeFlat(t: Tree, x: Piece, t2: Tree)
    ensures Flat(Node(t, x, t2)) == Flat(t) + ([x] + Flat(t2))
  {
    assert Flat(t) + [x] + Flat(t2) == Flat(t) + ([x] + Flat(t2));
  }

  lemma KeptBuilt(ys: seq<Piece>, x: Piece, zs: seq<Piece>)
    requires x.OpAt? && zs != [] && zs[0].AtomAt?
    ensures Kept(ys + ([x] + zs)) == Kept(ys) + ([x] + Kept(zs))
  {
    KeptJoin(ys, [x] + zs);
    assert ([x] + zs)[1..] == zs;
  }

  // ---- When nothing is dropped ----------------------------------------------------------------------

  // Where operators of this level and atoms by turns end.
  ghost function ChainEnd(g: Setting, q: nat, level: nat): (r: nat)
    requires Proper(g) && q <= g.end
    ensures q <= r <= g.end
    decreases g.end - q
  {
    if Accepts(g, q, level) && (assert OpFits(g, q); g.atoms(q + g.ops(q).v.len).Just?) then
      assert AtomFits(g, q + g.ops(q).v.len);
      ChainEnd(g, q + g.ops(q).v.len + g.atoms(q + g.ops(q).v.len).v, level)
    else q
  }

  // There an operator would be accepted; but no atom is behind it.
  ghost predicate Hangs(g: Setting, q: nat, level: nat)
    requires Proper(g) && q <= g.end
  {
    Accepts(g, ChainEnd(g, q, level), level)
  }

  lemma {:induction false} KeptLength(xs: seq<Piece>)
    ensures |Kept(xs)| <= |xs|
    decreases |xs|
  {
    if xs != [] { KeptLength(xs[1..]); }
  }

  lemma {:induction false} TakenExactly(g: Setting, q: nat, level: nat, open: seq<nat>)
    requires Proper(g) && q <= g.end && open != [] && open[0] == level
             && forall i :: 0 <= i < |open| ==> open[i] >= level
    ensures var xs := Taken(g, q, open);
            (Kept(xs) == xs <==> !Hangs(g, q, level))
            && (Kept(xs) == xs ==> Behind(xs, q) == ChainEnd(g, q, level))
    decreases g.end - q, |open|
  {
    hide Taken, Proper, Kept;
    var top, rest := open[|open| - 1], open[..|open| - 1];
    if !Accepts(g, q, top) {
      TakenOver(g, q, open);
      if |open| > 1 { TakenExactly(g, q, level, rest); } else { NoneTaken(g, q); }
    } else {
      var x := OpPiece(g, q);
      var after := q + x.len;
      if g.atoms(after).Nothing? {
        TakenDrop(g, q, open);
        TakenTiles(g, after, rest);
        DropKept(x, Taken(g, after, rest));
      } else {
        TakenPair(g, q, open);
        var a, more := AtomAt(after, g.atoms(after).v), open + [RightLevel(g, x)];
        var ys := Taken(g, after + a.len, more);
        TakenExactly(g, after + a.len, level, more);
        KeptPair(x, a, ys);
        BehindJoin([x, a], ys, q);
      }
    }
  }

  lemma NoneTaken(g: Setting, q: nat)
    requires Proper(g) && q <= g.end
    ensures Taken(g, q, []) == [] && Kept([]) == []
  {
  }

  // With an operator dropped not everything is kept.
  lemma DropKept(x: Piece, ys: seq<Piece>)
    requires x.OpAt? && (ys != [] ==> ys[0].OpAt?)
    ensures Kept([x] + ys) != [x] + ys
  {
    assert ([x] + ys)[1..] == ys;
    KeptLength(ys);
  }

  lemma KeptPair(x: Piece, a: Piece, ys: seq<Piece>)
    requires x.OpAt? && a.AtomAt?
    ensures Kept([x, a] + ys) == [x, a] + Kept(ys)
    ensures Kept([x, a] + ys) == [x, a] + ys <==> Kept(ys) == ys
  {
    assert ([x, a] + ys)[1..] == [a] + ys && ([a] + ys)[1..] == ys;
    assert [x] + ([a] + Kept(ys)) == [x, a] + Kept(ys);
    SameFront([x, a], Kept(ys), ys);
  }

  // Everything consumed is in the tree if and only if no accepted operator hangs.
  lemma KeptExactly(g: Setting, p: nat, level: nat)
    requires Proper(g) && p <= g.end && g.atoms(p).Just? && p + g.atoms(p).v <= g.end
    ensures var xs := Consumed(g, p, level); var q := p + g.atoms(p).v;
            Tiles(xs, p) && (Kept(xs) == xs <==> !Hangs(g, q, level))
            && (Kept(xs) == xs ==> Behind(xs, p) == ChainEnd(g, q, level))
  {
    hide Taken, Proper, Kept, ChainEnd, Hangs, Tiles, Behind;
    var a := AtomAt(p, g.atoms(p).v);
    var ys := Taken(g, p + a.len, [level]);
    TakenExactly(g, p + a.len, level, [level]);
    TakenTiles(g, p + a.len, [level]);
    FirstTiles(a, ys);
    KeptAtom(a, ys);
  }

  lemma KeptAtom(a: Piece, ys: seq<Piece>)
    requires a.AtomAt?
    ensures Kept([a] + ys) == [a] + ys <==> Kept(ys) == ys
  {
    assert ([a] + ys)[1..] == ys;
    SameFront([a], Kept(ys), ys);
  }

  lemma SameFront(f: seq<Piece>, u: seq<Piece>, v: seq<Piece>)
    ensures f + u == f + v <==> u == v
  {
    if f + u == f + v { assert u == (f + u)[|f|..] && v == (f + v)[|f|..]; }
  }

  lemma {:induction false} TilesParts(xs: seq<Piece>, ys: seq<Piece>, p: nat)
    requires Tiles(xs + ys, p)
    ensures Tiles(xs, p) && Tiles(ys, Behind(xs, p))
    decreases |xs|
  {
    if xs == [] {
      assert xs + ys == ys;
    } else {
      assert (xs + ys)[1..] == xs[1..] + ys;
      TilesParts(xs[1..], ys, p + xs[0].len);
      BehindJoin([xs[0]], xs[1..], p);
      assert [xs[0]] + xs[1..] == xs;
    }
  }

  // A tree without gaps binds as it should.
  lemma {:induction false} TiledPrecedes(g: Setting, t: Tree, p: nat)
    requires Climbs(g, t) && Tiles(Flat(t), p)
    ensures Precedes(g, t) && EndOf(t) == Behind(Flat(t), p)
    decreases t
  {
    if t.Node? {
      var l, r := Flat(t.l), Flat(t.r);
      assert Flat(t) == l + ([t.op] + r);
      TilesParts(l, [t.op] + r, p);
      TilesParts([t.op], r, Behind(l, p));
      TiledPrecedes(g, t.l, p);
      TiledPrecedes(g, t.r, Behind([t.op], Behind(l, p)));
      BehindJoin(l, [t.op] + r, p);
      BehindJoin([t.op], r, Behind(l, p));
    }
  }

  lemma TreePrecedes(g: Setting, t: Tree, p: nat, level: nat)
    requires Proper(g) && p <= g.end && g.atoms(p).Just? && p + g.atoms(p).v <= g.end && Climbs(g, t)
    requires Flat(t) == Consumed(g, p, level)
    ensures Precedes(g, t) && EndOf(t) == Behind(Consumed(g, p, level), p)
  {
    hide Climbs, Precedes, Flat, Consumed;
    KeptExactly(g, p, level);
    TiledPrecedes(g, t, p);
  }

  // ---- Left and right ----------------------------------------------------------------------------------

  // Under an operator of the table the operator of a child has a higher level, or the same
  // one on the side that the table says.
  predicate Nested(g: Setting, t: Tree)
  {
    t.Node? ==>
      t.op.OpAt? && t.op.tok in g.info && Nested(g, t.l) && Nested(g, t.r)
      && var here := g.info[t.op.tok];
         (t.l.Node? && t.l.op.OpAt? && t.l.op.tok in g.info ==>
           g.info[t.l.op.tok].level > here.level || (g.info[t.l.op.tok].level == here.level && here.left))
         && (t.r.Node? && t.r.op.OpAt? && t.r.op.tok in g.info ==>
              g.info[t.r.op.tok].level > here.level || (g.info[t.r.op.tok].level == here.level && !here.left))
  }

  lemma {:induction false} PrecedesMeans(g: Setting, t: Tree)
    ensures Precedes(g, t) <==> Nested(g, t)
    decreases t
  {
    if t.Node? {
      PrecedesMeans(g, t.l);
      PrecedesMeans(g, t.r);
    }
  }

  // All operators of the row have this level and this associativity.
  predicate OneLevel(g: Setting, xs: seq<Piece>, info: Info)
  {
    forall i :: 0 <= i < |xs| && xs[i].OpAt? ==> xs[i].tok in g.info && g.info[xs[i].tok] == info
  }

  // ((a-b)-c)-d when it is left, a^(b^(c^d)) when it is not.
  predicate Comb(t: Tree, left: bool)
  {
    t.Node? ==> if left then t.r.Atom? && Comb(t.l, left) else t.l.Atom? && Comb(t.r, left)
  }

  // Operators of one level nest to the left or to the right, as the table says.
  lemma {:induction false} OneComb(g: Setting, t: Tree, info: Info)
    requires Precedes(g, t) && OneLevel(g, Flat(t), info)
    ensures Comb(t, info.left)
    decreases t
  {
    if t.Node? {
      var l, r := Flat(t.l), Flat(t.r);
      assert l + ([t.op] + r) == Flat(t) && Flat(t)[|l|] == t.op;
      OnePart(g, l, [t.op] + r, info);
      OnePart(g, [t.op], r, info);
      RootLevel(g, t.l, info);
      RootLevel(g, t.r, info);
      if info.left { OneComb(g, t.l, info); } else { OneComb(g, t.r, info); }
    }
  }

  lemma OnePart(g: Setting, xs: seq<Piece>, ys: seq<Piece>, info: Info)
    requires OneLevel(g, xs + ys, info)
    ensures OneLevel(g, xs, info) && OneLevel(g, ys, info)
  {
    forall i | 0 <= i < |xs| ensures xs[i] == (xs + ys)[i] {}
    forall i | 0 <= i < |ys| ensures ys[i] == (xs + ys)[|xs| + i] {}
  }

  lemma RootLevel(g: Setting, t: Tree, info: Info)
    requires Precedes(g, t) && OneLevel(g, Flat(t), info)
    ensures t.Node? ==> g.info[t.op.tok] == info
  {
    if t.Node? { assert Flat(t)[|Flat(t.l)|] == t.op; }
  }

  // ---- Some inputs -----------------------------------------------------------------------------------

  function Table(): map<string, Info>
  {
    map["+" := Info(1, true), "-" := Info(1, true), "*" := Info(2, true), "^" := Info(3, false)]
  }

  // "1x2y3", with operators x and y.
  function ThreeAtoms(x: string, y: string): Setting
  {
    Setting(5, p => if p in {0, 2, 4} then Just(1) else Nothing,
            p => if p == 1 then Just(Op(1, x)) else if p == 3 then Just(Op(1, y)) else Nothing, Table())
  }

  // The operand that is open at the second operator is over before it, or takes it.
  lemma ThreeNested(x: string, y: string)
    requires x in Table() && y in Table()
    ensures var g := ThreeAtoms(x, y);
            var u, v, a, b, c := OpAt(1, 1, x), OpAt(3, 1, y), Atom(0, 1), Atom(2, 1), Atom(4, 1);
            var inner := Table()[y].level > Table()[x].level
                         || (Table()[y].level == Table()[x].level && !Table()[x].left);
            Proper(g)
            && Parsed(g, 0, 0) == (if inner then Node(a, u, Node(b, v, c)) else Node(Node(a, u, b), v, c), 5)
  {
    var g := ThreeAtoms(x, y);
    assert Proper(g);
    var u, v, a, b, d := OpAt(1, 1, x), OpAt(3, 1, y), Atom(0, 1), Atom(2, 1), AtomAt(0, 1);
    var first, second := Operand(0, a, d), Operand(RightLevel(g, u), b, u);
    assert [first] + [second] == [first, second];
    assert Shifted(g, 1, [first]) == Shifted(g, 3, [first, second]);
    if Accepts(g, 3, second.level) {
      Inner(g, first, second, v, Atom(4, 1));
    } else {
      Outer(g, first, second, v, Atom(4, 1));
    }
  }

  lemma Inner(g: Setting, first: Operand, second: Operand, v: Piece, c: Tree)
    requires Proper(g) && g.end == 5 && g.atoms(4) == Just(1) && Accepts(g, 3, second.level)
    requires v == OpPiece(g, 3) && v.len == 1 && c == Atom(4, 1)
    ensures Shifted(g, 3, [first, second]) == (Node(first.t, second.before, Node(second.t, v, c)), 5)
  {
    hide Proper;
    var third, inner := Operand(RightLevel(g, v), c, v), second.(t := Node(second.t, v, c));
    assert [first, second] + [third] == [first, second, third];
    assert Closed([first, second, third]) == [first, inner];
    assert Closed([first, inner]) == [first.(t := Node(first.t, second.before, inner.t))];
    assert Shifted(g, 5, [first, inner]) == (Node(first.t, second.before, inner.t), 5);
    assert Shifted(g, 3, [first, second]) == Shifted(g, 5, [first, second, third]);
  }

  lemma Outer(g: Setting, first: Operand, second: Operand, v: Piece, c: Tree)
    requires Proper(g) && g.end == 5 && g.atoms(4) == Just(1) && !Accepts(g, 3, second.level)
    requires Accepts(g, 3, first.level) && v == OpPiece(g, 3) && v.len == 1 && c == Atom(4, 1)
    ensures Shifted(g, 3, [first, second]) == (Node(Node(first.t, second.before, second.t), v, c), 5)
  {
    hide Proper;
    var sum, third := first.(t := Node(first.t, second.before, second.t)), Operand(RightLevel(g, v), c, v);
    assert Closed([first, second]) == [sum] && [sum] + [third] == [sum, third];
    assert Closed([sum, third]) == [first.(t := Node(sum.t, v, c))];
    assert Shifted(g, 5, [sum, third]) == (Node(sum.t, v, c), 5);
    assert Shifted(g, 3, [sum]) == Shifted(g, 5, [sum, third]);
    assert Shifted(g, 3, [first, second]) == Shifted(g, 3, [sum]);
  }

  // 1-2-3 is (1-2)-3, 1^2^3 is 1^(2^3), 1+2*3 is 1+(2*3), and 1*2+3 is (1*2)+3.
  lemma ThreeRows()
    ensures var a, b, c := Atom(0, 1), Atom(2, 1), Atom(4, 1);
            (Proper(ThreeAtoms("-", "-")) && Parsed(ThreeAtoms("-", "-"), 0, 0)
              == (Node(Node(a, OpAt(1, 1, "-"), b), OpAt(3, 1, "-"), c), 5))
            && (Proper(ThreeAtoms("^", "^")) && Parsed(ThreeAtoms("^", "^"), 0, 0)
                 == (Node(a, OpAt(1, 1, "^"), Node(b, OpAt(3, 1, "^"), c)), 5))
            && (Proper(ThreeAtoms("+", "*")) && Parsed(ThreeAtoms("+", "*"), 0, 0)
                 == (Node(a, OpAt(1, 1, "+"), Node(b, OpAt(3, 1, "*"), c)), 5))
            && (Proper(ThreeAtoms("*", "+")) && Parsed(ThreeAtoms("*", "+"), 0, 0)
                 == (Node(Node(a, OpAt(1, 1, "*"), b), OpAt(3, 1, "+"), c), 5))
  {
    hide Proper, Parsed;
    assert "-"[0] == '-' && "+"[0] == '+' && "*"[0] == '*' && "^"[0] == '^';
    assert Table()["-"] == Table()["+"] == Info(1, true) && Table()["*"] == Info(2, true);
    ThreeNested("-", "-");
    ThreeNested("^", "^");
    ThreeNested("+", "*");
    ThreeNested("*", "+");
  }

  // Of "1+" both characters are consumed, and the tree is the first.
  function OnePlusText(): Setting
  {
    Setting(2, p => if p == 0 then Just(1) else Nothing, p => if p == 1 then Just(Op(1, "+")) else Nothing, Table())
  }

  lemma OnePlus()
    ensures var g := OnePlusText();
            Proper(g) && Parsed(g, 0, 0) == (Atom(0, 1), 2) && Hangs(g, 1, 0)
            && Consumed(g, 0, 0) == [AtomAt(0, 1), OpAt(1, 1, "+")]
  {
    var g := OnePlusText();
    assert Proper(g);
    assert ChainEnd(g, 1, 0) == 1;
    var x := OpAt(1, 1, "+");
    assert [0][..0] == [];
    assert Taken(g, 1, [0]) == [x] + Taken(g, 2, []);
    assert [AtomAt(0, 1)] + [x] == [AtomAt(0, 1), x];
  }

  // Of "1+2**3" the first star is dropped, and the sum becomes an operand of the second.
  function TwoStarsText(): Setting
  {
    Setting(6, p => if p in {0, 2, 5} then Just(1) else Nothing,
            p => if p == 1 then Just(Op(1, "+")) else if p in {3, 4} then Just(Op(1, "*")) else Nothing, Table())
  }

  lemma TwoStars()
    ensures var g := TwoStarsText(); var t := Node(Node(Atom(0, 1), OpAt(1, 1, "+"), Atom(2, 1)), OpAt(4, 1, "*"),
              Atom(5, 1));
            Proper(g) && Parsed(g, 0, 0) == (t, 6) && !Precedes(g, t)
  {
    var g := TwoStarsText();
    assert Proper(g);
    var plus, star := OpAt(1, 1, "+"), OpAt(4, 1, "*");
    var sum := Node(Atom(0, 1), plus, Atom(2, 1));
    var t := Node(sum, star, Atom(5, 1));
    var b := AtomAt(0, 1);
    var o0, o1, o2, o3 := Operand(0, Atom(0, 1), b), Operand(2, Atom(2, 1), plus), Operand(0, sum, b),
                          Operand(3, Atom(5, 1), star);
    assert [o0] + [o1] == [o0, o1] && [o2] + [o3] == [o2, o3];
    assert Closed([o0, o1]) == [o2] && Closed([o2, o3]) == [Operand(0, t, b)];
    assert Shifted(g, 6, [Operand(0, t, b)]) == (t, 6);
    assert Shifted(g, 6, [o2, o3]) == (t, 6);
    assert Shifted(g, 4, [o2]) == (t, 6);
    assert Shifted(g, 3, [o0, o1]) == (t, 6);
    assert Shifted(g, 1, [o0]) == (t, 6);
  }

  // ---- There is one such tree ---------------------------------------------------------------------

  // All operators of the row have this level at least.
  predicate AllAtLeast(g: Setting, xs: seq<Piece>, level: nat)
  {
    forall i :: 0 <= i < |xs| && xs[i].OpAt? ==> LevelOf(g, xs[i]) >= level
  }

  // What holds at the root holds below it.
  lemma {:induction false} BindsAll(g: Setting, t: Tree, level: nat)
    requires Precedes(g, t) && Binds(g, t, level)
    ensures AllAtLeast(g, Flat(t), level)
    decreases t
  {
    if t.Node? {
      BindsAll(g, t.l, level);
      BindsAll(g, t.r, level);
    }
  }

  // The operator at the root, and what is on its sides.
  lemma RootIs(g: Setting, t: Tree)
    requires Precedes(g, t) && t.Node?
    ensures var xs, j := Flat(t), |Flat(t.l)|;
            j < |xs| && xs[j] == t.op && t.op.OpAt? && t.op.tok in g.info && xs[..j] == Flat(t.l)
              && xs[j + 1..] == Flat(t.r)
            && var k, left := LevelOf(g, t.op), LeftOf(g, t.op);
               AllAtLeast(g, xs[..j], if left then k else k + 1)
                 && AllAtLeast(g, xs[j + 1..], if left then k + 1 else k)
  {
    var k, left := LevelOf(g, t.op), LeftOf(g, t.op);
    BindsAll(g, t.l, if left then k else k + 1);
    BindsAll(g, t.r, if left then k + 1 else k);
  }

  // Each of two roots is on a side of the other.
  lemma Meet(g: Setting, xs: seq<Piece>, i: nat, j: nat, k: nat, k': nat)
    requires i < |xs| && j < |xs| && xs[i].OpAt? && xs[j].OpAt? && AllAtLeast(g, xs[i + 1..], k)
             && AllAtLeast(g, xs[..j], k')
    ensures i < j ==> LevelOf(g, xs[j]) >= k && LevelOf(g, xs[i]) >= k'
  {
    if i < j { assert xs[i + 1..][j - i - 1] == xs[j] && xs[..j][i] == xs[i]; }
  }

  // The root of one tree is not before that of the other.
  lemma NotBefore(g: Setting, t: Tree, u: Tree)
    requires Proper(g) && Precedes(g, t) && Precedes(g, u) && t.Node? && u.Node? && Flat(t) == Flat(u)
    ensures |Flat(t.l)| >= |Flat(u.l)|
  {
    hide Flat, Precedes;
    var xs, i, j := Flat(t), |Flat(t.l)|, |Flat(u.l)|;
    RootIs(g, t);
    RootIs(g, u);
    var k, left, k', left' := LevelOf(g, t.op), LeftOf(g, t.op), LevelOf(g, u.op), LeftOf(g, u.op);
    Meet(g, xs, i, j, if left then k + 1 else k, if left' then k' else k' + 1);
  }

  // A row of pieces has one tree in which all operators bind as they should.
  lemma {:induction false} OneTree(g: Setting, t: Tree, u: Tree)
    requires Proper(g) && Precedes(g, t) && Precedes(g, u) && Flat(t) == Flat(u)
    ensures t == u
    decreases t
  {
    if t.Node? && u.Node? {
      NotBefore(g, t, u);
      NotBefore(g, u, t);
      RootIs(g, t);
      RootIs(g, u);
      OneTree(g, t.l, u.l);
      OneTree(g, t.r, u.r);
    }
  }
}
