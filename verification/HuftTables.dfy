// The linked lookup tables of inflate.c: how a bit stream is looked up in
// them, and what it means for them to decode a set of codes.
module HuftTables {
  import opened Powers

  const BMAX: nat := 16

  // One table entry.  v is the union of the source: a value, or the number of
  // the table that an entry with 16 < e < 32 links to.
  datatype Huft = Huft(e: nat, b: nat, v: nat)

  datatype Lookup = Missing | Found(e: nat, v: nat, bits: nat)

  predicate IsLink(r: Huft)
  {
    r.e > 16 && r.e != 99
  }

  // What an entry says once `w` bits have been consumed before its table; an
  // entry marked 99 is an invalid code and has no value.
  function Leaf(r: Huft, w: nat): Lookup
  {
    Found(r.e, if r.e == 99 then 0 else r.v, w + r.b)
  }

  // The lookup loop of inflate_codes: index table t with nb bits, follow links.
  // There are masks for up to BMAX bits only, and no more bits can be dropped
  // than have been looked at.
  function Walk(tables: seq<seq<Huft>>, t: nat, nb: nat, stream: nat): Lookup
    decreases if t < |tables| then |tables| - t else 0
  {
    if t < |tables| && nb <= BMAX && Pow2(nb) <= |tables[t]| then
      var r := tables[t][Low(stream, nb)];
      if r.b > nb then Missing
      else if !IsLink(r) then Leaf(r, 0)
      else if r.v <= t then Missing
      else match Walk(tables, r.v, r.e - 16, Shr(stream, r.b))
        case Missing => Missing
        case Found(e, v, bits) => Found(e, v, r.b + bits)
    else Missing
  }

  // The tables together with what the construction knows of each of them: adW
  // bits are consumed before table t, these bits are adX, and nb more bits
  // select the entry.
  datatype Forest = Forest(tables: seq<seq<Huft>>, adW: seq<nat>, adX: seq<nat>, nb: seq<nat>)

  predicate Shape(F: Forest)
  {
    |F.adW| == |F.adX| == |F.nb| == |F.tables|
    && forall t :: 0 <= t < |F.tables| ==> Pow2(F.nb[t]) <= |F.tables[t]|
  }

  function Hit(F: Forest, t: nat, stream: nat): nat
    requires Shape(F) && t < |F.tables|
  {
    Low(Shr(stream, F.adW[t]), F.nb[t])
  }

  function HitEntry(F: Forest, t: nat, stream: nat): Huft
    requires Shape(F) && t < |F.tables|
  {
    F.tables[t][Hit(F, t, stream)]
  }

  predicate Passes(F: Forest, t: nat, stream: nat)
    requires Shape(F) && t < |F.tables|
  {
    Low(stream, F.adW[t]) == F.adX[t]
  }

  // Looking the stream up from table t on visits only tables whose address is
  // a prefix of the stream and ends with the answer f.
  predicate Good(F: Forest, t: nat, stream: nat, f: Lookup)
    requires Shape(F)
    decreases if t < |F.tables| then |F.tables| - t else 0
  {
    t < |F.tables| && Passes(F, t, stream)
    && var r := HitEntry(F, t, stream);
       r.b <= F.nb[t]
       && if IsLink(r) then
         t < r.v < |F.tables| && r.e == 16 + F.nb[r.v] && F.nb[r.v] <= BMAX && F.adW[r.v] == F.adW[t] + r.b
         && Good(F, r.v, stream, f)
       else f == Leaf(r, F.adW[t])
  }

  lemma {:induction false} GoodWalk(F: Forest, t: nat, stream: nat, f: Lookup)
    requires Shape(F) && Good(F, t, stream, f) && F.nb[t] <= BMAX
    ensures var g := Walk(F.tables, t, F.nb[t], Shr(stream, F.adW[t]));
            g.Found? && f == Found(g.e, g.v, F.adW[t] + g.bits)
    decreases |F.tables| - t
  {
    var r := HitEntry(F, t, stream);
    if IsLink(r) {
      ShrShr(stream, F.adW[t], r.b);
      GoodWalk(F, r.v, stream, f);
    }
  }

  // F' has the tables of F and perhaps more, at the same addresses.
  predicate Extends(F: Forest, F': Forest)
  {
    Shape(F) && Shape(F')
    && |F.tables| <= |F'.tables|
    && forall t :: 0 <= t < |F.tables| ==>
         F'.adW[t] == F.adW[t] && F'.adX[t] == F.adX[t] && F'.nb[t] == F.nb[t]
  }

  // A stream that meets no changed entry is looked up as before.
  lemma {:induction false} GoodFrame(F: Forest, F': Forest, t: nat, stream: nat, f: Lookup)
    requires Extends(F, F') && Good(F, t, stream, f)
    requires forall q :: 0 <= q < |F.tables| && Passes(F, q, stream) ==>
               HitEntry(F', q, stream) == HitEntry(F, q, stream)
    ensures Good(F', t, stream, f)
    decreases |F.tables| - t
  {
    var r := HitEntry(F, t, stream);
    assert HitEntry(F', t, stream) == r;
    if IsLink(r) { GoodFrame(F, F', r.v, stream, f); }
  }

  // ---- The stack of open tables --------------------------------------------------

  // u lists the tables that lead to the current one and x their addresses; each
  // links to the next.
  predicate StackOK(F: Forest, u: seq<nat>, x: seq<nat>, l: nat)
    requires Shape(F)
  {
    |u| == |x| && |u| > 0 && u[0] == 0 && x[0] == 0
    && (forall q :: 0 <= q < |u| ==> u[q] < |F.tables| && F.adX[u[q]] == x[q])
    && F.adW[u[0]] == 0
    && (forall q :: 0 <= q < |u| - 1 ==> Linked(F, u[q], u[q + 1], x[q], x[q + 1], l))
  }

  predicate Linked(F: Forest, t: nat, t': nat, x: nat, x': nat, l: nat)
    requires Shape(F) && t < |F.tables| && t' < |F.tables|
  {
    t < t' && F.adW[t'] == F.adW[t] + l && F.nb[t] == l && 0 < F.nb[t'] <= BMAX
    && Low(x', F.adW[t]) == x && x' < Pow2(F.adW[t'])
    && Low(Shr(x', F.adW[t]), l) < |F.tables[t]|
    && F.tables[t][Low(Shr(x', F.adW[t]), l)] == Huft(16 + F.nb[t'], l, t')
  }

  // A stream that passes the last table of the stack is led there from the root.
  lemma {:induction false} GoodFromTop(F: Forest, u: seq<nat>, x: seq<nat>, l: nat, q: nat, stream: nat, f: Lookup)
    requires Shape(F) && StackOK(F, u, x, l) && q < |u|
    requires Good(F, u[q], stream, f)
    ensures Good(F, 0, stream, f)
    decreases q
  {
    if q > 0 {
      var t, t' := u[q - 1], u[q];
      assert Linked(F, u[q - 1], u[q - 1 + 1], x[q - 1], x[q - 1 + 1], l);
      var w := F.adW[t];
      assert Low(stream, w + l) == x[q];
      LowSmall(x[q], w + l);
      LowEqSplit(stream, x[q], w, l);
      assert HitEntry(F, t, stream) == Huft(16 + F.nb[t'], l, t');
      GoodFromTop(F, u, x, l, q - 1, stream, f);
    }
  }
}
