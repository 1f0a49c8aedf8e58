// make_table and the decoding of a symbol (unlzh.c).
module LzhTables {
  import opened Powers
  import opened Canonical
  import opened LzhTrie

  const CODE_BIT: nat := 16

  // ---- Where the codes of each length start -----------------------------------------------------

  lemma {:induction false} CountMore(lens: seq<nat>, L: nat, n: nat)
    requires n < |lens|
    ensures CountTo(lens, L, n + 1) == CountTo(lens, L, n) + if lens[n] == L then 1 else 0
  {
  }

  lemma NoneCounted(lens: seq<nat>)
    ensures forall l :: CountTo(lens, l, 0) == 0
  {
  }

  lemma WrapAdd(x: nat, y: nat)
    ensures (x % 65536 + y) % 65536 == (x + y) % 65536
  {
  }

  method CountLengths(lens: seq<nat>, count: array<nat>)
    requires LengthsFit(lens, CODE_BIT) && count.Length == 17
    modifies count
    ensures forall l :: 1 <= l <= 16 ==> count[l] == CountTo(lens, l, |lens|)
  {
    hide CountTo;
    var i := 1;
    while i <= 16
      invariant 1 <= i <= 17 && forall l :: 1 <= l < i ==> count[l] == 0
    {
      count[i] := 0;
      i := i + 1;
    }
    i := 0;
    NoneCounted(lens);
    while i < |lens|
      invariant 0 <= i <= |lens| && forall l :: 1 <= l <= 16 ==> count[l] == CountTo(lens, l, i)
    {
      forall l | 1 <= l <= 16 ensures CountTo(lens, l, i + 1) == CountTo(lens, l, i) + if lens[i] == l then 1 else 0 {
        CountMore(lens, l, i);
      }
      count[lens[i]] := count[lens[i]] + 1;
      i := i + 1;
    }
  }

  // The first half of make_table.  The sums are kept in sixteen bits, so that what is
  // found out is whether the sum of all is a multiple of the whole.
  method Starts(lens: seq<nat>, count: array<nat>, start: array<nat>) returns (ok: bool)
    requires LengthsFit(lens, CODE_BIT) && count.Length == 17 && start.Length == 18 && count != start
    modifies count, start
    ensures ok <==> Kraft(lens, CODE_BIT) % 65536 == 0
    ensures forall l :: 1 <= l <= 17 ==> start[l] == Start(lens, CODE_BIT, l, 0) % 65536
  {
    hide Start, Pow2, CountTo;
    CountLengths(lens, count);
    start[1] := 0;
    StartFirst(lens, CODE_BIT);
    var i := 1;
    while i <= 16
      invariant 1 <= i <= 17 && forall l :: 1 <= l <= i ==> start[l] == Start(lens, CODE_BIT, l, 0) % 65536
      modifies start
    {
      StartNextLength(lens, CODE_BIT, i);
      WrapAdd(Start(lens, CODE_BIT, i, 0), count[i] * Pow2(16 - i));
      start[i + 1] := (start[i] + count[i] * Pow2(16 - i)) % 65536;
      i := i + 1;
    }
    ok := start[17] % 65536 == 0;
  }

  predicate ScaledTo(was: seq<nat>, start: seq<nat>, weight: seq<nat>, tb: nat)
    requires tb < CODE_BIT
  {
    |was| == |start| == 18 && |weight| == 17
    && (forall l :: 1 <= l <= tb ==> start[l] == Shr(was[l], CODE_BIT - tb) && weight[l] == Pow2(tb - l))
    && (forall l :: tb < l <= 17 ==> start[l] == was[l])
    && forall l :: tb < l <= CODE_BIT ==> weight[l] == Pow2(CODE_BIT - l)
  }

  // The starts of short codes are counted in entries of the table; so much is one code.
  method ScaleStarts(start: array<nat>, weight: array<nat>, tb: nat)
    requires 0 < tb < CODE_BIT && start.Length == 18 && weight.Length == 17 && start != weight
    modifies start, weight
    ensures ScaledTo(old(start[..]), start[..], weight[..], tb)
  {
    hide Shr, Pow2;
    ghost var was := start[..];
    var i := 1;
    while i <= tb
      invariant 1 <= i <= tb + 1
      invariant forall l :: 1 <= l < i ==> start[l] == Shr(was[l], CODE_BIT - tb) && weight[l] == Pow2(tb - l)
      invariant forall l :: i <= l <= 17 ==> start[l] == was[l]
    {
      start[i] := Shr(start[i], CODE_BIT - tb);
      weight[i] := Pow2(tb - i);
      i := i + 1;
    }
    while i <= CODE_BIT
      invariant tb < i <= CODE_BIT + 1
      invariant forall l :: 1 <= l <= tb ==> weight[l] == Pow2(tb - l)
      invariant forall l :: tb < l < i ==> weight[l] == Pow2(CODE_BIT - l)
      modifies weight
    {
      weight[i] := Pow2(CODE_BIT - i);
      i := i + 1;
    }
  }

  // With so few symbols there is a code that is no longer than the table is wide.
  lemma {:induction false} LongCodesAreFew(lens: seq<nat>, M: nat, tb: nat, n: nat)
    requires LengthsFit(lens, M) && tb < M && n <= |lens|
             && forall i :: 0 <= i < |lens| ==> lens[i] == 0 || lens[i] > tb
    ensures StartTo(lens, M, M + 1, 0, n) <= n * Pow2(M - tb - 1)
  {
    hide Pow2;
    if n > 0 {
      LongCodesAreFew(lens, M, tb, n - 1);
      Distribute(n - 1, 1, Pow2(M - tb - 1));
      if lens[n - 1] > 0 { Pow2Mono(M - lens[n - 1], M - tb - 1); }
    }
  }

  // Some code is looked up in the table alone.
  predicate HasShort(lens: seq<nat>, tb: nat) {
    exists i :: 0 <= i < |lens| && 0 < lens[i] <= tb
  }

  // This is so if there are no more symbols than entries.
  lemma FewSymbols(lens: seq<nat>, M: nat, tb: nat)
    requires LengthsFit(lens, M) && tb < M && |lens| <= Pow2(tb) && Kraft(lens, M) == Pow2(M)
    ensures HasShort(lens, tb)
  {
    hide Pow2;
    if !HasShort(lens, tb) {
      LongCodesAreFew(lens, M, tb, |lens|);
      MulMono(|lens|, Pow2(tb), Pow2(M - tb - 1));
      Pow2Add(tb, M - tb - 1);
      Pow2Strict(M - 1, M);
    }
  }

  lemma ShortCode(lens: seq<nat>, M: nat, tb: nat)
    requires LengthsFit(lens, M) && tb < M && HasShort(lens, tb)
    ensures Start(lens, M, tb + 1, 0) > 0
  {
    hide Pow2, StartTo;
    var i :| 0 <= i < |lens| && lens[i] != 0 && lens[i] <= tb;
    BlockEnd(lens, M, i, tb + 1, 0);
  }

  // The part of the table for the short codes.
  function Bound(k: Setting): nat
    requires Sound(k)
  {
    Shr(Start(k.lens, k.M, k.tb + 1, 0), k.M - k.tb)
  }

  lemma BoundIs(k: Setting)
    requires Sound(k)
    ensures Start(k.lens, k.M, k.tb + 1, 0) == Bound(k) * Pow2(k.M - k.tb)
  {
    hide Pow2, Start;
    StartAligned(k.lens, k.M, k.tb, |k.lens|);
    StartRoll(k.lens, k.M, k.tb);
    AlignedBlock(Start(k.lens, k.M, k.tb + 1, 0), k.M - k.tb, 0);
  }

  lemma LongBehind(k: Setting, m: nat)
    requires Sound(k) && m < |k.lens| && k.lens[m] > k.tb
    ensures Shr(BlockStart(k.lens, k.M, m), k.M - k.tb) >= Bound(k)
  {
    StartMono(k.lens, k.M, k.tb + 1, 0, k.lens[m], m);
    ShrMono(Start(k.lens, k.M, k.tb + 1, 0), BlockStart(k.lens, k.M, m), k.M - k.tb);
  }

  // ---- Where the code of a symbol starts ----------------------------------------------------------

  // The next code of length l, in units of the table if it is short; when all numbers are
  // used up, this is not looked at any more.
  ghost predicate NextIs(k: Setting, start: seq<nat>, l: nat, m: nat)
    requires Sound(k) && l < |start|
  {
    var s := Start(k.lens, k.M, l, m);
    s < Pow2(k.M) ==> start[l] == if l <= k.tb then Shr(s, k.M - k.tb) else s
  }

  lemma NextAfter(k: Setting, start: seq<nat>, m: nat, l: nat)
    requires Sound(k) && m < |k.lens| && 0 < l <= k.M < |start| && NextIs(k, start, l, m)
    requires var s := Start(k.lens, k.M, l, m); l == k.lens[m] ==> s < Pow2(k.M)
    ensures var len := k.lens[m]; var w := if len <= k.tb then k.tb - len else k.M - len;
            len > 0 ==> NextIs(k, start[len := start[len] + Pow2(w)], l, m + 1)
    ensures k.lens[m] == 0 ==> NextIs(k, start, l, m + 1)
  {
    hide Pow2, Shr, Start;
    var len, d := k.lens[m], k.M - k.tb;
    StartStep(k.lens, k.M, l, m);
    if len == l && l <= k.tb {
      Pow2Add(k.tb - l, d);
      LowAddMultiple(Start(k.lens, k.M, l, m), Pow2(k.tb - l), d);
    }
  }

  // The starts after a symbol.
  function Advanced(k: Setting, start: seq<nat>, m: nat): seq<nat>
    requires Sound(k) && m < |k.lens| && k.lens[m] < |start|
  {
    var len := k.lens[m];
    if len == 0 then start
    else start[len := (start[len] + Pow2(if len <= k.tb then k.tb - len else k.M - len)) % 65536]
  }

  lemma NextAll(k: Setting, start: seq<nat>, m: nat)
    requires Sound(k) && k.M == CODE_BIT && m < |k.lens| && |start| == 18
    requires forall l :: 1 <= l <= CODE_BIT ==> NextIs(k, start, l, m)
    requires k.lens[m] > 0 ==> BlockStart(k.lens, k.M, m) < Pow2(k.M)
    ensures var next, m' := Advanced(k, start, m), m + 1;
            |next| == 18 && forall l :: 1 <= l <= CODE_BIT ==> NextIs(k, next, l, m')
  {
    hide Start, NextIs, Pow2;
    var len, next, m' := k.lens[m], Advanced(k, start, m), m + 1;
    forall l | 1 <= l <= CODE_BIT ensures NextIs(k, next, l, m') {
      NextAfter(k, start, m, l);
      if len > 0 {
        var x := start[len := start[len] + Pow2(if len <= k.tb then k.tb - len else k.M - len)];
        NextWraps(k, x, len, l, m');
        assert next == x[len := x[len] % 65536];
      }
    }
  }

  // What one code of each length takes.
  predicate Widths(k: Setting, weight: seq<nat>)
    requires Sound(k)
  {
    k.M < |weight| && forall l :: 1 <= l <= k.M ==> weight[l] == Pow2(if l <= k.tb then k.tb - l else k.M - l)
  }

  // ---- Cells that hold numbers of cells ----------------------------------------------------------

  ghost predicate Tame(c: Cells)
  {
    |c.left| == |c.right| && forall at :: InCells(c, at) ==> Get(c, at) < |c.left|
  }

  lemma TameSet(c: Cells, at: Cell, v: nat)
    requires Tame(c) && InCells(c, at) && v < |c.left|
    ensures Tame(Set(c, at, v))
  {
    hide Get, Set, InCells;
    SetSizes(c, at, v);
    forall b | InCells(Set(c, at, v), b) ensures Get(Set(c, at, v), b) < |c.left| {
      SetBack(c, at, v, b);
      SetGet(c, at, v, b);
    }
  }

  lemma SetBack(c: Cells, at: Cell, v: nat, b: Cell)
    requires InCells(c, at) && InCells(Set(c, at, v), b)
    ensures InCells(c, b)
  {
  }

  lemma TameNode(c: Cells, avail: nat, at: Cell)
    requires Tame(c) && avail < |c.left| && InCells(c, at)
    ensures Tame(NewNode(c, avail, at)) && |NewNode(c, avail, at).left| == |c.left|
    ensures InCells(NewNode(c, avail, at), at) && Get(NewNode(c, avail, at), at) == avail
  {
    hide Tame;
    TameSizes(c);
    var c1 := c.(right := c.right[avail := 0]);
    TameSet(c, InRight(avail), 0);
    TameSet(c1, InLeft(avail), 0);
    TameSet(c1.(left := c1.left[avail := 0]), at, avail);
    SetSizes(c1.(left := c1.left[avail := 0]), at, avail);
    SetGet(c1.(left := c1.left[avail := 0]), at, avail, at);
  }

  lemma TameSizes(c: Cells)
    requires Tame(c)
    ensures |c.left| == |c.right|
  {
  }

  lemma TameCleared(c: Cells, c': Cells, from: nat)
    requires Tame(c) && c'.left == c.left && c'.right == c.right && |c'.table| == |c.table| && |c.left| > 0
    requires from <= |c.table| && forall i :: 0 <= i < |c.table| ==> c'.table[i] == if i < from then c.table[i] else 0
    ensures Tame(c')
  {
    forall at | InCells(c', at) ensures Get(c', at) < |c'.left| {
      assert InCells(c, at) && Get(c, at) < |c.left|;
    }
  }

  lemma TameGet(c: Cells, at: Cell)
    requires Tame(c) && InCells(c, at)
    ensures Get(c, at) < |c.left| == |c.right|
  {
  }

  lemma TameFilled(c: Cells, c': Cells, from: nat, to: nat, v: nat)
    requires Tame(c) && c'.left == c.left && c'.right == c.right && FilledWith(c.table, c'.table, from, to, v)
    requires v < |c.left|
    ensures Tame(c')
  {
    forall at | InCells(c', at) ensures Get(c', at) < |c'.left| {
      assert InCells(c, at) && Get(c, at) < |c.left|;
    }
  }

  // ---- Where writing stays inside the table --------------------------------------------------------

  // Where the codes of a short length are entered when the first m symbols have theirs.
  function Cursor(k: Setting, l: nat, m: nat): nat
    requires Sound(k) && 0 < l <= k.tb && m <= |k.lens|
  {
    Shr(Start(k.lens, k.M, l, 0) % 65536, k.M - k.tb) + CountTo(k.lens, l, m) * Pow2(k.tb - l)
  }

  // For every length that is looked up in the table alone, its codes end inside it.
  ghost predicate Inside(lens: seq<nat>, tb: nat)
    requires LengthsFit(lens, CODE_BIT) && tb <= CODE_BIT
  {
    forall l: nat :: 0 < l <= tb ==> EndsInside(lens, l)
  }

  predicate EndsInside(lens: seq<nat>, l: nat)
    requires LengthsFit(lens, CODE_BIT) && 0 < l <= CODE_BIT
  {
    Start(lens, CODE_BIT, l, 0) % 65536 + Count(lens, l) * Pow2(CODE_BIT - l) <= 65536
  }

  lemma ModIsLow(x: nat)
    ensures x % 65536 == Low(x, CODE_BIT)
  {
    hide Low, Shr, Pow2;
    Pow16();
    Split(x, CODE_BIT);
  }

  lemma CursorEnd(k: Setting, l: nat)
    requires Sound(k) && k.M == CODE_BIT && 0 < l <= k.tb
    ensures Cursor(k, l, |k.lens|) <= Pow2(k.tb) <==> EndsInside(k.lens, l)
  {
    hide Low, Shr, Pow2, Start, CountTo;
    var s, d, n := Start(k.lens, k.M, l, 0), k.M - k.tb, Count(k.lens, l);
    Pow16();
    ModIsLow(s);
    StartAligned(k.lens, k.M, l, 0);
    LowLow(s, k.M - l, CODE_BIT);
    LowLow(s % 65536, d, k.M - l);
    LowZero(d);
    Split(s % 65536, d);
    Pow2Add(k.tb - l, d);
    Pow2Add(k.tb, d);
    CursorScaled(Shr(s % 65536, d), n, Pow2(k.tb - l), Pow2(d), Pow2(k.tb));
  }

  lemma CursorScaled(a: nat, n: nat, w: nat, d: nat, t: nat)
    requires d > 0
    ensures a + n * w <= t <==> a * d + n * (w * d) <= t * d
  {
    assert (a + n * w) * d == a * d + n * (w * d);
    if a + n * w <= t { MulMono(a + n * w, t, d); } else { MulMono(t + 1, a + n * w, d); }
  }

  lemma CursorStep(k: Setting, l: nat, m: nat)
    requires Sound(k) && 0 < l <= k.tb && m < |k.lens|
    ensures Cursor(k, l, m + 1) == Cursor(k, l, m) + if k.lens[m] == l then Pow2(k.tb - l) else 0
  {
    hide Shr, Pow2, Start, CountTo;
    CountMore(k.lens, l, m);
    Distribute(CountTo(k.lens, l, m), 1, Pow2(k.tb - l));
  }

  lemma {:induction false} CursorGrows(k: Setting, l: nat, m: nat, n: nat)
    requires Sound(k) && 0 < l <= k.tb && m <= n <= |k.lens|
    ensures Cursor(k, l, m) <= Cursor(k, l, n)
    decreases n - m
  {
    hide Cursor, Pow2;
    if m < n {
      CursorStep(k, l, m);
      CursorGrows(k, l, m + 1, n);
    }
  }

  // A set with a Kraft sum of one at most is entered inside.
  lemma SmallInside(lens: seq<nat>, tb: nat)
    requires LengthsFit(lens, CODE_BIT) && tb < CODE_BIT && Kraft(lens, CODE_BIT) <= 65536
    ensures Inside(lens, tb)
  {
    hide Start, Pow2, CountTo;
    forall l: nat | 0 < l <= tb ensures EndsInside(lens, l) {
      StartNextLength(lens, CODE_BIT, l);
      StartMono(lens, CODE_BIT, l + 1, 0, CODE_BIT + 1, 0);
    }
  }

  // Two sets with a Kraft sum of two are accepted.  Four codes of one bit are written beyond
  // the table; with two codes of one bit and four of two bits everything stays inside.
  lemma FourOnes(tb: nat)
    requires 0 < tb < CODE_BIT
    ensures LengthsFit([1, 1, 1, 1], CODE_BIT) && Kraft([1, 1, 1, 1], CODE_BIT) == 2 * 65536
    ensures !Inside([1, 1, 1, 1], tb)
  {
    hide Start, Pow2;
    var lens := [1, 1, 1, 1];
    FirstBits();
    StartFirst(lens, CODE_BIT);
    StartNextLength(lens, CODE_BIT, 1);
    CountsOfFour();
    NoneLonger(lens, 1, CODE_BIT);
    assert !EndsInside(lens, 1);
  }

  lemma OnesAndTwos(tb: nat)
    requires 0 < tb < CODE_BIT
    ensures LengthsFit([1, 1, 2, 2, 2, 2], CODE_BIT) && Kraft([1, 1, 2, 2, 2, 2], CODE_BIT) == 2 * 65536
    ensures Inside([1, 1, 2, 2, 2, 2], tb)
  {
    hide Start, Pow2, CountTo;
    var lens := [1, 1, 2, 2, 2, 2];
    FirstBits();
    StartFirst(lens, CODE_BIT);
    StartNextLength(lens, CODE_BIT, 1);
    StartNextLength(lens, CODE_BIT, 2);
    CountsOfSix();
    NoneLonger(lens, 2, CODE_BIT);
    forall l: nat | 0 < l <= tb ensures EndsInside(lens, l) {
      if l > 2 {
        NoneOf(lens, l, |lens|);
        NoneLonger(lens, 2, l - 1);
      }
    }
  }

  lemma FirstBits()
    ensures Pow2(15) == 32768 && Pow2(14) == 16384
  {
    Pow15();
    assert Pow2(15) == 2 * Pow2(14);
  }

  lemma CountsOfFour()
    ensures Count([1, 1, 1, 1], 1) == 4
  {
    var lens := [1, 1, 1, 1];
    CountMore(lens, 1, 0);
    CountMore(lens, 1, 1);
    CountMore(lens, 1, 2);
    CountMore(lens, 1, 3);
  }

  lemma CountsOfSix()
    ensures Count([1, 1, 2, 2, 2, 2], 1) == 2 && Count([1, 1, 2, 2, 2, 2], 2) == 4
  {
    var lens := [1, 1, 2, 2, 2, 2];
    forall l | l in {1, 2} ensures CountTo(lens, l, 6) == if l == 1 then 2 else 4 {
      CountMore(lens, l, 0);
      CountMore(lens, l, 1);
      CountMore(lens, l, 2);
      CountMore(lens, l, 3);
      CountMore(lens, l, 4);
      CountMore(lens, l, 5);
    }
  }

  lemma {:induction false} NoneOf(lens: seq<nat>, l: nat, n: nat)
    requires n <= |lens| && forall i :: 0 <= i < |lens| ==> lens[i] < l
    ensures CountTo(lens, l, n) == 0
  {
    if n > 0 { NoneOf(lens, l, n - 1); }
  }

  // Behind the longest length nothing is added.
  lemma {:induction false} NoneLonger(lens: seq<nat>, max: nat, l: nat)
    requires LengthsFit(lens, CODE_BIT) && 0 < max <= l <= CODE_BIT && forall i :: 0 <= i < |lens| ==> lens[i] <= max
    ensures Start(lens, CODE_BIT, l + 1, 0) == Start(lens, CODE_BIT, max + 1, 0)
    decreases l
  {
    hide Start, Pow2, CountTo;
    if l > max {
      NoneLonger(lens, max, l - 1);
      NoneOf(lens, l, |lens|);
      StartNextLength(lens, CODE_BIT, l);
    }
  }

  // ---- Cells of the arrays ----------------------------------------------------------------------

  // The error exit, tables that are finished, and a symbol beyond the table.
  datatype Made = BadTable | Finished | Beyond

  class Tables {
    const table: array<nat>
    const left: array<nat>
    const right: array<nat>

    predicate Separate()
    {
      table != left && table != right && left != right && left.Length == right.Length
    }

    ghost function All(): Cells
      reads table, left, right
    {
      Cells(table[..], left[..], right[..])
    }

    constructor (t: array<nat>, l: array<nat>, r: array<nat>)
      ensures table == t && left == l && right == r
    {
      table, left, right := t, l, r;
    }

    method Read(at: Cell) returns (v: nat)
      requires InCells(All(), at)
      ensures v == Get(All(), at)
    {
      match at
      case InTable(i) => v := table[i];
      case InLeft(n) => v := left[n];
      case InRight(n) => v := right[n];
    }

    method Write(at: Cell, v: nat)
      requires Separate() && InCells(All(), at)
      modifies table, left, right
      ensures All() == Set(old(All()), at, v)
    {
      match at
      case InTable(i) => table[i] := v;
      case InLeft(n) => left[n] := v;
      case InRight(n) => right[n] := v;
    }

    // A node with two empty cells.
    method Node(avail: nat, at: Cell)
      requires Separate() && avail < left.Length && InCells(All(), at)
      modifies table, left, right
      ensures All() == NewNode(old(All()), avail, at)
    {
      right[avail] := 0;
      left[avail] := 0;
      Write(at, avail);
    }

    // All places of the table that belong to a short code.
    method Fill(from: nat, to: nat, ch: nat)
      requires Separate() && from <= to <= table.Length
      modifies table
      ensures FilledWith(old(table[..]), table[..], from, to, ch)
    {
      var i := from;
      while i < to
        invariant from <= i <= to && FilledWith(old(table[..]), table[..], from, i, ch)
      {
        table[i] := ch;
        i := i + 1;
      }
    }

    // The path of a long code: from the table on, a node is made where none is.  The tables
    // are good when the Kraft sum of the lengths is one and some code is short.
    method Descend(k: Setting, code: nat, ch: nat, avail0: nat, ghost good: bool, ghost bound: nat, ghost nodes0: Nodes)
      returns (at: Cell, avail: nat, ghost nodes: Nodes)
      requires Separate() && Tame(All()) && Sound(k) && ch < |k.lens| && k.lens[ch] > k.tb && code < Pow2(k.M)
      requires good ==> Built(k, bound, All(), nodes0, avail0, ch, ch + 1) && code == BlockStart(k.lens, k.M, ch)
                        && bound == Bound(k)
      requires avail0 + (k.M - k.tb) <= left.Length && table.Length == Pow2(k.tb)
      modifies table, left, right
      ensures Tame(All()) && InCells(All(), at) && avail <= avail0 + (k.M - k.tb)
      ensures good ==> Built(k, bound, All(), nodes, avail, ch, ch + 1) && PathOK(k, nodes, ch, k.lens[ch])
      ensures good ==> HasCell(nodes, k.tb, PrefixOf(k, ch, k.lens[ch]))
                       && at == Where(nodes, k.tb, PrefixOf(k, ch, k.lens[ch]))
    {
      hide Pow2, Shr, Start, Through, CellOK, NodeOK, Injective, Where, HasCell, Get, NewNode, Bound, Tame, Built,
        PathOK;
      NoShift(code);
      nodes, avail := nodes0, avail0;
      var kk, i := code, k.lens[ch] - k.tb;
      at := InTable(Shr(kk, k.M - k.tb));
      ShrBound(code, k.M - k.tb, k.tb);
      if good { StartOfPath(k, bound, nodes, ch); }
      ghost var l := k.tb;
      while i != 0
        invariant k.tb <= l <= k.lens[ch] && i == k.lens[ch] - l && kk == code * Pow2(l - k.tb)
        invariant Tame(All()) && InCells(All(), at) && avail <= avail0 + (l - k.tb)
        invariant good ==> HasCell(nodes, k.tb, PrefixOf(k, ch, l)) && at == Where(nodes, k.tb, PrefixOf(k, ch, l))
        invariant good ==> Built(k, bound, All(), nodes, avail, ch, ch + 1) && PathOK(k, nodes, ch, l)
        decreases i
      {
        ghost var q := PrefixOf(k, ch, l);
        if good { BeforeNode(k, bound, All(), nodes, avail, ch, l); }
        var v := Read(at);
        if v == 0 {
          TameNode(All(), avail, at);
          if good { WithNode(k, bound, All(), nodes, avail, ch, l); }
          Node(avail, at);
          nodes := nodes[q := avail];
          avail := avail + 1;
        }
        var n := Read(at);
        TameGet(All(), at);
        if good { AfterNode(k, bound, All(), nodes, avail, ch, l, kk); }
        at := if Shr(kk, k.M - 1 - k.tb) % 2 == 1 then InRight(n) else InLeft(n);
        DoubleTimes(code, l - k.tb);
        kk := 2 * kk;
        i := i - 1;
        l := l + 1;
      }
    }

    // The zeros behind the short codes.
    method Clear(from: nat)
      requires Separate() && from <= table.Length && Tame(All()) && left.Length > 0
      modifies table
      ensures Tame(All())
      ensures forall i :: from <= i < table.Length ==> table[i] == 0
    {
      ghost var was := All();
      var i := from;
      while i != table.Length
        invariant from <= i <= table.Length && forall j :: from <= j < i ==> table[j] == 0
        invariant forall j :: 0 <= j < from ==> table[j] == was.table[j]
        decreases table.Length - i
      {
        table[i] := 0;
        i := i + 1;
      }
      TameCleared(was, All(), from);
    }

    // One symbol with its code, unless there is no room for it in the table.
    method Enter(k: Setting, start: array<nat>, ch: nat, avail0: nat, ghost good: bool, ghost nodes0: Nodes)
      returns (ok: bool, avail: nat, ghost nodes: Nodes)
      requires Separate() && Tame(All()) && Sound(k) && ch < |k.lens| && k.lens[ch] > 0 && k.lens[ch] < start.Length
      requires start[k.lens[ch]] < Pow2(k.M) && |k.lens| <= left.Length && table.Length == Pow2(k.tb)
      requires good ==> Built(k, Bound(k), All(), nodes0, avail0, ch, ch) && NextIs(k, start[..], k.lens[ch], ch)
                        && BlockStart(k.lens, k.M, ch) + Pow2(k.M - k.lens[ch]) <= Pow2(k.M)
      requires avail0 + (k.M - k.tb) <= left.Length && start != table && start != left && start != right
      modifies table, left, right
      ensures Tame(All()) && avail <= avail0 + (k.M - k.tb)
      ensures ok <==> (k.lens[ch] <= k.tb ==> start[k.lens[ch]] + Pow2(k.tb - k.lens[ch]) <= table.Length)
      ensures good ==> ok && Built(k, Bound(k), All(), nodes, avail, ch + 1, ch + 1)
    {
      hide Pow2, Shr, Start, CellOK, NodeOK, Injective, Where, HasCell, Get, InCells, Bound, PathOK, Tame, Built;
      nodes, avail := nodes0, avail0;
      ghost var c := All();
      var len := k.lens[ch];
      if good { CodeNow(k, start[..], ch); }
      if len <= k.tb {
        var nextcode := start[len] + Pow2(k.tb - len);
        ok := nextcode <= table.Length;
        if !ok { return; }
        Fill(start[len], nextcode, ch);
        TameFilled(c, All(), start[len], nextcode, ch);
        if good { ShortSymbol(k, Bound(k), c, All(), nodes, avail, ch); }
      } else {
        ok := true;
        if good { MayPass(k, Bound(k), c, nodes, avail, ch); }
        var at;
        at, avail, nodes := Descend(k, start[len], ch, avail, good, Bound(k), nodes);
        if good { LongSymbol(k, Bound(k), All(), nodes, avail, ch); }
        TameSet(All(), at, ch);
        Write(at, ch);
      }
    }

    // Every number is decoded to the symbol whose code it begins with.
    ghost predicate Decodes(k: Setting)
      requires Sound(k)
      reads table, left, right
    {
      forall a: nat, w: nat :: a < |k.lens| && w < Pow2(k.M) && Owns(k.lens, k.M, a, w) ==>
        Shr(w, k.M - k.tb) < table.Length && Decoded(k, All(), w) == a
    }

    // The symbols one after the other.
    method EnterAll(k: Setting, start: array<nat>, weight: array<nat>, ghost good: bool) returns (ok: bool)
      requires Separate() && Tame(All()) && Sound(k) && k.M == CODE_BIT && table.Length == Pow2(k.tb)
      requires start.Length == 18 && weight.Length == 17 && start != table && start != left && start != right
               && weight != start
      requires weight != table && weight != left && weight != right
      requires Starting(k, start[..], 0) && forall l :: 1 <= l <= CODE_BIT ==> NextIs(k, start[..], l, 0)
      requires Widths(k, weight[..])
      requires good ==> Kraft(k.lens, k.M) <= Pow2(k.M) && forall i :: Bound(k) <= i < table.Length ==> table[i] == 0
      requires left.Length >= |k.lens| * (k.M + 1 - k.tb)
      modifies table, left, right, start
      ensures Tame(All()) && (good ==> ok && Decodes(k)) && (ok <==> Inside(k.lens, k.tb))
      ensures !AnyCode(k.lens) ==> All() == old(All())
    {
      hide Start, CellOK, NodeOK, Injective, Where, HasCell, Get, InCells, Bound, PathOK, Built, NextIs, Shr, Pow2,
        Decoded, Tame, Inside, Starting;
      ghost var nodes: Nodes := map[];
      var avail: nat, ch: nat := |k.lens|, 0;
      RoomAtFirst(|k.lens|, k.M - k.tb);
      if good { NothingBuilt(k, Bound(k), All()); }
      while ch < |k.lens|
        invariant 0 <= ch <= |k.lens| && avail <= |k.lens| + ch * (k.M - k.tb)
        invariant Tame(All()) && Starting(k, start[..], ch) && Widths(k, weight[..])
        invariant good ==> Built(k, Bound(k), All(), nodes, avail, ch, ch)
        invariant good ==> forall l :: 1 <= l <= CODE_BIT ==> NextIs(k, start[..], l, ch)
        invariant !AnyCode(k.lens) ==> All() == old(All())
      {
        var len := k.lens[ch];
        RoomFor(|k.lens|, ch, k.M - k.tb, avail, left.Length);
        ghost var was := start[..];
        if len == 0 {
          if good {
            NoCode(k, Bound(k), All(), nodes, avail, ch);
            NextAll(k, was, ch);
          }
          StartingNext(k, was, ch);
        } else {
          assert AnyCode(k.lens);
          StartingNow(k, was, ch);
          if good { BlockInside(k.lens, k.M, ch); }
          ok, avail, nodes := Enter(k, start, ch, avail, good, nodes);
          if !ok {
            StartingOver(k, was, ch);
            return;
          }
          start[len] := (start[len] + weight[len]) % 65536;
          StartingNext(k, was, ch);
          if good { NextAll(k, was, ch); }
          assert start[..] == Advanced(k, was, ch);
        }
        ch := ch + 1;
      }
      ok := true;
      StartingDone(k, start[..]);
      if good { DecodesAll(k, nodes, avail); }
    }

    lemma DecodesAll(k: Setting, nodes: Nodes, avail: nat)
      requires Sound(k) && Built(k, Bound(k), All(), nodes, avail, |k.lens|, |k.lens|)
      ensures Decodes(k)
    {
      hide Built, Shr, Pow2, Owns, Decoded;
      forall a: nat, w: nat | a < |k.lens| && w < Pow2(k.M) && Owns(k.lens, k.M, a, w)
        ensures Shr(w, k.M - k.tb) < table.Length && Decoded(k, All(), w) == a
      {
        DecodesOwner(k, Bound(k), All(), nodes, avail, a, w);
      }
    }

    // make_table.  A set of lengths with a Kraft sum of one, and a code that is looked up in
    // the table alone, is turned into tables that decode every number to the symbol whose
    // code it begins with.  Of the other sets that are accepted, some are written beyond
    // the table; there the model stops.
    method Make(lens: seq<nat>, tb: nat) returns (made: Made)
      requires Separate() && Tame(All()) && LengthsFit(lens, CODE_BIT) && |lens| > 0 && 0 < tb < CODE_BIT
      requires table.Length == Pow2(tb) && left.Length >= |lens| * (CODE_BIT + 1 - tb)
      modifies table, left, right
      ensures Tame(All())
      ensures made == BadTable <==> Kraft(lens, CODE_BIT) % 65536 != 0
      ensures made == Beyond <==> Kraft(lens, CODE_BIT) % 65536 == 0 && !Inside(lens, tb)
      ensures Kraft(lens, CODE_BIT) <= Pow2(CODE_BIT) ==> made != Beyond
      ensures Kraft(lens, CODE_BIT) == Pow2(CODE_BIT) && HasShort(lens, tb) ==>
                made == Finished && Decodes(Setting(lens, CODE_BIT, tb))
      ensures Kraft(lens, CODE_BIT) == 0 || made == BadTable ==> All() == old(All())
    {
      hide Start, Bound, NextIs, Shr, Decodes, Pow2, Tame, Inside, Starting, Get, ScaledTo, Widths, HasShort, AnyCode;
      Pow16();
      var count, start, weight := new nat[17], new nat[18], new nat[17];
      var ok := Starts(lens, count, start);
      if !ok { return BadTable; }
      var k := Setting(lens, CODE_BIT, tb);
      ghost var was := start[..];
      ScaleStarts(start, weight, tb);
      var i := Shr(start[tb + 1], CODE_BIT - tb);
      StartsAt(was, start[..], weight[..], tb);
      ghost var good := Kraft(lens, CODE_BIT) == Pow2(CODE_BIT) && HasShort(lens, tb);
      ShrBound(start[tb + 1], CODE_BIT - tb, tb);
      if good { BoundFound(k, start[tb + 1], i); }
      NoCodes(lens, CODE_BIT);
      if Kraft(lens, CODE_BIT) == 0 { NothingToClear(k, start[tb + 1], i); }
      if i != 0 { Clear(i); }
      StartingFirst(k, start[..], was, weight[..]);
      ok := EnterAll(k, start, weight, good);
      if Kraft(lens, CODE_BIT) <= Pow2(CODE_BIT) { SmallInside(lens, tb); }
      made := if ok then Finished else Beyond;
    }

    // decode_c and decode_p: the symbol whose code the bits in the buffer begin with.
    method Decode(k: Setting, bitbuf: nat) returns (j: nat)
      requires Sound(k) && Decodes(k) && bitbuf < Pow2(k.M) && Kraft(k.lens, k.M) == Pow2(k.M)
      requires left.Length == right.Length
      ensures j < |k.lens| && Owns(k.lens, k.M, j, bitbuf)
    {
      hide Shr, Pow2, Owns, Walk, Start;
      ghost var c := All();
      ghost var a := FindOwner(k.lens, k.M, k.M + 1, 0, bitbuf);
      assert Shr(bitbuf, k.M - k.tb) < table.Length && Decoded(k, c, bitbuf) == a;
      j := table[Shr(bitbuf, k.M - k.tb)];
      var l := k.tb;
      while j >= |k.lens|
        invariant k.tb <= l <= k.M && Walk(k, c, j, bitbuf, l) == a
        decreases k.M - l
      {
        WalkGoesOn(k, c, j, bitbuf, l);
        j := if Shr(bitbuf, k.M - 1 - l) % 2 == 1 then right[j] else left[j];
        l := l + 1;
      }
      WalkAtSymbol(k, c, j, bitbuf, l);
    }
  }

  // ---- The tables while they are good --------------------------------------------------------------

  lemma StartOfPath(k: Setting, bound: nat, nodes: Nodes, ch: nat)
    requires Sound(k) && ch < |k.lens| && k.lens[ch] > k.tb && BlockStart(k.lens, k.M, ch) < Pow2(k.M)
    ensures var q := PrefixOf(k, ch, k.tb);
            HasCell(nodes, k.tb, q) && Where(nodes, k.tb, q) == InTable(Shr(BlockStart(k.lens, k.M, ch), k.M - k.tb))
            && PathOK(k, nodes, ch, k.tb)
  {
    FirstCell(k, nodes, ch);
  }

  // The cell on the way is empty or leads to a node.
  lemma BeforeNode(k: Setting, bound: nat, c: Cells, nodes: Nodes, avail: nat, ch: nat, l: nat)
    requires Built(k, bound, c, nodes, avail, ch, ch + 1) && ch < |k.lens| && k.tb <= l < k.lens[ch]
             && bound == Bound(k)
    requires HasCell(nodes, k.tb, PrefixOf(k, ch, l))
    ensures var q := PrefixOf(k, ch, l);
            InCells(c, Where(nodes, k.tb, q)) && Get(c, Where(nodes, k.tb, q)) == (if q in nodes then nodes[q] else 0)
            && (q in nodes ==> 0 < nodes[q])
  {
    hide Pow2, Shr, Start, Through, CellOK, NodeOK, Injective, Where, HasCell, Get, InCells, NewNode, Bound, Built,
      PathOK;
    OnePath(k, bound, c, nodes, avail, ch);
    var q := PrefixOf(k, ch, l);
    GoesThrough(k, ch, l);
    LongBehind(k, ch);
    OnTheWay(k, bound, c, nodes, avail, ch, q);
    CellOf(k, bound, c, nodes, avail, ch, ch + 1, q);
    IdOfNode(k, bound, c, nodes, avail, ch, q);
  }

  lemma OnePath(k: Setting, bound: nat, c: Cells, nodes: Nodes, avail: nat, ch: nat)
    requires Built(k, bound, c, nodes, avail, ch, ch + 1)
    ensures Sound(k) && ch + 1 <= |k.lens|
  {
  }

  lemma WithNode(k: Setting, bound: nat, c: Cells, nodes: Nodes, avail: nat, ch: nat, l: nat)
    requires Built(k, bound, c, nodes, avail, ch, ch + 1) && ch < |k.lens| && k.tb <= l < k.lens[ch]
             && bound == Bound(k)
    requires HasCell(nodes, k.tb, PrefixOf(k, ch, l)) && PathOK(k, nodes, ch, l) && avail < |c.left|
    requires Get(c, Where(nodes, k.tb, PrefixOf(k, ch, l))) == 0
    ensures var q := PrefixOf(k, ch, l); var nodes' := nodes[q := avail];
            HasCell(nodes', k.tb, q) && Where(nodes', k.tb, q) == Where(nodes, k.tb, q)
            && Built(k, bound, NewNode(c, avail, Where(nodes, k.tb, q)), nodes', avail + 1, ch, ch + 1)
            && PathOK(k, nodes', ch, l)
  {
    hide Pow2, Shr, Start, Through, CellOK, NodeOK, Injective, Where, HasCell, Get, InCells, NewNode, Bound, Built,
      PathOK;
    OnePath(k, bound, c, nodes, avail, ch);
    var q := PrefixOf(k, ch, l);
    BeforeNode(k, bound, c, nodes, avail, ch, l);
    GoesThrough(k, ch, l);
    PathStays(k, nodes, avail, ch, l, q);
    NodeMade(k, bound, c, nodes, avail, ch, q);
    CellStays(k, nodes, avail, q, q);
  }

  lemma PathStays(k: Setting, nodes: Nodes, avail: nat, ch: nat, l: nat, q: Prefix)
    requires Sound(k) && PathOK(k, nodes, ch, l)
    ensures PathOK(k, nodes[q := avail], ch, l)
  {
  }

  lemma PathLonger(k: Setting, nodes: Nodes, ch: nat, l: nat)
    requires Sound(k) && ch < |k.lens| && l <= k.M && PathOK(k, nodes, ch, l) && PrefixOf(k, ch, l) in nodes
    ensures PathOK(k, nodes, ch, l + 1)
  {
    hide Shr, Start;
  }

  // And from the node the next bit leads on.
  lemma AfterNode(k: Setting, bound: nat, c: Cells, nodes: Nodes, avail: nat, ch: nat, l: nat, kk: nat)
    requires Built(k, bound, c, nodes, avail, ch, ch + 1) && ch < |k.lens| && k.tb <= l < k.lens[ch]
    requires HasCell(nodes, k.tb, PrefixOf(k, ch, l)) && PathOK(k, nodes, ch, l) && PrefixOf(k, ch, l) in nodes
    requires kk == BlockStart(k.lens, k.M, ch) * Pow2(l - k.tb)
    ensures var at := Where(nodes, k.tb, PrefixOf(k, ch, l)); var q := PrefixOf(k, ch, l + 1);
            InCells(c, at) && HasCell(nodes, k.tb, q) && PathOK(k, nodes, ch, l + 1)
            && Where(nodes, k.tb, q)
               == if Shr(kk, k.M - 1 - k.tb) % 2 == 1 then InRight(Get(c, at)) else InLeft(Get(c, at))
  {
    hide Pow2, Shr, Start, Through, CellOK, NodeOK, Injective, Where, HasCell, Get, InCells, Bound, Built, PathOK;
    OnePath(k, bound, c, nodes, avail, ch);
    var p, q := PrefixOf(k, ch, l), PrefixOf(k, ch, l + 1);
    CellOf(k, bound, c, nodes, avail, ch, ch + 1, p);
    NodeCell(k, bound, c, nodes, ch, p);
    IdOfNode(k, bound, c, nodes, avail, ch, p);
    NextBit(k, ch, l, kk);
    NextCell(k, nodes, c, p, q);
    CellIs(k, nodes, p, q);
    PathLonger(k, nodes, ch, l);
  }

  // The next code of this length is that of the symbol, and it fits.
  lemma CodeNow(k: Setting, start: seq<nat>, ch: nat)
    requires Sound(k) && ch < |k.lens| && k.lens[ch] > 0 && k.lens[ch] < |start| && NextIs(k, start, k.lens[ch], ch)
    requires BlockStart(k.lens, k.M, ch) + Pow2(k.M - k.lens[ch]) <= Pow2(k.M)
    ensures BlockStart(k.lens, k.M, ch) < Pow2(k.M)
    ensures k.lens[ch] > k.tb ==> start[k.lens[ch]] == BlockStart(k.lens, k.M, ch)
    ensures k.lens[ch] <= k.tb ==> start[k.lens[ch]] == Shr(BlockStart(k.lens, k.M, ch), k.M - k.tb)
                                   && start[k.lens[ch]] + Pow2(k.tb - k.lens[ch]) <= Pow2(k.tb)
  {
    hide Shr, Start, Pow2;
    if k.lens[ch] <= k.tb { ShortFits(k, ch); }
  }

  // ---- The starts of any set ------------------------------------------------------------------------

  predicate StartIs(k: Setting, start: seq<nat>, l: nat, m: nat)
    requires Sound(k) && 0 < l <= k.tb && l < |start| && m <= |k.lens|
  {
    start[l] == Cursor(k, l, m) <= Pow2(k.tb)
  }

  ghost predicate Starting(k: Setting, start: seq<nat>, m: nat)
    requires Sound(k) && m <= |k.lens|
  {
    |start| == 18 && k.tb < 17 && (forall l: nat :: 0 < l <= k.tb ==> StartIs(k, start, l, m))
    && forall l: nat :: k.tb < l <= CODE_BIT ==> start[l] < 65536
  }

  lemma StartsAt(was: seq<nat>, start: seq<nat>, weight: seq<nat>, tb: nat)
    requires tb < CODE_BIT && ScaledTo(was, start, weight, tb)
    ensures |start| == 18 && start[tb + 1] == was[tb + 1]
  {
  }

  lemma StartingFirst(k: Setting, start: seq<nat>, was: seq<nat>, weight: seq<nat>)
    requires Sound(k) && k.M == CODE_BIT && |was| == 18
    requires forall l :: 1 <= l <= CODE_BIT ==> was[l] == Start(k.lens, k.M, l, 0) % 65536
    requires ScaledTo(was, start, weight, k.tb)
    ensures Starting(k, start, 0) && (forall l :: 1 <= l <= CODE_BIT ==> NextIs(k, start, l, 0)) && Widths(k, weight)
  {
    hide Start, Shr, Pow2, NextIs, CountTo, Cursor;
    Pow16();
    forall l | 1 <= l <= CODE_BIT ensures NextIs(k, start, l, 0) { FirstStart(k, start, was, l); }
    forall l: nat | 0 < l <= k.tb ensures StartIs(k, start, l, 0) {
      CursorFirst(k, l);
      ShrBound(was[l], k.M - k.tb, k.tb);
    }
  }

  lemma CursorFirst(k: Setting, l: nat)
    requires Sound(k) && 0 < l <= k.tb
    ensures Cursor(k, l, 0) == Shr(Start(k.lens, k.M, l, 0) % 65536, k.M - k.tb)
  {
    hide Start, Shr, Pow2;
  }

  // Where the symbol is entered, and that it is still in the table.
  lemma StartingNow(k: Setting, start: seq<nat>, m: nat)
    requires Sound(k) && k.M == CODE_BIT && m < |k.lens| && k.lens[m] > 0 && Starting(k, start, m)
    ensures start[k.lens[m]] < Pow2(k.M)
  {
    hide Pow2, Cursor;
    Pow16();
    Pow2Strict(k.tb, k.M);
    var l := k.lens[m];
    if l <= k.tb { assert StartIs(k, start, l, m); }
  }

  lemma StartingOver(k: Setting, start: seq<nat>, m: nat)
    requires Sound(k) && k.M == CODE_BIT && m < |k.lens| && 0 < k.lens[m] <= k.tb && Starting(k, start, m)
    requires start[k.lens[m]] + Pow2(k.tb - k.lens[m]) > Pow2(k.tb)
    ensures !Inside(k.lens, k.tb)
  {
    hide Pow2, Cursor, EndsInside;
    var l := k.lens[m];
    assert StartIs(k, start, l, m);
    CursorStep(k, l, m);
    CursorGrows(k, l, m + 1, |k.lens|);
    CursorEnd(k, l);
    assert !EndsInside(k.lens, l);
  }

  lemma StartingNext(k: Setting, start: seq<nat>, m: nat)
    requires Sound(k) && k.M == CODE_BIT && m < |k.lens| && Starting(k, start, m)
    requires 0 < k.lens[m] <= k.tb ==> start[k.lens[m]] + Pow2(k.tb - k.lens[m]) <= Pow2(k.tb)
    ensures var next, m' := Advanced(k, start, m), m + 1; Starting(k, next, m')
  {
    hide Pow2, Cursor;
    Pow16();
    Pow2Strict(k.tb, k.M);
    var next, m' := Advanced(k, start, m), m + 1;
    forall l: nat | 0 < l <= k.tb ensures StartIs(k, next, l, m') {
      assert StartIs(k, start, l, m);
      CursorStep(k, l, m);
    }
  }

  lemma StartingDone(k: Setting, start: seq<nat>)
    requires Sound(k) && k.M == CODE_BIT && Starting(k, start, |k.lens|)
    ensures Inside(k.lens, k.tb)
  {
    hide Pow2, Cursor, EndsInside;
    forall l: nat | 0 < l <= k.tb ensures EndsInside(k.lens, l) {
      assert StartIs(k, start, l, |k.lens|);
      CursorEnd(k, l);
    }
  }

  lemma NothingToClear(k: Setting, s: nat, i: nat)
    requires Sound(k) && k.M == CODE_BIT && Kraft(k.lens, k.M) == 0
    requires s == Start(k.lens, k.M, k.tb + 1, 0) % 65536 && i == Shr(s, k.M - k.tb)
    ensures i == 0
  {
    hide Shr, Start, Pow2;
    StartMono(k.lens, k.M, k.tb + 1, 0, k.M + 1, 0);
    LowZero(k.M - k.tb);
  }

  // While there is no symbol the walk goes on, inside the trees.
  lemma WalkGoesOn(k: Setting, c: Cells, j: nat, w: nat, l: nat)
    requires k.M >= l && j >= |k.lens| && Walk(k, c, j, w, l) < |k.lens|
    ensures l < k.M && j < |c.left| && j < |c.right|
    ensures Walk(k, c, j, w, l) == Walk(k, c, if Shr(w, k.M - 1 - l) % 2 == 1 then c.right[j] else c.left[j], w, l + 1)
  {
    hide Shr;
  }

  lemma FirstCell(k: Setting, nodes: Nodes, ch: nat)
    requires Sound(k) && ch < |k.lens| && BlockStart(k.lens, k.M, ch) < Pow2(k.M)
    ensures var q := PrefixOf(k, ch, k.tb);
            HasCell(nodes, k.tb, q) && Where(nodes, k.tb, q) == InTable(Shr(BlockStart(k.lens, k.M, ch), k.M - k.tb))
            && PathOK(k, nodes, ch, k.tb)
  {
    ShrBound(BlockStart(k.lens, k.M, ch), k.M - k.tb, k.tb);
  }

  lemma GoesThrough(k: Setting, ch: nat, l: nat)
    requires Sound(k) && ch < |k.lens| && k.tb <= l < k.lens[ch]
    ensures var q := PrefixOf(k, ch, l);
            Through(k.lens, k.M, ch, q) && q.len == l && (l == k.tb
              ==> q.bits == Shr(BlockStart(k.lens, k.M, ch), k.M - k.tb))
  {
  }

  lemma IdOfNode(k: Setting, bound: nat, c: Cells, nodes: Nodes, avail: nat, m: nat, q: Prefix)
    requires Built(k, bound, c, nodes, avail, m, m + 1)
    ensures q in nodes ==> 0 < nodes[q] < |c.left| && nodes[q] < |c.right|
  {
    hide CellOK, PathOK, Injective, Through;
    assert q in nodes ==> NodeOK(k, nodes, avail, m + 1, q);
  }

  // The cell of a prefix that gets a node stays where it is.
  lemma CellStays(k: Setting, nodes: Nodes, avail: nat, q: Prefix, p: Prefix)
    requires Sound(k) && HasCell(nodes, k.tb, p) && q !in nodes
    ensures HasCell(nodes[q := avail], k.tb, p) && Where(nodes[q := avail], k.tb, p) == Where(nodes, k.tb, p)
  {
  }

  lemma CellIs(k: Setting, nodes: Nodes, p: Prefix, q: Prefix)
    requires Sound(k) && p.len >= k.tb && q.len == p.len + 1 && Up(q) == p && p in nodes
    ensures HasCell(nodes, k.tb, q) && Where(nodes, k.tb, q) == if q.bits % 2 == 1 then InRight(nodes[p])
            else InLeft(nodes[p])
  {
  }

  lemma NoShift(x: nat)
    ensures x * Pow2(0) == x
  {
  }

  lemma DoubleTimes(x: nat, n: nat)
    ensures 2 * (x * Pow2(n)) == x * Pow2(n + 1)
  {
    assert Pow2(n + 1) == 2 * Pow2(n);
  }

  // Shifted to the left, the code has its next bit below those of the table.
  lemma NextBit(k: Setting, ch: nat, l: nat, kk: nat)
    requires Sound(k) && ch < |k.lens| && k.tb <= l < k.lens[ch] && kk == BlockStart(k.lens, k.M, ch) * Pow2(l - k.tb)
    ensures var q := PrefixOf(k, ch, l + 1);
            q.len == l + 1 && Up(q) == PrefixOf(k, ch, l) && Shr(kk, k.M - 1 - k.tb) == q.bits
  {
    hide Pow2, Start;
    var s, n := BlockStart(k.lens, k.M, ch), l - k.tb;
    SplitUnique(kk, n, s, 0);
    ShrShr(kk, n, k.M - 1 - l);
    ShrShr(s, k.M - 1 - l, 1);
  }

  lemma Pow16()
    ensures Pow2(CODE_BIT) == 65536
  {
    Pow15();
    assert Pow2(16) == 2 * Pow2(15);
  }

  // Room for a node for every bit of every code.
  lemma RoomAtFirst(n: nat, d: nat)
    ensures n * (d + 1) >= n
  {
  }

  lemma RoomFor(n: nat, ch: nat, d: nat, avail: nat, room: nat)
    requires ch < n && avail <= n + ch * d && room >= n * (d + 1)
    ensures avail + d <= room && n + (ch + 1) * d == n + ch * d + d
  {
    Distribute(ch, 1, d);
    Distribute(d, 1, n);
    MulMono(ch + 1, n, d);
  }

  lemma ShrAtMost(s: nat, d: nat)
    ensures Shr(s, d) <= s
  {
    hide Shr, Pow2;
    Split(s, d);
    MulMono(1, Pow2(d), Shr(s, d));
  }

  lemma NextWraps(k: Setting, start: seq<nat>, len: nat, l: nat, m: nat)
    requires Sound(k) && k.M == CODE_BIT && l < |start| && len < |start| && NextIs(k, start, l, m)
    ensures NextIs(k, start[len := start[len] % 65536], l, m)
  {
    hide Shr, Start, Pow2;
    Pow16();
    var s := Start(k.lens, k.M, l, m);
    if l == len && s < Pow2(k.M) {
      ShrAtMost(s, k.M - k.tb);
      assert start[l] < 65536;
    }
  }

  lemma FirstStart(k: Setting, start: seq<nat>, was: seq<nat>, l: nat)
    requires Sound(k) && k.M == CODE_BIT && 1 <= l <= CODE_BIT && |start| == |was| == 18
    requires was[l] == Start(k.lens, k.M, l, 0) % 65536
    requires start[l] == if l <= k.tb then Shr(was[l], k.M - k.tb) else was[l]
    ensures NextIs(k, start, l, 0)
  {
    hide Shr, Start, Pow2;
    Pow16();
  }

  // From the first sum that is no longer in the table the bound is found, unless the
  // table is full, or there is no short code.
  lemma BoundFound(k: Setting, s: nat, i: nat)
    requires Sound(k) && k.M == CODE_BIT && Kraft(k.lens, k.M) == Pow2(k.M) && HasShort(k.lens, k.tb)
    requires s == Start(k.lens, k.M, k.tb + 1, 0) % 65536 && i == Shr(s, k.M - k.tb)
    ensures if i == 0 then Bound(k) == Pow2(k.tb) else Bound(k) == i
  {
    hide Shr, Start, Pow2;
    Pow16();
    var t, d := Start(k.lens, k.M, k.tb + 1, 0), k.M - k.tb;
    StartMono(k.lens, k.M, k.tb + 1, 0, k.M + 1, 0);
    ShortCode(k.lens, k.M, k.tb);
    BoundIs(k);
    if t == Pow2(k.M) {
      AlignedPow2(d, k.M);
      LowZero(d);
    }
  }

  predicate AnyCode(lens: seq<nat>)
  {
    exists i :: 0 <= i < |lens| && lens[i] > 0
  }

  lemma SomeCode(lens: seq<nat>, M: nat)
    requires LengthsFit(lens, M) && AnyCode(lens)
    ensures Kraft(lens, M) > 0
  {
    hide Start, Pow2;
    var i :| 0 <= i < |lens| && lens[i] > 0;
    BlockInside(lens, M, i);
  }

  lemma NoCodes(lens: seq<nat>, M: nat)
    requires LengthsFit(lens, M)
    ensures Kraft(lens, M) == 0 <==> !AnyCode(lens)
  {
    hide StartTo, Pow2;
    if AnyCode(lens) { SomeCode(lens, M); } else { NoWeight(lens, M, |lens|); }
  }

  lemma {:induction false} NoWeight(lens: seq<nat>, M: nat, n: nat)
    requires LengthsFit(lens, M) && !AnyCode(lens) && n <= |lens|
    ensures StartTo(lens, M, M + 1, 0, n) == 0
  {
    if n > 0 { NoWeight(lens, M, n - 1); }
  }

  // The part of the table of a short code.
  lemma ShortFits(k: Setting, ch: nat)
    requires Sound(k) && ch < |k.lens| && 0 < k.lens[ch] <= k.tb
    requires BlockStart(k.lens, k.M, ch) + Pow2(k.M - k.lens[ch]) <= Pow2(k.M)
    ensures Shr(BlockStart(k.lens, k.M, ch), k.M - k.tb) + Pow2(k.tb - k.lens[ch]) <= Pow2(k.tb)
  {
    hide Shr, Start, Pow2;
    var s, d, l := BlockStart(k.lens, k.M, ch), k.M - k.tb, k.lens[ch];
    StartAligned(k.lens, k.M, l, ch);
    AlignedBlock(s, d, k.tb - l);
    Pow2Add(k.tb - l, d);
    Pow2Add(k.tb, d);
    Distribute(Shr(s, d), Pow2(k.tb - l), Pow2(d));
    if Shr(s, d) + Pow2(k.tb - l) > Pow2(k.tb) {
      MulMono(Pow2(k.tb) + 1, Shr(s, d) + Pow2(k.tb - l), Pow2(d));
      Distribute(Pow2(k.tb), 1, Pow2(d));
    }
  }
}
