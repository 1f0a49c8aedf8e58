// inflate_codes (inflate.c): decoding the symbols of a block through the lookup
// tables and expanding them in the window.
module InflateCodes {
  import opened Powers
  import opened Canonical
  import opened TreeCodes
  import opened HuftTables
  import opened Bits
  import opened Lz77
  import opened BlockFormat
  import T = InflateTables

  // What the decoding functions return; at the end of the input the source
  // does not return at all.
  const OK: nat := 0
  const INVALID: nat := 1
  const END_OF_INPUT: nat := 3

  // ---- One symbol ------------------------------------------------------------------

  lemma LookAt(rest: seq<bool>, n: nat)
    requires n <= |rest|
    ensures Value(rest[..n]) == Low(Value(rest), n) && Value(rest[n..]) == Shr(Value(rest), n)
  {
    ValueSplit(rest, n);
  }

  // The step of the lookup loop from one entry to the table it links to.
  lemma WalkStep(tables: seq<seq<Huft>>, t: nat, nb: nat, stream: nat)
    requires Walk(tables, t, nb, stream).Found?
    ensures t < |tables| && nb <= BMAX && Pow2(nb) <= |tables[t]| && Low(stream, nb) < |tables[t]|
    ensures var r, g := tables[t][Low(stream, nb)], Walk(tables, t, nb, stream);
            r.b <= nb && r.b <= g.bits
            && if IsLink(r) then
                 t < r.v < |tables| && var g' := Walk(tables, r.v, r.e - 16, Shr(stream, r.b));
                 g'.Found? && g == Found(g'.e, g'.v, r.b + g'.bits)
               else g == Leaf(r, 0)
  {
    hide Low, Shr, Pow2;
  }

  method WalkTables(r: BitReader, tables: seq<seq<Huft>>, bits: nat) returns (status: nat, e: nat, v: nat)
    requires r.Valid() && Walk(tables, 0, bits, Value(r.Rest())).Found?
    modifies r
    ensures r.Valid()
    ensures var g, was := old(Walk(tables, 0, bits, Value(r.Rest()))), old(r.Rest());
            (status == OK && g.e != 99 && e == g.e && v == g.v && g.bits <= |was| && r.Rest() == was[g.bits..])
            || (status == INVALID && g.e == 99)
            || (status == END_OF_INPUT && |was| < g.bits + BMAX)
  {
    hide Low, Shr, Pow2, Value, Walk, BitsOf, BytesBits;
    ghost var was, g := r.Rest(), Walk(tables, 0, bits, Value(r.Rest()));
    ghost var c: nat := 0;
    var t: nat, nb: nat := 0, bits;
    e, v := 0, 0;
    while true
      invariant r.Valid() && c <= |was| && r.Rest() == was[c..]
      invariant Walk(tables, t, nb, Value(r.Rest())).Found?
      invariant g == var g' := Walk(tables, t, nb, Value(r.Rest())); Found(g'.e, g'.v, c + g'.bits)
      decreases |tables| - t
    {
      WalkStep(tables, t, nb, Value(r.Rest()));
      var ok := r.NeedBits(nb);
      if !ok {
        return END_OF_INPUT, 0, 0;
      }
      LookAt(r.Rest(), nb);
      var entry := tables[t][Low(r.bb, nb)];
      LookAt(r.Rest(), entry.b);
      if entry.e == 99 {
        return INVALID, 0, 0;
      }
      r.DumpBits(entry.b);
      c := c + entry.b;
      e := entry.e;
      if e <= 16 {
        v := entry.v;
        return OK, e, v;
      }
      t, nb := entry.v, e - 16;
    }
  }

  // The tables were built for the lengths b.
  ghost predicate TablesFor(tables: seq<seq<Huft>>, bits: nat, b: seq<nat>, s: nat, d: seq<nat>, e: seq<nat>)
  {
    LengthsFit(b, BMAX) && LengthsFit(b, MAX_BITS) && Kraft(b, BMAX) <= Pow2(BMAX) && T.ListsFit(b, s, d, e)
    && T.DecodesAll(tables, bits, b, s, d, e) && T.RejectsRest(tables, bits, b)
  }

  // A stream that begins with the bits of a code matches the code, and conversely.
  lemma CodeMatches(b: seq<nat>, a: nat, rest: seq<bool>)
    requires LengthsFit(b, BMAX) && LengthsFit(b, MAX_BITS) && HasCode(b, a) && b[a] <= |rest|
    ensures rest[..b[a]] == CodeBits(b, a) <==> Matches(b, BMAX, a, Value(rest))
  {
    hide Low, Shr, Pow2, Value, BitsOf, StartTo, Code;
    var n := b[a];
    CodeSpace(b, MAX_BITS, a);
    LookAt(rest, n);
    BitsOfValue(rest[..n]);
    ValueOfBits(Code(b, MAX_BITS, a), n);
    SplitUnique(Code(b, MAX_BITS, a), n, 0, Code(b, MAX_BITS, a));
  }

  // The answer for every stream: some symbol's, or invalid.
  lemma WalkAnswers(tables: seq<seq<Huft>>, bits: nat, b: seq<nat>, s: nat, d: seq<nat>, e: seq<nat>, stream: nat)
    returns (a: nat)
    requires TablesFor(tables, bits, b, s, d, e)
    ensures Walk(tables, 0, bits, stream).Found?
    ensures Walk(tables, 0, bits, stream).e != 99 ==>
              a < |b| && Matches(b, BMAX, a, stream) && Walk(tables, 0, bits, stream) == T.Answer(b, s, d, e, a)
  {
    hide Walk, Matches, StartTo, Pow2;
    if T.NoCode(b, stream) {
      a := 0;
    } else {
      a :| a < |b| && Matches(b, BMAX, a, stream);
      assert T.AnswersOn(tables, bits, b, s, d, e, a, stream);
    }
  }

  // The stream begins with the code of symbol a, and enough bits follow for
  // the lookup.
  ghost predicate Begins(rest: seq<bool>, b: seq<nat>, a: nat, tail: seq<bool>)
  {
    HasCode(b, a) && rest == CodeBits(b, a) + tail && |tail| >= BMAX
  }

  lemma BeginsWalk(tables: seq<seq<Huft>>, bits: nat, b: seq<nat>, s: nat, d: seq<nat>, e: seq<nat>, rest: seq<bool>,
      a: nat, tail: seq<bool>)
    requires TablesFor(tables, bits, b, s, d, e) && Begins(rest, b, a, tail)
    ensures Walk(tables, 0, bits, Value(rest)) == T.Answer(b, s, d, e, a)
    ensures Matches(b, BMAX, a, Value(rest)) && b[a] + BMAX <= |rest|
  {
    hide Walk, Matches, StartTo, Pow2, Code, BitsOf, Value, T.Answer;
    assert |CodeBits(b, a)| == b[a];
    assert rest[..b[a]] == CodeBits(b, a);
    CodeMatches(b, a, rest);
    assert T.AnswersOn(tables, bits, b, s, d, e, a, Value(rest));
  }

  // Decode one symbol a.  When the input is known to begin with a code, that
  // symbol is found.
  method DecodeSymbol(r: BitReader, tables: seq<seq<Huft>>, bits: nat, ghost b: seq<nat>, ghost s: nat,
      ghost d: seq<nat>, ghost x: seq<nat>,
                      ghost want: nat, ghost tail: seq<bool>)
    returns (status: nat, e: nat, v: nat, ghost a: nat)
    requires r.Valid() && TablesFor(tables, bits, b, s, d, x)
    modifies r
    ensures r.Valid() && status in {OK, INVALID, END_OF_INPUT}
    ensures status == OK ==> HasCode(b, a) && old(r.Rest()) == CodeBits(b, a) + r.Rest()
                             && T.Answer(b, s, d, x, a) == Found(e, v, b[a]) && e != 99
    ensures old(Begins(r.Rest(), b, want, tail)) ==>
              status != END_OF_INPUT && (status == INVALID ==> T.Answer(b, s, d, x, want).e == 99)
              && (status == OK ==> a == want && r.Rest() == tail)
  {
    hide Walk, Matches, StartTo, Pow2, Code, BitsOf, Value, T.Answer, Low, T.DecodesAll, T.RejectsRest, LengthsFit,
      Kraft;
    ghost var was := r.Rest();
    a := WalkAnswers(tables, bits, b, s, d, x, Value(was));
    if Begins(was, b, want, tail) { BeginsWalk(tables, bits, b, s, d, x, was, want, tail); }
    status, e, v := WalkTables(r, tables, bits);
    if status == OK {
      AnswerBits(b, s, d, x, a, Value(was));
      TablesFit(tables, bits, b, s, d, x);
      CodeMatches(b, a, was);
      assert was == was[..b[a]] + was[b[a]..];
      if Begins(was, b, want, tail) {
        DecodeUnique(b, BMAX, a, want, Value(was));
        assert was[b[a]..] == tail;
      }
    }
    if Begins(was, b, want, tail) { AnswerBits(b, s, d, x, want, Value(was)); }
  }

  lemma TablesFit(tables: seq<seq<Huft>>, bits: nat, b: seq<nat>, s: nat, d: seq<nat>, e: seq<nat>)
    requires TablesFor(tables, bits, b, s, d, e)
    ensures LengthsFit(b, BMAX) && LengthsFit(b, MAX_BITS) && Kraft(b, BMAX) <= Pow2(BMAX)
  {
  }

  lemma AnswerBits(b: seq<nat>, s: nat, d: seq<nat>, e: seq<nat>, a: nat, stream: nat)
    requires LengthsFit(b, BMAX) && T.ListsFit(b, s, d, e) && a < |b| && Matches(b, BMAX, a, stream)
    ensures T.Answer(b, s, d, e, a).Found? && T.Answer(b, s, d, e, a).bits == b[a] && HasCode(b, a)
  {
  }

  // ---- One literal or match -----------------------------------------------------------

  // Read n plain bits.
  method ReadBits(r: BitReader, n: nat) returns (ok: bool, x: nat)
    requires r.Valid()
    modifies r
    ensures r.Valid() && (ok <==> n <= |old(r.Rest())|)
    ensures ok ==> x < Pow2(n) && old(r.Rest()) == BitsOf(x, n) + r.Rest() && r.Rest() == old(r.Rest())[n..]
    ensures ok ==> x == Value(old(r.Rest())[..n])
  {
    hide Low, Pow2, BitsOf, Value, BytesBits;
    ghost var was := r.Rest();
    x := 0;
    ok := r.NeedBits(n);
    if ok {
      x := Low(r.bb, n);
      BitsOfValue(was[..n]);
      ValueBound(was[..n]);
      r.DumpBits(n);
      assert was == was[..n] + was[n..];
    }
  }

  lemma Assoc(a: seq<bool>, b: seq<bool>, c: seq<bool>)
    ensures (a + b) + c == a + (b + c)
  {
  }

  // What the answers of the literal table mean.
  lemma FirstAnswer(ll: seq<nat>, a: nat)
    requires |ll| <= 288 && T.ListsFit(ll, 257, CPLENS, CPLEXT) && a < |ll|
    ensures var g := T.Answer(ll, 257, CPLENS, CPLEXT, a);
            if a < 256 then g == Found(16, a, ll[a])
            else if a == 256 then g == Found(15, 256, ll[a])
            else if a < 286 then g == Found(CPLEXT[a - 257], CPLENS[a - 257], ll[a]) && CPLEXT[a - 257] < 15
            else g.e == 99
  {
  }

  lemma DistAnswer(dd: seq<nat>, a: nat)
    requires |dd| <= 30 && T.ListsFit(dd, 0, CPDIST, CPDEXT) && a < |dd|
    ensures T.Answer(dd, 0, CPDIST, CPDEXT, a) == Found(CPDEXT[a], CPDIST[a], dd[a]) && CPDEXT[a] < 15
  {
  }

  // A distance with its extra bits.
  function DistBits(dd: seq<nat>, e: nat, y: nat): seq<bool>
    requires e < D_CODES
  {
    CodeBits(dd, e) + BitsOf(y, CPDEXT[e])
  }

  ghost predicate DistFollows(dd: seq<nat>, e: nat, y: nat, was: seq<bool>, tail: seq<bool>)
  {
    HasCode(dd, e) && e < D_CODES && y < Pow2(CPDEXT[e]) && was == DistBits(dd, e, y) + tail
  }

  lemma DistBegins(dd: seq<nat>, e: nat, y: nat, was: seq<bool>, tail: seq<bool>) returns (more: seq<bool>)
    requires DistFollows(dd, e, y, was, tail) && |tail| >= BMAX
    ensures more == BitsOf(y, CPDEXT[e]) + tail && Begins(was, dd, e, more)
    ensures Value(more[..CPDEXT[e]]) == y && more[CPDEXT[e]..] == tail && CPDEXT[e] <= |more|
  {
    hide CodeBits, BitsOf, Pow2, Value;
    more := BitsOf(y, CPDEXT[e]) + tail;
    Assoc(CodeBits(dd, e), BitsOf(y, CPDEXT[e]), tail);
    ValueFront(y, CPDEXT[e], tail);
  }

  method DecodeDist(r: BitReader, td: seq<seq<Huft>>, bd: nat,
                    ghost dd: seq<nat>, ghost e': nat, ghost y': nat, ghost tail: seq<bool>)
    returns (status: nat, dist: nat, ghost de: nat, ghost y: nat)
    requires r.Valid() && TablesFor(td, bd, dd, 0, CPDIST, CPDEXT) && |dd| <= D_CODES
    modifies r
    ensures r.Valid() && status in {OK, INVALID, END_OF_INPUT}
    ensures status == OK ==> DistFollows(dd, de, y, old(r.Rest()), r.Rest()) && dist == CPDIST[de] + y
    ensures |tail| >= BMAX && DistFollows(dd, e', y', old(r.Rest()), tail) ==>
              status == OK && de == e' && y == y' && r.Rest() == tail
  {
    hide Low, Pow2, BitsOf, Value, BytesBits, CodeBits, TablesFor, T.Answer, Begins, DistFollows;
    ghost var was := r.Rest();
    ghost var given := |tail| >= BMAX && DistFollows(dd, e', y', was, tail);
    ghost var more: seq<bool> := [];
    de, y, dist := 0, 0, 0;
    if given { more := DistBegins(dd, e', y', was, tail); FollowsCode(dd, e', y', was, tail); }
    var e, v;
    status, e, v, de := DecodeSymbol(r, td, bd, dd, 0, CPDIST, CPDEXT, e', more);
    TablesLists(td, bd, dd, 0, CPDIST, CPDEXT);
    if given { DistAnswer(dd, e'); }
    if status != OK { return; }
    DistAnswer(dd, de);
    var ok, x := ReadBits(r, e);
    if !ok { return END_OF_INPUT, 0, de, y; }
    y := x;
    dist := v + x;
    ghost var code := CodeBits(dd, de);
    Assoc(code, BitsOf(x, e), r.Rest());
    FollowsIs(dd, de, x, was, r.Rest());
  }

  lemma FollowsCode(dd: seq<nat>, e: nat, y: nat, was: seq<bool>, tail: seq<bool>)
    requires DistFollows(dd, e, y, was, tail)
    ensures e < |dd|
  {
  }

  lemma FollowsIs(dd: seq<nat>, e: nat, y: nat, was: seq<bool>, tail: seq<bool>)
    requires HasCode(dd, e) && e < D_CODES && y < Pow2(CPDEXT[e])
             && was == CodeBits(dd, e) + BitsOf(y, CPDEXT[e]) + tail
    ensures DistFollows(dd, e, y, was, tail)
  {
  }

  // The second half of a match: its extra length bits and its distance.
  ghost predicate RefFollows(dd: seq<nat>, c: nat, it: Item, was: seq<bool>, tail: seq<bool>)
  {
    it.Ref? && it.c == c < LENGTH_CODES && ItemOK(it) && HasCode(dd, it.e)
    && was == BitsOf(it.x, CPLEXT[it.c]) + DistBits(dd, it.e, it.y) + tail
  }

  lemma RefBegins(dd: seq<nat>, c: nat, it: Item, was: seq<bool>, tail: seq<bool>)
    requires RefFollows(dd, c, it, was, tail)
    ensures it.Ref? && it.c == c < LENGTH_CODES && CPLEXT[c] <= |was| && Value(was[..CPLEXT[c]]) == it.x
    ensures DistFollows(dd, it.e, it.y, was[CPLEXT[c]..], tail)
  {
    hide CodeBits, BitsOf, Pow2, Value, DistBits;
    Assoc(BitsOf(it.x, CPLEXT[c]), DistBits(dd, it.e, it.y), tail);
    ValueFront(it.x, CPLEXT[c], DistBits(dd, it.e, it.y) + tail);
  }

  method DecodeRef(r: BitReader, td: seq<seq<Huft>>, bd: nat, e0: nat, v0: nat,
                   ghost dd: seq<nat>, ghost c: nat, ghost want: Item, ghost tail: seq<bool>)
    returns (status: nat, n: nat, dist: nat, ghost it: Item)
    requires r.Valid() && TablesFor(td, bd, dd, 0, CPDIST, CPDEXT) && |dd| <= D_CODES
    requires c < LENGTH_CODES && e0 == CPLEXT[c] && v0 == CPLENS[c]
    modifies r
    ensures r.Valid() && status in {OK, INVALID, END_OF_INPUT}
    ensures status == OK ==> RefFollows(dd, c, it, old(r.Rest()), r.Rest()) && TokenOf(it) == Match(n, dist)
    ensures |tail| >= BMAX && RefFollows(dd, c, want, old(r.Rest()), tail)
            ==> status == OK && it == want && r.Rest() == tail
  {
    hide Low, Pow2, BitsOf, Value, BytesBits, CodeBits, TablesFor, RefFollows, DistFollows;
    ghost var was := r.Rest();
    ghost var given := |tail| >= BMAX && RefFollows(dd, c, want, was, tail);
    if given { RefBegins(dd, c, want, was, tail); }
    it := Lit(0);
    n, dist := 0, 0;
    var ok, x := ReadBits(r, e0);
    if !ok { return END_OF_INPUT, 0, 0, it; }
    n := v0 + x;
    ghost var rest1, e, y := r.Rest(), 0, 0;
    status, dist, e, y := DecodeDist(r, td, bd, dd, if given then want.e else 0, if given then want.y else 0, tail);
    if status != OK { return; }
    it := Ref(c, x, e, y);
    RefIs(dd, it, was, rest1, r.Rest());
  }

  lemma RefIs(dd: seq<nat>, it: Item, was: seq<bool>, rest: seq<bool>, tail: seq<bool>)
    requires it.Ref? && it.c < LENGTH_CODES && it.x < Pow2(CPLEXT[it.c]) && was == BitsOf(it.x, CPLEXT[it.c]) + rest
    requires DistFollows(dd, it.e, it.y, rest, tail)
    ensures ItemOK(it) && RefFollows(dd, it.c, it, was, tail)
  {
    hide CodeBits, BitsOf, Pow2, DistBits;
    Assoc(BitsOf(it.x, CPLEXT[it.c]), DistBits(dd, it.e, it.y), tail);
  }

  lemma TablesLists(tables: seq<seq<Huft>>, bits: nat, b: seq<nat>, s: nat, d: seq<nat>, e: seq<nat>)
    requires TablesFor(tables, bits, b, s, d, e)
    ensures T.ListsFit(b, s, d, e)
  {
  }

  // A field at the front is read back.
  lemma ValueFront(x: nat, n: nat, more: seq<bool>)
    requires x < Pow2(n)
    ensures Value((BitsOf(x, n) + more)[..n]) == x && (BitsOf(x, n) + more)[n..] == more
  {
    hide Low, Pow2, BitsOf, Value;
    assert (BitsOf(x, n) + more)[..n] == BitsOf(x, n);
    ValueOfBits(x, n);
    SplitUnique(x, n, 0, x);
  }

  // ---- One item: a literal, a match or the end ----------------------------------------

  datatype Step = Put(b: Byte) | CopyBack(n: nat, dist: nat) | End

  ghost predicate Stepped(ll: seq<nat>, dd: seq<nat>, step: Step, it: Item, was: seq<bool>, rest: seq<bool>)
  {
    match step
    case End => HasCode(ll, END_BLOCK) && was == CodeBits(ll, END_BLOCK) + rest
    case Put(b) => it == Lit(b) && ItemCoded(ll, dd, it) && was == ItemBits(ll, dd, it) + rest
    case CopyBack(n, dist) =>
      ItemCoded(ll, dd, it) && TokenOf(it) == Match(n, dist)
      && was == ItemBits(ll, dd, it) + rest
  }

  ghost predicate ItemFollows(ll: seq<nat>, dd: seq<nat>, it: Item, was: seq<bool>, tail: seq<bool>)
  {
    ItemCoded(ll, dd, it) && was == ItemBits(ll, dd, it) + tail && |tail| >= BMAX
  }

  lemma RefSplit(ll: seq<nat>, dd: seq<nat>, it: Item, tail: seq<bool>)
    requires ItemOK(it) && it.Ref?
    ensures ItemBits(ll, dd, it) + tail == CodeBits(ll, LITERALS + 1 + it.c)
            + (BitsOf(it.x, CPLEXT[it.c]) + DistBits(dd, it.e, it.y) + tail)
  {
    hide CodeBits, BitsOf;
    var a, b, c, d := CodeBits(ll, LITERALS + 1 + it.c), BitsOf(it.x, CPLEXT[it.c]), CodeBits(dd, it.e),
        BitsOf(it.y, CPDEXT[it.e]);
    Assoc(a + b, c, d);
    Assoc(a, b, c + d);
    Assoc(a, b + (c + d), tail);
  }

  // What the input may be known to go on with.
  datatype Goal = NextItem(it: Item) | BlockEnd

  ghost predicate Follows(ll: seq<nat>, dd: seq<nat>, goal: Goal, was: seq<bool>, tail: seq<bool>)
  {
    match goal
    case NextItem(it) => ItemFollows(ll, dd, it, was, tail)
    case BlockEnd => Begins(was, ll, END_BLOCK, tail)
  }

  ghost predicate AfterFirst(dd: seq<nat>, goal: Goal, a: nat, rest: seq<bool>, tail: seq<bool>)
  {
    match goal
    case BlockEnd => a == END_BLOCK && rest == tail
    case NextItem(it) =>
      if it.Lit? then a == it.b && rest == tail
      else a == LITERALS + 1 + it.c && it.c < LENGTH_CODES && RefFollows(dd, it.c, it, rest, tail)
  }

  // This determines the first code and what comes after it.
  lemma GoalBegins(ll: seq<nat>, dd: seq<nat>, goal: Goal, was: seq<bool>, tail: seq<bool>)
    returns (a: nat, more: seq<bool>)
    requires Follows(ll, dd, goal, was, tail)
    ensures Begins(was, ll, a, more) && a < |ll| && a < L_CODES && |tail| >= BMAX && AfterFirst(dd, goal, a, more, tail)
  {
    hide CodeBits, BitsOf, DistBits, Pow2;
    match goal
    case BlockEnd => a, more := END_BLOCK, tail;
    case NextItem(it) =>
      if it.Ref? {
        RefSplit(ll, dd, it, tail);
        a, more := LITERALS + 1 + it.c, BitsOf(it.x, CPLEXT[it.c]) + DistBits(dd, it.e, it.y) + tail;
      } else {
        a, more := it.b, tail;
      }
  }

  lemma RefStepped(ll: seq<nat>, dd: seq<nat>, it: Item, n: nat, dist: nat, was: seq<bool>, rest1: seq<bool>,
      rest: seq<bool>)
    requires it.Ref? && it.c < LENGTH_CODES && RefFollows(dd, it.c, it, rest1, rest) && TokenOf(it) == Match(n, dist)
    requires HasCode(ll, LITERALS + 1 + it.c) && was == CodeBits(ll, LITERALS + 1 + it.c) + rest1
    ensures Stepped(ll, dd, CopyBack(n, dist), it, was, rest) && MIN_MATCH <= n && 1 <= dist <= WSIZE
  {
    hide CodeBits, BitsOf, DistBits, Pow2;
    RefSplit(ll, dd, it, rest);
    LengthTables(it.c);
    DistTables(it.e);
    if it.e < 29 { DistsGrow(it.e, 29); }
  }

  // After the first code, whose table entry had e and v.
  method FinishItem(r: BitReader, td: seq<seq<Huft>>, bd: nat, e: nat, v: nat, ghost a: nat, ghost was: seq<bool>,
                    ghost ll: seq<nat>, ghost dd: seq<nat>, ghost goal: Goal, ghost tail: seq<bool>)
    returns (status: nat, step: Step, ghost it: Item)
    requires r.Valid() && TablesFor(td, bd, dd, 0, CPDIST, CPDEXT) && |dd| <= D_CODES
    requires HasCode(ll, a) && a < L_CODES && was == CodeBits(ll, a) + r.Rest()
    requires if a < 256 then e == 16 && v == a else if a == 256 then e == 15
             else e == CPLEXT[a - 257] < 15 && v == CPLENS[a - 257]
    modifies r
    ensures r.Valid() && status in {OK, INVALID, END_OF_INPUT}
    ensures status == OK ==> Stepped(ll, dd, step, it, was, r.Rest())
    ensures status == OK && step.CopyBack? ==> 1 <= step.n && 1 <= step.dist <= WSIZE
    ensures |tail| >= BMAX && AfterFirst(dd, goal, a, old(r.Rest()), tail)
            ==> status == OK && r.Rest() == tail && ReachedGoal(goal, step, it)
  {
    hide Low, Pow2, BitsOf, Value, BytesBits, CodeBits, TablesFor, RefFollows, T.Answer, ItemBits, Stepped;
    step, it, status := End, Lit(0), OK;
    if e == 16 {
      it, step := Lit(v), Put(v);
      LitStepped(ll, dd, v, was, r.Rest());
    } else if e == 15 {
      EndStepped(ll, dd, it, was, r.Rest());
    } else {
      ghost var rest1 := r.Rest();
      var n, dist;
      status, n, dist, it := DecodeRef(r, td, bd, e, v, dd, a - 257, if goal.NextItem? then goal.it else Lit(0), tail);
      if status != OK { return; }
      RefStart(dd, a - 257, it, rest1, r.Rest());
      RefStepped(ll, dd, it, n, dist, was, rest1, r.Rest());
      step := CopyBack(n, dist);
    }
  }

  ghost predicate ReachedGoal(goal: Goal, step: Step, it: Item)
  {
    if goal.BlockEnd? then step.End? else !step.End? && it == goal.it
  }

  method DecodeItem(r: BitReader, tl: seq<seq<Huft>>, td: seq<seq<Huft>>, bl: nat, bd: nat,
                    ghost ll: seq<nat>, ghost dd: seq<nat>, ghost goal: Goal, ghost tail: seq<bool>)
    returns (status: nat, step: Step, ghost it: Item)
    requires r.Valid() && TablesFor(tl, bl, ll, 257, CPLENS, CPLEXT) && |ll| <= 288
    requires TablesFor(td, bd, dd, 0, CPDIST, CPDEXT) && |dd| <= D_CODES
    modifies r
    ensures r.Valid() && status in {OK, INVALID, END_OF_INPUT}
    ensures status == OK ==> Stepped(ll, dd, step, it, old(r.Rest()), r.Rest())
    ensures status == OK && step.CopyBack? ==> 1 <= step.n && 1 <= step.dist <= WSIZE
    ensures Follows(ll, dd, goal, old(r.Rest()), tail)
            ==> status == OK && r.Rest() == tail && ReachedGoal(goal, step, it)
  {
    hide Low, Pow2, BitsOf, Value, BytesBits, CodeBits, TablesFor, Follows, Begins, T.Answer, Stepped, AfterFirst,
      ReachedGoal;
    ghost var was := r.Rest();
    ghost var given := Follows(ll, dd, goal, was, tail);
    ghost var a0: nat, more: seq<bool> := 0, [];
    step, it := End, Lit(0);
    if given { a0, more := GoalBegins(ll, dd, goal, was, tail); }
    var e, v;
    ghost var a;
    status, e, v, a := DecodeSymbol(r, tl, bl, ll, 257, CPLENS, CPLEXT, a0, more);
    TablesLists(tl, bl, ll, 257, CPLENS, CPLEXT);
    if given { FirstAnswer(ll, a0); }
    if status != OK { return; }
    FirstAnswer(ll, a);
    status, step, it := FinishItem(r, td, bd, e, v, a, was, ll, dd, goal, tail);
  }

  lemma RefStart(dd: seq<nat>, c: nat, it: Item, was: seq<bool>, tail: seq<bool>)
    requires RefFollows(dd, c, it, was, tail)
    ensures it.Ref? && it.c == c
  {
  }

  lemma LitStepped(ll: seq<nat>, dd: seq<nat>, b: Byte, was: seq<bool>, rest: seq<bool>)
    requires HasCode(ll, b) && was == CodeBits(ll, b) + rest
    ensures Stepped(ll, dd, Put(b), Lit(b), was, rest)
  {
  }

  lemma EndStepped(ll: seq<nat>, dd: seq<nat>, it: Item, was: seq<bool>, rest: seq<bool>)
    requires HasCode(ll, END_BLOCK) && was == CodeBits(ll, END_BLOCK) + rest
    ensures Stepped(ll, dd, End, it, was, rest)
  {
  }

  // ---- A block ----------------------------------------------------------------------

  // The block: its items and the end of block code.
  ghost predicate Codes(ll: seq<nat>, dd: seq<nat>, its: seq<Item>, was: seq<bool>, rest: seq<bool>)
  {
    AllCoded(ll, dd, its) && HasCode(ll, END_BLOCK) && was == ItemsBits(ll, dd, its) + (CodeBits(ll, END_BLOCK) + rest)
  }

  ghost predicate Reached(its: seq<Item>, h: seq<Byte>, now: seq<Byte>)
  {
    AllOK(its) && (AllReach(TokensOf(its), |h|) ==> now == Expand(h, TokensOf(its)))
  }

  // What is known in the middle of a block.
  ghost predicate Midway(ll: seq<nat>, dd: seq<nat>, its: seq<Item>, was: seq<bool>, rest: seq<bool>)
  {
    AllCoded(ll, dd, its) && was == ItemsBits(ll, dd, its) + rest
  }

  // ... and of the items still to come when the block is given.
  ghost predicate Ahead(ll: seq<nat>, dd: seq<nat>, want: seq<Item>, its: seq<Item>, rest: seq<bool>, tail: seq<bool>)
  {
    |tail| >= BMAX && |its| <= |want| && want[..|its|] == its && Codes(ll, dd, want[|its|..], rest, tail)
  }

  function NextGoal(want: seq<Item>, n: nat): Goal
  {
    if n < |want| then NextItem(want[n]) else BlockEnd
  }

  lemma NextTail(ll: seq<nat>, dd: seq<nat>, want: seq<Item>, its: seq<Item>, rest: seq<bool>, tail: seq<bool>)
    returns (more: seq<bool>)
    requires Ahead(ll, dd, want, its, rest, tail)
    ensures |its| <= |want| && Follows(ll, dd, NextGoal(want, |its|), rest, more)
    ensures |its| < |want| ==> Ahead(ll, dd, want, its + [want[|its|]], more, tail)
    ensures |its| == |want| ==> more == tail && its == want
  {
    hide CodeBits, ItemBits, ItemOK;
    var n := |its|;
    var left := want[n..];
    if n < |want| {
      assert left[1..] == want[n + 1..] && left[0] == want[n];
      more := ItemsBits(ll, dd, left[1..]) + (CodeBits(ll, END_BLOCK) + tail);
      Assoc(ItemBits(ll, dd, left[0]), ItemsBits(ll, dd, left[1..]), CodeBits(ll, END_BLOCK) + tail);
      assert want[..n + 1] == its + [want[n]];
    } else {
      more := tail;
      assert left == [];
      assert want == want[..n];
    }
  }

  lemma StepMidway(ll: seq<nat>, dd: seq<nat>, its: seq<Item>, it: Item, step: Step, was: seq<bool>, rest: seq<bool>,
      rest': seq<bool>)
    requires Midway(ll, dd, its, was, rest) && Stepped(ll, dd, step, it, rest, rest')
    ensures if step.End? then Codes(ll, dd, its, was, rest') else Midway(ll, dd, its + [it], was, rest')
  {
    hide CodeBits, ItemBits, ItemOK;
    if !step.End? {
      ItemsJoin(ll, dd, its, [it]);
      assert [it][1..] == [];
      assert ItemsBits(ll, dd, [it]) == ItemBits(ll, dd, it);
      Assoc(ItemsBits(ll, dd, its), ItemBits(ll, dd, it), rest');
    }
  }

  lemma StepReached(its: seq<Item>, it: Item, h: seq<Byte>, now: seq<Byte>, now': seq<Byte>)
    requires Reached(its, h, now) && ItemOK(it)
    requires Reaches(TokenOf(it), |now|) ==> now' == Apply(now, TokenOf(it))
    ensures Reached(its + [it], h, now')
  {
    hide TokenOf, Apply, ItemOK, Reaches;
    var ts, t := TokensOf(its), TokenOf(it);
    assert TokensOf(its + [it]) == ts + [t];
    if AllReach(ts + [t], |h|) {
      ReachPrefix(ts, [t], |h|);
      ReachJoin(ts, [t], h);
      OneToken(now, t);
    }
  }

  lemma OneToken(now: seq<Byte>, t: Token)
    ensures AllReach([t], |now|) <==> Reaches(t, |now|)
    ensures Reaches(t, |now|) ==> Expand(now, [t]) == Apply(now, t)
  {
    assert [t][1..] == [];
  }

  lemma {:induction false} ReachPrefix(a: seq<Token>, b: seq<Token>, size: nat)
    requires AllReach(a + b, size)
    ensures AllReach(a, size)
    decreases |a|
  {
    if a != [] {
      assert (a + b)[1..] == a[1..] + b;
      ReachPrefix(a[1..], b, size + Length(a[0]));
    }
  }

  // The effect of a literal or match on the window.
  method Output(win: Window, step: Step, ghost it: Item)
    requires win.Valid() && !step.End? && ItemOK(it)
    requires TokenOf(it) == if step.Put? then Literal(step.b) else Match(step.n, step.dist)
    requires step.CopyBack? ==> 1 <= step.n && 1 <= step.dist <= WSIZE
    modifies win, win.slide
    ensures win.Valid()
    ensures Reaches(TokenOf(it), |old(win.History())|) ==> win.History() == Apply(old(win.History()), TokenOf(it))
  {
    hide Copy, Window.Valid, Window.History;
    match step
    case Put(b) => win.PutByte(b);
    case CopyBack(n, dist) => win.CopyMatch(n, dist);
  }

  // Decode and expand a block.  Whatever was read, was the items its; if a block
  // is given at the front of the input, with enough bits after it for the
  // lookups, it is what is read.
  method InflateCodes(r: BitReader, win: Window, tl: seq<seq<Huft>>, td: seq<seq<Huft>>, bl: nat, bd: nat,
                      ghost ll: seq<nat>, ghost dd: seq<nat>, ghost want: seq<Item>, ghost tail: seq<bool>)
    returns (status: nat, ghost its: seq<Item>)
    requires r.Valid() && win.Valid()
    requires TablesFor(tl, bl, ll, 257, CPLENS, CPLEXT) && |ll| <= 288
    requires TablesFor(td, bd, dd, 0, CPDIST, CPDEXT) && |dd| <= D_CODES
    modifies r, win, win.slide
    ensures r.Valid() && win.Valid() && status in {OK, INVALID, END_OF_INPUT}
    ensures status == OK ==> Codes(ll, dd, its, old(r.Rest()), r.Rest())
                             && Reached(its, old(win.History()), win.History())
    ensures |tail| >= BMAX && Codes(ll, dd, want, old(r.Rest()), tail)
            ==> status == OK && its == want && r.Rest() == tail
  {
    hide BitReader.Valid, BitReader.Rest, TablesFor, Midway, Ahead, Codes, Reached, Window.Valid, Window.History,
      Stepped, Follows, Reaches, Apply, ItemOK, TokenOf, Pow2, BitsOf, BytesBits, LengthsFit, Kraft, StartTo, Copy;
    ghost var was, h := r.Rest(), win.History();
    ghost var given := |tail| >= BMAX && Codes(ll, dd, want, was, tail);
    its := [];
    AtStart(ll, dd, want, was, tail, h);
    while true
      invariant r.Valid() && win.Valid() && Midway(ll, dd, its, was, r.Rest()) && Reached(its, h, win.History())
      invariant given ==> Ahead(ll, dd, want, its, r.Rest(), tail)
      decreases |r.Rest()|
    {
      ghost var rest, now, more := r.Rest(), win.History(), tail;
      if given { more := NextTail(ll, dd, want, its, rest, tail); }
      var step;
      ghost var it;
      status, step, it := DecodeItem(r, tl, td, bl, bd, ll, dd, NextGoal(want, |its|), more);
      if status != OK { return; }
      StepMidway(ll, dd, its, it, step, was, rest, r.Rest());
      TablesFit(tl, bl, ll, 257, CPLENS, CPLEXT);
      StepFacts(ll, dd, step, it, rest, r.Rest());
      if step.End? { return; }
      Output(win, step, it);
      StepReached(its, it, h, now, win.History());
      its := its + [it];
    }
  }

  lemma AtStart(ll: seq<nat>, dd: seq<nat>, want: seq<Item>, was: seq<bool>, tail: seq<bool>, h: seq<Byte>)
    ensures Midway(ll, dd, [], was, was) && Reached([], h, h)
    ensures |tail| >= BMAX && Codes(ll, dd, want, was, tail) ==> Ahead(ll, dd, want, [], was, tail)
  {
    assert want[0..] == want;
    assert TokensOf([]) == [];
  }

  lemma StepFacts(ll: seq<nat>, dd: seq<nat>, step: Step, it: Item, was: seq<bool>, rest: seq<bool>)
    requires Stepped(ll, dd, step, it, was, rest) && LengthsFit(ll, MAX_BITS)
    ensures !step.End? ==> ItemOK(it) && |rest| < |was|
    ensures step.Put? ==> TokenOf(it) == Literal(step.b)
    ensures step.CopyBack? ==> TokenOf(it) == Match(step.n, step.dist)
  {
  }
}
