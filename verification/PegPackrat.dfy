// Parsing with the cache (peglib.h, Context): whether or not results are remembered, the
// engine finds what parsing without a cache finds, and ends whenever that does.
module PegPackrat {
  import opened PegGrammar

  // ---- One step of a loop ----------------------------------------------------------------------

  // What follows at operator k is what the whole sequence comes to.
  ghost predicate SeqAhead<V(!new)>(g: Grammar<V>, e: Ope, p: nat, k: nat, i: nat, c: Values<V>, fuel: nat)
    requires Proper(g) && e.Sequence? && Known(|g.rules|, e) && p + i <= g.end && Balanced(c) && k <= |e.es|
  {
    (forall o :: SeqMeans(g, e, p, k, i, c, o) ==> SeqMeans(g, e, p, 0, 0, Empty(), o))
    && (SeqFrom(g, e, p, k, i, c, fuel).Late? ==> SeqFrom(g, e, p, 0, 0, Empty(), fuel).Late?)
  }

  lemma SeqStart<V(!new)>(g: Grammar<V>, e: Ope, p: nat, fuel: nat)
    requires Proper(g) && e.Sequence? && Known(|g.rules|, e) && p <= g.end
    ensures SeqAhead(g, e, p, 0, 0, Empty(), fuel)
  {
  }

  lemma SeqStep<V(!new)>(g: Grammar<V>, e: Ope, p: nat, k: nat, i: nat, c: Values<V>, len: nat, c': Values<V>,
      fuel: nat)
    requires Proper(g) && e.Sequence? && Known(|g.rules|, e) && p + i <= g.end && Balanced(c) && k < |e.es|
    requires Means(g, e.es[k], p + i, c, Matches(len, c')) && SeqAhead(g, e, p, k, i, c, fuel)
    ensures SeqAhead(g, e, p, k + 1, i + len, c', fuel)
  {
    hide Eval;
    var o1 := Matches(len, c');
    OneOut(g, e.es[k], p + i, c, o1, fuel);
    forall o | SeqMeans(g, e, p, k + 1, i + len, c', o) ensures SeqMeans(g, e, p, k, i, c, o) {
      var f: nat :| SeqFrom(g, e, p, k + 1, i + len, c', f) == o;
      OneOut(g, e.es[k], p + i, c, o1, f);
      var f': nat :| f' >= f && Eval(g, e.es[k], p + i, c, f') == o1;
      SeqMore(g, e, p, k + 1, i + len, c', f, f');
      assert SeqFrom(g, e, p, k, i, c, f') == o;
    }
  }

  lemma SeqFails<V(!new)>(g: Grammar<V>, e: Ope, p: nat, s: Values<V>, k: nat, i: nat, c: Values<V>, c': Values<V>,
      fuel: nat)
    requires Proper(g) && e.Sequence? && Known(|g.rules|, e) && p + i <= g.end && Balanced(s) && Balanced(c)
             && k < |e.es|
    requires Means(g, e.es[k], p + i, c, Fails(c')) && SeqAhead(g, e, p, k, i, c, fuel)
    ensures Means(g, e, p, s, Fails(s))
  {
    var f: nat :| Eval(g, e.es[k], p + i, c, f) == Fails(c');
    assert SeqFrom(g, e, p, k, i, c, f) == Fails(c');
    assert SeqMeans(g, e, p, k, i, c, Fails(c'));
    var f': nat :| SeqFrom(g, e, p, 0, 0, Empty(), f') == Fails(c');
    assert Eval(g, e, p, s, f') == Fails(s);
  }

  lemma SeqEnds<V(!new)>(g: Grammar<V>, e: Ope, p: nat, s: Values<V>, i: nat, c: Values<V>, fuel: nat)
    requires Proper(g) && e.Sequence? && Known(|g.rules|, e) && p + i <= g.end && Balanced(s) && Balanced(c)
    requires SeqAhead(g, e, p, |e.es|, i, c, fuel)
    ensures Means(g, e, p, s, Matches(i, Joined(s, c)))
  {
    assert SeqFrom(g, e, p, |e.es|, i, c, 0) == Matches(i, c);
    assert SeqMeans(g, e, p, |e.es|, i, c, Matches(i, c));
    var f: nat :| SeqFrom(g, e, p, 0, 0, Empty(), f) == Matches(i, c);
    assert Eval(g, e, p, s, f) == Matches(i, Joined(s, c));
  }

  lemma SeqLate<V(!new)>(g: Grammar<V>, e: Ope, p: nat, s: Values<V>, k: nat, i: nat, c: Values<V>, fuel: nat)
    requires Proper(g) && e.Sequence? && Known(|g.rules|, e) && p + i <= g.end && Balanced(s) && Balanced(c)
             && k < |e.es|
    requires Eval(g, e.es[k], p + i, c, fuel).Late? && SeqAhead(g, e, p, k, i, c, fuel)
    ensures Eval(g, e, p, s, fuel).Late?
  {
    assert SeqFrom(g, e, p, k, i, c, fuel).Late?;
  }

  ghost predicate ChoiceAhead<V(!new)>(g: Grammar<V>, e: Ope, p: nat, k: nat, s: Values<V>, fuel: nat)
    requires Proper(g) && e.Choice? && Known(|g.rules|, e) && p <= g.end && Balanced(s) && k <= |e.es|
  {
    (forall o :: ChoiceMeans(g, e, p, k, s, o) ==> Means(g, e, p, s, o))
    && (ChoiceFrom(g, e, p, k, s, fuel).Late? ==> Eval(g, e, p, s, fuel).Late?)
  }

  lemma ChoiceStart<V(!new)>(g: Grammar<V>, e: Ope, p: nat, s: Values<V>, fuel: nat)
    requires Proper(g) && e.Choice? && Known(|g.rules|, e) && p <= g.end && Balanced(s)
    ensures ChoiceAhead(g, e, p, 0, s, fuel)
  {
    forall o | ChoiceMeans(g, e, p, 0, s, o) ensures Means(g, e, p, s, o) {
      var f: nat :| ChoiceFrom(g, e, p, 0, s, f) == o;
      assert Eval(g, e, p, s, f) == o;
    }
  }

  lemma ChoiceStep<V(!new)>(g: Grammar<V>, e: Ope, p: nat, k: nat, s: Values<V>, c: Values<V>, fuel: nat)
    requires Proper(g) && e.Choice? && Known(|g.rules|, e) && p <= g.end && Balanced(s) && k < |e.es|
    requires Means(g, e.es[k], p, Empty(), Fails(c)) && ChoiceAhead(g, e, p, k, s, fuel)
    ensures ChoiceAhead(g, e, p, k + 1, s, fuel)
  {
    hide Eval;
    OneOut(g, e.es[k], p, Empty(), Fails(c), fuel);
    forall o | ChoiceMeans(g, e, p, k + 1, s, o) ensures ChoiceMeans(g, e, p, k, s, o) {
      var f: nat :| ChoiceFrom(g, e, p, k + 1, s, f) == o;
      OneOut(g, e.es[k], p, Empty(), Fails(c), f);
      var f': nat :| f' >= f && Eval(g, e.es[k], p, Empty(), f') == Fails(c);
      ChoiceMore(g, e, p, k + 1, s, f, f');
      assert ChoiceFrom(g, e, p, k, s, f') == o;
    }
  }

  lemma ChoiceTaken<V(!new)>(g: Grammar<V>, e: Ope, p: nat, k: nat, s: Values<V>, len: nat, c: Values<V>, fuel: nat)
    requires Proper(g) && e.Choice? && Known(|g.rules|, e) && p <= g.end && Balanced(s) && k < |e.es|
    requires Means(g, e.es[k], p, Empty(), Matches(len, c)) && ChoiceAhead(g, e, p, k, s, fuel)
    ensures Means(g, e, p, s, Matches(len, Joined(s, c).(count := |e.es|, choice := k)))
  {
    hide Eval;
    var f: nat :| Eval(g, e.es[k], p, Empty(), f) == Matches(len, c);
    var o := Matches(len, Joined(s, c).(count := |e.es|, choice := k));
    assert ChoiceFrom(g, e, p, k, s, f) == o;
    assert ChoiceMeans(g, e, p, k, s, o);
  }

  lemma NoChoice<V(!new)>(g: Grammar<V>, e: Ope, p: nat, s: Values<V>, fuel: nat)
    requires Proper(g) && e.Choice? && Known(|g.rules|, e) && p <= g.end && Balanced(s)
    requires ChoiceAhead(g, e, p, |e.es|, s, fuel)
    ensures Means(g, e, p, s, Fails(s))
  {
    assert ChoiceFrom(g, e, p, |e.es|, s, 0) == Fails(s);
    assert ChoiceMeans(g, e, p, |e.es|, s, Fails(s));
  }

  lemma ChoiceLate<V(!new)>(g: Grammar<V>, e: Ope, p: nat, k: nat, s: Values<V>, fuel: nat)
    requires Proper(g) && e.Choice? && Known(|g.rules|, e) && p <= g.end && Balanced(s) && k < |e.es|
    requires Eval(g, e.es[k], p, Empty(), fuel).Late? && ChoiceAhead(g, e, p, k, s, fuel)
    ensures Eval(g, e, p, s, fuel).Late?
  {
    assert ChoiceFrom(g, e, p, k, s, fuel).Late?;
  }

  ghost predicate RepAhead<V(!new)>(g: Grammar<V>, e: Ope, p: nat, s0: Values<V>, fuel: nat, i: nat, count: nat,
      s: Values<V>, left: nat)
    requires Proper(g) && e.Repetition? && Known(|g.rules|, e) && p + i <= g.end && Balanced(s0) && Balanced(s)
  {
    (forall o :: RepMeans(g, e, p, i, count, s, o) ==> Means(g, e, p, s0, o))
    && (RepFrom(g, e, p, i, count, s, left).Late? ==> Eval(g, e, p, s0, fuel).Late?)
  }

  lemma RepStart<V(!new)>(g: Grammar<V>, e: Ope, p: nat, s: Values<V>, fuel: nat)
    requires Proper(g) && e.Repetition? && Known(|g.rules|, e) && p <= g.end && Balanced(s)
    ensures RepAhead(g, e, p, s, fuel, 0, 0, s, fuel)
  {
    forall o | RepMeans(g, e, p, 0, 0, s, o) ensures Means(g, e, p, s, o) {
      var f: nat :| RepFrom(g, e, p, 0, 0, s, f) == o;
      assert Eval(g, e, p, s, f) == o;
    }
  }

  predicate Again<V>(g: Grammar<V>, e: Ope, p: nat, i: nat, count: nat)
    requires e.Repetition?
  {
    count < e.min || (p + i < g.end && count < e.max)
  }

  lemma RepStep<V(!new)>(g: Grammar<V>, e: Ope, p: nat, s0: Values<V>, fuel: nat, i: nat, count: nat, s: Values<V>,
      left: nat,
                         len: nat, s': Values<V>)
    requires Proper(g) && e.Repetition? && Known(|g.rules|, e) && p + i <= g.end && Balanced(s0) && Balanced(s)
    requires Again(g, e, p, i, count) && left > 0 && RepAhead(g, e, p, s0, fuel, i, count, s, left)
    requires Means(g, e.e, p + i, s, Matches(len, s'))
    ensures RepAhead(g, e, p, s0, fuel, i + len, count + 1, s', left - 1)
  {
    hide Eval;
    var o1 := Matches(len, s');
    OneOut(g, e.e, p + i, s, o1, left);
    forall o | RepMeans(g, e, p, i + len, count + 1, s', o) ensures RepMeans(g, e, p, i, count, s, o) {
      var f: nat :| RepFrom(g, e, p, i + len, count + 1, s', f) == o;
      OneOut(g, e.e, p + i, s, o1, f + 1);
      var f': nat :| f' >= f + 1 && Eval(g, e.e, p + i, s, f') == o1;
      RepMore(g, e, p, i + len, count + 1, s', f, f' - 1);
      assert RepFrom(g, e, p, i, count, s, f') == o;
    }
  }

  lemma RepStops<V(!new)>(g: Grammar<V>, e: Ope, p: nat, s0: Values<V>, fuel: nat, i: nat, count: nat, s: Values<V>,
      left: nat,
                          s': Values<V>)
    requires Proper(g) && e.Repetition? && Known(|g.rules|, e) && p + i <= g.end && Balanced(s0) && Balanced(s)
    requires Again(g, e, p, i, count) && RepAhead(g, e, p, s0, fuel, i, count, s, left)
    requires Means(g, e.e, p + i, s, Fails(s'))
    ensures Means(g, e, p, s0, if count < e.min then Fails(s') else Matches(i, RollBack(s, s')))
  {
    hide Eval;
    var o := if count < e.min then Fails(s') else Matches(i, RollBack(s, s'));
    OneOut(g, e.e, p + i, s, Fails(s'), 1);
    var f: nat :| f >= 1 && Eval(g, e.e, p + i, s, f) == Fails(s');
    assert RepFrom(g, e, p, i, count, s, f) == o;
    assert RepMeans(g, e, p, i, count, s, o);
  }

  lemma RepEnds<V(!new)>(g: Grammar<V>, e: Ope, p: nat, s0: Values<V>, fuel: nat, i: nat, count: nat, s: Values<V>,
      left: nat)
    requires Proper(g) && e.Repetition? && Known(|g.rules|, e) && p + i <= g.end && Balanced(s0) && Balanced(s)
    requires !Again(g, e, p, i, count) && RepAhead(g, e, p, s0, fuel, i, count, s, left)
    ensures Means(g, e, p, s0, Matches(i, s))
  {
    hide Eval;
    assert RepFrom(g, e, p, i, count, s, 1) == Matches(i, s);
    assert RepMeans(g, e, p, i, count, s, Matches(i, s));
  }

  lemma RepLate<V(!new)>(g: Grammar<V>, e: Ope, p: nat, s0: Values<V>, fuel: nat, i: nat, count: nat, s: Values<V>,
      left: nat)
    requires Proper(g) && e.Repetition? && Known(|g.rules|, e) && p + i <= g.end && Balanced(s0) && Balanced(s)
    requires Again(g, e, p, i, count) && RepAhead(g, e, p, s0, fuel, i, count, s, left)
    requires left == 0 || Eval(g, e.e, p + i, s, left).Late?
    ensures Eval(g, e, p, s0, fuel).Late?
  {
    hide Eval;
    assert RepFrom(g, e, p, i, count, s, left).Late?;
  }

  lemma ApartMeans<V>(g: Grammar<V>, e: Ope, p: nat, s: Values<V>, o: Out<V>)
    requires Proper(g) && (e.And? || e.Not? || e.Ignore?) && Known(|g.rules|, e) && p <= g.end && Balanced(s)
    requires Means(g, e.e, p, Empty(), o)
    ensures Means(g, e, p, s, if e.Not? then (if o.Fails? then Matches(0, s) else Fails(s))
                              else if o.Fails? then Fails(s) else Matches(if e.And? then 0 else o.len, s))
  {
    var f: nat :| Eval(g, e.e, p, Empty(), f) == o;
    assert Eval(g, e, p, s, f).Fails? || Eval(g, e, p, s, f).Matches?;
  }

  lemma TokenMeans<V>(g: Grammar<V>, e: Ope, p: nat, s: Values<V>, o: Out<V>)
    requires Proper(g) && e.Token? && Known(|g.rules|, e) && p <= g.end && Balanced(s) && Means(g, e.e, p, s, o)
    ensures Means(g, e, p, s, if o.Fails? then o else Matches(o.len, o.s.(tokens := o.s.tokens + [(p, o.len)])))
  {
    var f: nat :| Eval(g, e.e, p, s, f) == o;
    assert Eval(g, e, p, s, f).Fails? || Eval(g, e, p, s, f).Matches?;
  }

  lemma ReferenceMeans<V>(g: Grammar<V>, e: Ope, p: nat, s: Values<V>, r: Got<V>)
    requires Proper(g) && e.Reference? && Known(|g.rules|, e) && p <= g.end && Balanced(s) && RuleMeans(g, e.id, p, r)
    ensures Means(g, e, p, s, if r.Rejected? then Fails(s) else Matches(r.len, PassOn(g.rules[e.id], s, r.v)))
  {
    var f: nat :| RuleAt(g, e.id, p, f) == r;
    assert Eval(g, e, p, s, f + 1).Fails? || Eval(g, e, p, s, f + 1).Matches?;
  }

  lemma RuleComes<V>(g: Grammar<V>, id: nat, p: nat, o: Out<V>)
    requires Proper(g) && id < |g.rules| && p <= g.end && Known(|g.rules|, g.rules[id].body)
    requires Means(g, g.rules[id].body, p, Empty(), o)
    ensures RuleMeans(g, id, p, if o.Fails? then Rejected
                                else var v := Reduced(g, id, p, o.len, Shown(g.rules[id], o.s));
                                     if v.Nothing? then Rejected else Value(o.len, v.v))
  {
    var f: nat :| Eval(g, g.rules[id].body, p, Empty(), f) == o;
    assert RuleAt(g, id, p, f) != Unknown;
  }

  // ---- The cache -------------------------------------------------------------------------------------

  function Index(n: nat, col: nat, id: nat): nat {
    n * col + id
  }

  lemma IndexFits(n: nat, end: nat, col: nat, id: nat)
    requires id < n && col <= end
    ensures Index(n, col, id) < n * (end + 1)
  {
    RowsBefore(n, col, end);
  }

  lemma RowsBefore(n: nat, col: nat, end: nat)
    requires col <= end
    ensures n * col + n <= n * (end + 1)
  {
    var d := end - col;
    assert n * (col + d + 1) == n * col + n * d + n;
  }

  // Every place and rule has a bit of its own.
  lemma IndexOwn(n: nat, col: nat, id: nat, col': nat, id': nat)
    requires id < n && id' < n && Index(n, col, id) == Index(n, col', id')
    ensures col == col' && id == id'
  {
    if col < col' { IndexFits(n, col' - 1, col, id); }
    if col' < col { IndexFits(n, col - 1, col', id'); }
  }

  // Out of fuel, failed, or the length that matched.
  datatype Ran = OutOfFuel | Failed | Success(len: nat)

  function AsOut<V>(r: Ran, s: Values<V>): Out<V> {
    match r case OutOfFuel => Late case Failed => Fails(s) case Success(len) => Matches(len, s)
  }

  class Context<V(!new,0)> {
    const g: Grammar<V>
    const packrat: bool
    // The values of the operators that are being parsed; those above `size` are kept for reuse.
    var stack: seq<Values<V>>
    var size: nat
    const registered: array<bool>
    const succeeded: array<bool>
    var cells: map<(nat, nat), (nat, V)>

    ghost predicate Valid()
      reads this, registered, succeeded
      ensures Valid() ==> Proper(g) && size <= |stack| && (size > 0 ==> Balanced(stack[size - 1]))
    {
      && Proper(g) && size <= |stack| && (forall k :: 0 <= k < |stack| ==> Balanced(stack[k]))
      && registered != succeeded && (packrat ==> Sized() && Consistent())
    }

    ghost predicate Sized() {
      registered.Length == succeeded.Length == |g.rules| * (g.end + 1)
    }

    // Every registered cell holds what parsing without the cache finds there.
    ghost predicate Consistent()
      requires Proper(g) && Sized()
      reads this`cells, registered, succeeded
    {
      forall id, col :: 0 <= id < |g.rules| && 0 <= col <= g.end ==> CellOk(id, col)
    }

    ghost predicate CellOk(id: nat, col: nat)
      requires Proper(g) && Sized() && id < |g.rules| && col <= g.end
      reads this`cells, registered, succeeded
    {
      IndexFits(|g.rules|, g.end, col, id);
      var idx := Index(|g.rules|, col, id);
      registered[idx] ==>
        if succeeded[idx] then (col, id) in cells && RuleMeans(g, id, col,
          Value(cells[(col, id)].0, cells[(col, id)].1))
        else RuleMeans(g, id, col, Rejected)
    }

    ghost function Top(): Values<V>
      requires 0 < size <= |stack|
      reads this`stack, this`size
    {
      stack[size - 1]
    }

    constructor (g: Grammar<V>, packrat: bool)
      requires Proper(g)
      ensures Valid() && size == 1 && Top() == Empty() && this.g == g && this.packrat == packrat
      ensures fresh(registered) && fresh(succeeded)
    {
      hide RuleMeans, Index, Proper;
      this.g := g;
      this.packrat := packrat;
      stack := [Empty()];
      size := 1;
      registered := new bool[if packrat then |g.rules| * (g.end + 1) else 0](_ => false);
      succeeded := new bool[if packrat then |g.rules| * (g.end + 1) else 0](_ => false);
      cells := map[];
      new;
      if packrat {
        forall id, col | 0 <= id < |g.rules| && 0 <= col <= g.end ensures CellOk(id, col) {
          IndexFits(|g.rules|, g.end, col, id);
        }
      }
    }

    method Push()
      requires Valid()
      modifies this`stack, this`size
      ensures Valid() && size == old(size) + 1 && Top() == Empty() && stack[..size - 1] == old(stack[..size])
    {
      hide Consistent;
      if size == |stack| {
        stack := stack + [Empty()];
      } else {
        var s := stack[size];
        if s.vals != [] {
          s := s.(vals := []);
          if s.tags != [] { s := s.(tags := []); }
        }
        s := s.(count := 0, choice := 0);
        if s.tokens != [] { s := s.(tokens := []); }
        stack := stack[size := s];
      }
      size := size + 1;
    }

    method Pop()
      requires Valid() && size > 0
      modifies this`size
      ensures Valid() && size == old(size) - 1
    {
      hide Consistent;
      size := size - 1;
    }

    // emplace_back and its like, on the values on top.
    method SetTop(s: Values<V>)
      requires Valid() && size > 0 && Balanced(s)
      modifies this`stack
      ensures Valid() && Top() == s && stack[..size - 1] == old(stack[..size - 1])
    {
      hide Consistent;
      stack := stack[size - 1 := s];
    }

    // parse and parse_core, by the kind of the operator.
    method Parse(e: Ope, p: nat, fuel: nat) returns (r: Ran)
      requires Valid() && size > 0 && Known(|g.rules|, e) && p <= g.end
      modifies this`stack, this`size, this`cells, registered, succeeded
      ensures Valid() && size == old(size) && stack[..size - 1] == old(stack[..size - 1])
      ensures r.OutOfFuel? ==> Eval(g, e, p, old(Top()), fuel).Late?
      ensures !r.OutOfFuel? ==> Grown(old(Top()), Top()) && Means(g, e, p, old(Top()), AsOut(r, Top()))
      ensures r.Success? ==> p + r.len <= g.end
      decreases 2 * fuel, e
    {
      hide Valid, Consistent;
      match e
      case Sequence(_) => r := ParseSequence(e, p, fuel);
      case Choice(_) => r := ParseChoice(e, p, fuel);
      case Repetition(_, _, _) => r := ParseRepetition(e, p, fuel);
      case Terminal(_) => r := Match(e, p, fuel);
      case Reference(_) => r := ParseReference(e, p, fuel);
      case Token(_) => r := ParseToken(e, p, fuel);
      case _ => r := ParseApart(e, p, fuel);
    }

    method ParseSequence(e: Ope, p: nat, fuel: nat) returns (r: Ran)
      requires Valid() && size > 0 && Known(|g.rules|, e) && p <= g.end && e.Sequence?
      modifies this`stack, this`size, this`cells, registered, succeeded
      ensures Valid() && size == old(size) && stack[..size - 1] == old(stack[..size - 1])
      ensures r.OutOfFuel? ==> Eval(g, e, p, old(Top()), fuel).Late?
      ensures !r.OutOfFuel? ==> Grown(old(Top()), Top()) && Means(g, e, p, old(Top()), AsOut(r, Top()))
      ensures r.Success? ==> p + r.len <= g.end
      decreases 2 * fuel, e, 0
    {
      hide Valid, Consistent, Eval, SeqFrom, SeqAhead, Means, SeqMeans, Joined, RollBack;
      ghost var s := Top();
      Push();
      var k: nat, i: nat := 0, 0;
      SeqStart(g, e, p, fuel);
      while k < |e.es|
        invariant k <= |e.es| && p + i <= g.end
        invariant Valid() && size == old(size) + 1 && stack[..size - 1] == old(stack[..size])
        invariant SeqAhead(g, e, p, k, i, Top(), fuel)
      {
        ghost var c := Top();
        var n := Parse(e.es[k], p + i, fuel);
        if n.OutOfFuel? {
          SeqLate(g, e, p, s, k, i, c, fuel);
          Pop();
          return OutOfFuel;
        }
        if n.Failed? {
          SeqFails(g, e, p, s, k, i, c, Top(), fuel);
          Pop();
          return Failed;
        }
        SeqStep(g, e, p, k, i, c, n.len, Top(), fuel);
        i := i + n.len;
        k := k + 1;
      }
      var c := stack[size - 1];
      SeqEnds(g, e, p, s, i, c, fuel);
      Pop();
      SetTop(Joined(stack[size - 1], c));
      r := Success(i);
    }

    method ParseChoice(e: Ope, p: nat, fuel: nat) returns (r: Ran)
      requires Valid() && size > 0 && Known(|g.rules|, e) && p <= g.end && e.Choice?
      modifies this`stack, this`size, this`cells, registered, succeeded
      ensures Valid() && size == old(size) && stack[..size - 1] == old(stack[..size - 1])
      ensures r.OutOfFuel? ==> Eval(g, e, p, old(Top()), fuel).Late?
      ensures !r.OutOfFuel? ==> Grown(old(Top()), Top()) && Means(g, e, p, old(Top()), AsOut(r, Top()))
      ensures r.Success? ==> p + r.len <= g.end
      decreases 2 * fuel, e, 0
    {
      hide Valid, Consistent, Eval, ChoiceFrom, ChoiceAhead, Means, ChoiceMeans, Joined, RollBack;
      ghost var s := Top();
      ChoiceStart(g, e, p, s, fuel);
      var k: nat := 0;
      while k < |e.es|
        invariant k <= |e.es|
        invariant Valid() && size == old(size) && stack[..size] == old(stack[..size])
        invariant ChoiceAhead(g, e, p, k, s, fuel)
      {
        Push();
        var n := Parse(e.es[k], p, fuel);
        var c := stack[size - 1];
        Pop();
        if n.OutOfFuel? {
          ChoiceLate(g, e, p, k, s, fuel);
          return OutOfFuel;
        }
        if n.Success? {
          ChoiceTaken(g, e, p, k, s, n.len, c, fuel);
          SetTop(Joined(stack[size - 1], c).(count := |e.es|, choice := k));
          return n;
        }
        ChoiceStep(g, e, p, k, s, c, fuel);
        k := k + 1;
      }
      NoChoice(g, e, p, s, fuel);
      r := Failed;
    }

    method ParseRepetition(e: Ope, p: nat, fuel: nat) returns (r: Ran)
      requires Valid() && size > 0 && Known(|g.rules|, e) && p <= g.end && e.Repetition?
      modifies this`stack, this`size, this`cells, registered, succeeded
      ensures Valid() && size == old(size) && stack[..size - 1] == old(stack[..size - 1])
      ensures r.OutOfFuel? ==> Eval(g, e, p, old(Top()), fuel).Late?
      ensures !r.OutOfFuel? ==> Grown(old(Top()), Top()) && Means(g, e, p, old(Top()), AsOut(r, Top()))
      ensures r.Success? ==> p + r.len <= g.end
      decreases 2 * fuel, e, 0
    {
      hide Valid, Consistent, Eval, RepFrom, RepAhead, Means, RepMeans, Joined, RollBack;
      ghost var s0 := Top();
      RepStart(g, e, p, s0, fuel);
      var count: nat, i: nat, left: nat := 0, 0, fuel;
      while count < e.min
        invariant p + i <= g.end && left <= fuel
        invariant Valid() && size == old(size) && stack[..size - 1] == old(stack[..size - 1])
        invariant RepAhead(g, e, p, s0, fuel, i, count, Top(), left)
        decreases left
      {
        if left == 0 {
          RepLate(g, e, p, s0, fuel, i, count, Top(), left);
          return OutOfFuel;
        }
        ghost var s := Top();
        var n := Parse(e.e, p + i, left);
        if n.OutOfFuel? {
          RepLate(g, e, p, s0, fuel, i, count, s, left);
          return n;
        }
        if n.Failed? {
          RepStops(g, e, p, s0, fuel, i, count, s, left, Top());
          return n;
        }
        RepStep(g, e, p, s0, fuel, i, count, s, left, n.len, Top());
        i, count, left := i + n.len, count + 1, left - 1;
      }
      while g.end - (p + i) > 0 && count < e.max
        invariant p + i <= g.end && left <= fuel && count >= e.min
        invariant Valid() && size == old(size) && stack[..size - 1] == old(stack[..size - 1])
        invariant RepAhead(g, e, p, s0, fuel, i, count, Top(), left)
        decreases left
      {
        if left == 0 {
          RepLate(g, e, p, s0, fuel, i, count, Top(), left);
          return OutOfFuel;
        }
        var s := stack[size - 1];
        var n := Parse(e.e, p + i, left);
        if n.OutOfFuel? {
          RepLate(g, e, p, s0, fuel, i, count, s, left);
          return n;
        }
        if n.Failed? {
          RepStops(g, e, p, s0, fuel, i, count, s, left, Top());
          SetTop(RollBack(s, stack[size - 1]));
          return Success(i);
        }
        RepStep(g, e, p, s0, fuel, i, count, s, left, n.len, Top());
        i, count, left := i + n.len, count + 1, left - 1;
      }
      RepEnds(g, e, p, s0, fuel, i, count, Top(), left);
      r := Success(i);
    }

    // Predicates and ignored operators: their values are dropped.
    method ParseApart(e: Ope, p: nat, fuel: nat) returns (r: Ran)
      requires Valid() && size > 0 && Known(|g.rules|, e) && p <= g.end && (e.And? || e.Not? || e.Ignore?)
      modifies this`stack, this`size, this`cells, registered, succeeded
      ensures Valid() && size == old(size) && stack[..size - 1] == old(stack[..size - 1])
      ensures r.OutOfFuel? ==> Eval(g, e, p, old(Top()), fuel).Late?
      ensures !r.OutOfFuel? ==> Grown(old(Top()), Top()) && Means(g, e, p, old(Top()), AsOut(r, Top()))
      ensures r.Success? ==> p + r.len <= g.end
      decreases 2 * fuel, e, 0
    {
      hide Valid, Consistent;
      Push();
      var n := Parse(e.e, p, fuel);
      ghost var c := Top();
      Pop();
      if n.OutOfFuel? { return n; }
      ApartMeans(g, e, p, Top(), AsOut(n, c));
      if e.And? {
        r := if n.Success? then Success(0) else Failed;
      } else if e.Not? {
        r := if n.Success? then Failed else Success(0);
      } else {
        r := n;
      }
    }

    method ParseToken(e: Ope, p: nat, fuel: nat) returns (r: Ran)
      requires Valid() && size > 0 && Known(|g.rules|, e) && p <= g.end && e.Token?
      modifies this`stack, this`size, this`cells, registered, succeeded
      ensures Valid() && size == old(size) && stack[..size - 1] == old(stack[..size - 1])
      ensures r.OutOfFuel? ==> Eval(g, e, p, old(Top()), fuel).Late?
      ensures !r.OutOfFuel? ==> Grown(old(Top()), Top()) && Means(g, e, p, old(Top()), AsOut(r, Top()))
      ensures r.Success? ==> p + r.len <= g.end
      decreases 2 * fuel, e, 0
    {
      hide Valid, Consistent;
      ghost var s := Top();
      r := Parse(e.e, p, fuel);
      if r.OutOfFuel? { return; }
      TokenMeans(g, e, p, s, AsOut(r, Top()));
      if r.Success? {
        var c := stack[size - 1];
        SetTop(c.(tokens := c.tokens + [(p, r.len)]));
      }
    }

    method Match(e: Ope, p: nat, fuel: nat) returns (r: Ran)
      requires Valid() && size > 0 && Known(|g.rules|, e) && p <= g.end && e.Terminal?
      modifies this`stack, this`size, this`cells, registered, succeeded
      ensures Valid() && size == old(size) && stack[..size - 1] == old(stack[..size - 1])
      ensures r.OutOfFuel? ==> Eval(g, e, p, old(Top()), fuel).Late?
      ensures !r.OutOfFuel? ==> Grown(old(Top()), Top()) && Means(g, e, p, old(Top()), AsOut(r, Top()))
      ensures r.Success? ==> p + r.len <= g.end
      decreases 2 * fuel, e, 0
    {
      hide Valid, Consistent;
      var n := g.matches(e.t, p);
      r := if n.Nothing? then Failed else Success(n.v);
      assert Eval(g, e, p, Top(), 0) == AsOut(r, Top());
    }

    // Reference and Holder.
    method ParseReference(e: Ope, p: nat, fuel: nat) returns (r: Ran)
      requires Valid() && size > 0 && Known(|g.rules|, e) && p <= g.end && e.Reference?
      modifies this`stack, this`size, this`cells, registered, succeeded
      ensures Valid() && size == old(size) && stack[..size - 1] == old(stack[..size - 1])
      ensures r.OutOfFuel? ==> Eval(g, e, p, old(Top()), fuel).Late?
      ensures !r.OutOfFuel? ==> Grown(old(Top()), Top()) && Means(g, e, p, old(Top()), AsOut(r, Top()))
      ensures r.Success? ==> p + r.len <= g.end
      decreases 2 * fuel, e, 0
    {
      hide Valid, Consistent;
      if fuel == 0 { return OutOfFuel; }
      var got := Packrat(e.id, p, fuel - 1);
      if got.Unknown? { return OutOfFuel; }
      ReferenceMeans(g, e, p, Top(), got);
      if got.Rejected? { return Failed; }
      SetTop(PassOn(g.rules[e.id], stack[size - 1], got.v));
      r := Success(got.len);
    }

    // What the cache knows, and otherwise the rule; then the cache knows it.
    method Packrat(id: nat, p: nat, fuel: nat) returns (r: Got<V>)
      requires Valid() && id < |g.rules| && p <= g.end
      modifies this`stack, this`size, this`cells, registered, succeeded
      ensures Valid() && size == old(size) && stack[..size] == old(stack[..size])
      ensures r.Unknown? ==> RuleAt(g, id, p, fuel).Unknown?
      ensures !r.Unknown? ==> RuleMeans(g, id, p, r)
      decreases 2 * fuel + 1
    {
      if !packrat {
        r := RunRule(id, p, fuel);
        return;
      }
      var idx := Index(|g.rules|, p, id);
      assert CellOk(id, p);
      IndexFits(|g.rules|, g.end, p, id);
      if registered[idx] {
        if succeeded[idx] {
          var (len, v) := cells[(p, id)];
          return Value(len, v);
        }
        return Rejected;
      }
      r := RunRule(id, p, fuel);
      if r.Unknown? { return; }
      Register(id, p, r);
    }

    method Register(id: nat, p: nat, r: Got<V>)
      requires Valid() && packrat && id < |g.rules| && p <= g.end && RuleMeans(g, id, p, r)
      modifies this`cells, registered, succeeded
      ensures Valid()
    {
      IndexFits(|g.rules|, g.end, p, id);
      var idx := Index(|g.rules|, p, id);
      registered[idx] := true;
      succeeded[idx] := r.Value?;
      if r.Value? { cells := cells[(p, id) := (r.len, r.v)]; }
      forall id', col | 0 <= id' < |g.rules| && 0 <= col <= g.end ensures CellOk(id', col) {
        assert old(CellOk(id', col));
        if Index(|g.rules|, col, id') == idx { IndexOwn(|g.rules|, col, id', p, id); }
      }
    }

    // The rule itself, and its action.
    method RunRule(id: nat, p: nat, fuel: nat) returns (r: Got<V>)
      requires Valid() && id < |g.rules| && p <= g.end
      modifies this`stack, this`size, this`cells, registered, succeeded
      ensures Valid() && size == old(size) && stack[..size] == old(stack[..size])
      ensures r.Unknown? ==> RuleAt(g, id, p, fuel).Unknown?
      ensures !r.Unknown? ==> RuleMeans(g, id, p, r)
      decreases 2 * fuel
    {
      hide Valid, Consistent;
      assert Known(|g.rules|, g.rules[id].body);
      Push();
      var n := Parse(g.rules[id].body, p, fuel);
      var s := stack[size - 1];
      Pop();
      if n.OutOfFuel? { return Unknown; }
      RuleComes(g, id, p, AsOut(n, s));
      if n.Failed? { return Rejected; }
      var v := Reduced(g, id, p, n.len, Shown(g.rules[id], s));
      r := if v.Nothing? then Rejected else Value(n.len, v.v);
    }

    // A text from its beginning.
    method ParseText(start: nat, fuel: nat) returns (r: Ran)
      requires Valid() && size == 1 && Top() == Empty() && start < |g.rules|
      modifies this`stack, this`size, this`cells, registered, succeeded
      ensures Valid() && size == 1
      ensures r.OutOfFuel? ==> Eval(g, Reference(start), 0, Empty(), fuel).Late?
      ensures !r.OutOfFuel? ==> Means(g, Reference(start), 0, Empty(), AsOut(r, Top()))
    {
      r := Parse(Reference(start), 0, fuel);
    }
  }

  // A text parsed without the cache and with it: if parsing ends, both find the same
  // length, values and tokens, or both fail.
  method WithAndWithout<V(!new,0)>(g: Grammar<V>, start: nat, fuel: nat)
    returns (r: Ran, s: Values<V>, r': Ran, s': Values<V>)
    requires Proper(g) && start < |g.rules|
    ensures var o := Eval(g, Reference(start), 0, Empty(), fuel);
            !o.Late? ==> AsOut(r, s) == o && r' == r && s' == s
    ensures !r.OutOfFuel? && !r'.OutOfFuel? ==> r' == r && s' == s
  {
    var plain := new Context(g, false);
    r := plain.ParseText(start, fuel);
    s := plain.stack[0];
    var cached := new Context(g, true);
    r' := cached.ParseText(start, fuel);
    s' := cached.stack[0];
    if !r.OutOfFuel? { OneOut(g, Reference(start), 0, Empty(), AsOut(r, s), fuel); }
    if !r'.OutOfFuel? { OneOut(g, Reference(start), 0, Empty(), AsOut(r', s'), fuel); }
    if !r.OutOfFuel? && !r'.OutOfFuel? {
      SameOut(g, Reference(start), 0, Empty(), AsOut(r, s), AsOut(r', s'));
    }
  }
}
