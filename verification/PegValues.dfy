// Which values parsing yields (peglib.h): an operator adds to the values what it would
// yield alone, a sequence yields what its operators yield one after the other, and a rule
// without an action has the first value of its body.
module PegValues {
  import opened Maybes
  import opened PegGrammar

  // ---- An operator adds what it yields ---------------------------------------------------------

  // The values d behind those there are; the choice is that of d if it has one.
  function Onto<V>(s: Values<V>, d: Values<V>): Values<V>
  {
    Values(s.vals + d.vals, s.tags + d.tags, s.tokens + d.tokens, if d.count == 0 then s.count else d.count,
           if d.count == 0 then s.choice else d.choice)
  }

  function OutOnto<V>(s: Values<V>, o: Out<V>): Out<V>
  {
    match o case Late => Late case Fails(d) => Fails(Onto(s, d)) case Matches(len, d) => Matches(len, Onto(s, d))
  }

  lemma OntoEmpty<V>(s: Values<V>)
    ensures Onto(s, Empty()) == s
  {
    assert s.vals + [] == s.vals && s.tags + [] == s.tags && s.tokens + [] == s.tokens;
  }

  lemma JoinedOnto<V>(s: Values<V>, c: Values<V>, d: Values<V>)
    ensures Joined(Onto(s, c), d) == Onto(s, Joined(c, d))
  {
    assert (s.vals + c.vals) + d.vals == s.vals + (c.vals + d.vals);
    assert (s.tags + c.tags) + d.tags == s.tags + (c.tags + d.tags);
    assert (s.tokens + c.tokens) + d.tokens == s.tokens + (c.tokens + d.tokens);
  }

  lemma EraseOnto<T>(s: seq<T>, d: seq<T>, k: nat)
    requires k < |d|
    ensures Erase(s + d, |s| + k) == s + Erase(d, k)
  {
  }

  lemma RollBackOnto<V>(s: Values<V>, before: Values<V>, c: Values<V>)
    requires Balanced(s) && Balanced(before) && Grown(before, c)
    ensures Grown(Onto(s, before), Onto(s, c)) && RollBack(Onto(s, before), Onto(s, c)) == Onto(s, RollBack(before, c))
  {
    var k, j := |before.vals|, |before.tokens|;
    if |c.vals| != k {
      EraseOnto(s.vals, c.vals, k);
      EraseOnto(s.tags, c.tags, k);
    }
    if |c.tokens| != j { EraseOnto(s.tokens, c.tokens, j); }
  }

  // What there was before makes no difference.
  lemma {:induction false} EvalOnto<V>(g: Grammar<V>, e: Ope, p: nat, s: Values<V>, c: Values<V>, fuel: nat)
    requires Proper(g) && Known(|g.rules|, e) && p <= g.end && Balanced(s) && Balanced(c)
    ensures Eval(g, e, p, Onto(s, c), fuel) == OutOnto(s, Eval(g, e, p, c, fuel))
    decreases fuel, e
  {
    hide RollBack, Joined, Proper;
    match e
    case Sequence(_) =>
      var o := SeqFrom(g, e, p, 0, 0, Empty(), fuel);
      if o.Matches? { JoinedOnto(s, c, o.s); }
    case Choice(_) => ChoiceOnto(g, e, p, 0, s, c, fuel);
    case Repetition(_, _, _) => RepOnto(g, e, p, 0, 0, s, c, fuel);
    case Token(e') => EvalOnto(g, e', p, s, c, fuel); TokenOnto(g, e', p, s, c, fuel);
    case Reference(id) => ReferenceOnto(g, id, p, s, c, fuel);
    case Terminal(_) =>
    case And(_) =>
    case Not(_) =>
    case Ignore(_) =>
  }

  lemma TokenOnto<V>(g: Grammar<V>, e: Ope, p: nat, s: Values<V>, c: Values<V>, fuel: nat)
    requires Proper(g) && Known(|g.rules|, e) && p <= g.end && Balanced(s) && Balanced(c)
    requires Eval(g, e, p, Onto(s, c), fuel) == OutOnto(s, Eval(g, e, p, c, fuel))
    ensures Eval(g, Token(e), p, Onto(s, c), fuel) == OutOnto(s, Eval(g, Token(e), p, c, fuel))
  {
    var o := Eval(g, e, p, c, fuel);
    if o.Matches? { assert (s.tokens + o.s.tokens) + [(p, o.len)] == s.tokens + (o.s.tokens + [(p, o.len)]); }
  }

  lemma ReferenceOnto<V>(g: Grammar<V>, id: nat, p: nat, s: Values<V>, c: Values<V>, fuel: nat)
    requires Proper(g) && id < |g.rules| && p <= g.end && Balanced(s) && Balanced(c)
    ensures Eval(g, Reference(id), p, Onto(s, c), fuel) == OutOnto(s, Eval(g, Reference(id), p, c, fuel))
  {
    hide RuleAt;
    if fuel > 0 && RuleAt(g, id, p, fuel - 1).Value? {
      var v, tag := RuleAt(g, id, p, fuel - 1).v, g.rules[id].tag;
      assert (s.vals + c.vals) + [v] == s.vals + (c.vals + [v])
             && (s.tags + c.tags) + [tag] == s.tags + (c.tags + [tag]);
    }
  }

  lemma {:induction false} ChoiceOnto<V>(g: Grammar<V>, e: Ope, p: nat, k: nat, s: Values<V>, c: Values<V>, fuel: nat)
    requires Proper(g) && e.Choice? && Known(|g.rules|, e) && p <= g.end && Balanced(s) && Balanced(c) && k <= |e.es|
    ensures ChoiceFrom(g, e, p, k, Onto(s, c), fuel) == OutOnto(s, ChoiceFrom(g, e, p, k, c, fuel))
    decreases |e.es| - k
  {
    hide Eval, Joined, Proper;
    if k < |e.es| {
      var o := Eval(g, e.es[k], p, Empty(), fuel);
      if o.Matches? { JoinedOnto(s, c, o.s); } else { ChoiceOnto(g, e, p, k + 1, s, c, fuel); }
    }
  }

  lemma {:induction false} RepOnto<V>(g: Grammar<V>, e: Ope, p: nat, i: nat, count: nat, s: Values<V>, c: Values<V>,
      fuel: nat)
    requires Proper(g) && e.Repetition? && Known(|g.rules|, e) && p + i <= g.end && Balanced(s) && Balanced(c)
    ensures RepFrom(g, e, p, i, count, Onto(s, c), fuel) == OutOnto(s, RepFrom(g, e, p, i, count, c, fuel))
    decreases fuel, e, 0
  {
    hide Eval, RollBack, Proper;
    if fuel > 0 && (count < e.min || (p + i < g.end && count < e.max)) {
      EvalOnto(g, e.e, p + i, s, c, fuel);
      var o := Eval(g, e.e, p + i, c, fuel);
      if o.Matches? { RepOnto(g, e, p, i + o.len, count + 1, s, o.s, fuel - 1); }
      if o.Fails? { RollBackOnto(s, c, o.s); }
    }
  }

  // The values there are stay, and what the operator yields alone comes behind them.
  lemma AddsItsOwn<V>(g: Grammar<V>, e: Ope, p: nat, s: Values<V>, fuel: nat)
    requires Proper(g) && Known(|g.rules|, e) && p <= g.end && Balanced(s)
    ensures Eval(g, e, p, s, fuel) == OutOnto(s, Eval(g, e, p, Empty(), fuel))
  {
    hide Eval;
    OntoEmpty(s);
    EvalOnto(g, e, p, s, Empty(), fuel);
  }

  // ---- Sequences ----------------------------------------------------------------------------------

  lemma {:induction false} SeqOnto<V>(g: Grammar<V>, e: Ope, p: nat, k: nat, i: nat, s: Values<V>, c: Values<V>,
      fuel: nat)
    requires Proper(g) && e.Sequence? && Known(|g.rules|, e) && p + i <= g.end && Balanced(s) && Balanced(c)
             && k <= |e.es|
    ensures SeqFrom(g, e, p, k, i, Onto(s, c), fuel) == OutOnto(s, SeqFrom(g, e, p, k, i, c, fuel))
    decreases |e.es| - k
  {
    hide Eval, Proper;
    if k < |e.es| {
      EvalOnto(g, e.es[k], p + i, s, c, fuel);
      var o := Eval(g, e.es[k], p + i, c, fuel);
      if o.Matches? { SeqOnto(g, e, p, k + 1, i + o.len, s, o.s, fuel); }
    }
  }

  function Longer<V>(n: nat, o: Out<V>): Out<V>
  {
    match o case Matches(len, d) => Matches(n + len, d) case _ => o
  }

  // With one operator more in front the others come one later.
  lemma {:induction false} SeqShift<V>(g: Grammar<V>, e1: Ope, rest: seq<Ope>, p: nat, n: nat, k: nat, i: nat,
      c: Values<V>, fuel: nat)
    requires Proper(g) && Known(|g.rules|, Sequence([e1] + rest)) && Known(|g.rules|, Sequence(rest))
    requires p + n + i <= g.end && Balanced(c) && k <= |rest|
    ensures SeqFrom(g, Sequence([e1] + rest), p, k + 1, n + i, c, fuel)
         == Longer(n, SeqFrom(g, Sequence(rest), p + n, k, i, c, fuel))
    decreases |rest| - k
  {
    hide Eval, Proper;
    var es := [e1] + rest;
    if k < |rest| {
      assert es[k + 1] == rest[k];
      var o := Eval(g, rest[k], p + n + i, c, fuel);
      if o.Matches? { SeqShift(g, e1, rest, p, n, k + 1, i + o.len, o.s, fuel); }
    }
  }

  // A sequence yields what its first operator yields and then what the others yield behind
  // it; it matches when all do, and has no choice.
  lemma SequenceYields<V>(g: Grammar<V>, e1: Ope, rest: seq<Ope>, p: nat, fuel: nat)
    requires Proper(g) && Known(|g.rules|, Sequence([e1] + rest)) && p <= g.end
    ensures Known(|g.rules|, e1) && Known(|g.rules|, Sequence(rest))
    ensures var all, first := Eval(g, Sequence([e1] + rest), p, Empty(), fuel), Eval(g, e1, p, Empty(), fuel);
            if !first.Matches? then all == (if first.Late? then Late else Fails(Empty()))
            else
              var others := Eval(g, Sequence(rest), p + first.len, Empty(), fuel);
              if !others.Matches? then all == others
              else all == Matches(first.len + others.len,
                                  Values(first.s.vals + others.s.vals, first.s.tags + others.s.tags,
                                         first.s.tokens + others.s.tokens, 0, 0))
  {
    hide Proper, Eval, SeqFrom, Known;
    KnownParts(|g.rules|, e1, rest);
    SequenceAlone(g, [e1] + rest, p, fuel);
    FirstOfSequence(g, e1, rest, p, fuel);
    var first := Eval(g, e1, p, Empty(), fuel);
    if first.Matches? {
      var r := Sequence(rest);
      SequenceAlone(g, rest, p + first.len, fuel);
      SeqShift(g, e1, rest, p, first.len, 0, 0, first.s, fuel);
      OntoEmpty(first.s);
      SeqOnto(g, r, p + first.len, 0, 0, first.s, Empty(), fuel);
    }
  }

  // A sequence that nothing is before.
  lemma {:induction false} SequenceAlone<V>(g: Grammar<V>, es: seq<Ope>, p: nat, fuel: nat)
    requires Proper(g) && Known(|g.rules|, Sequence(es)) && p <= g.end
    ensures Eval(g, Sequence(es), p, Empty(), fuel)
         == match SeqFrom(g, Sequence(es), p, 0, 0, Empty(), fuel)
            case Late => Late
            case Fails(_) => Fails(Empty())
            case Matches(len, c) => Matches(len, Values(c.vals, c.tags, c.tokens, 0, 0))
  {
    hide Proper, SeqFrom, Known;
  }

  lemma {:induction false} FirstOfSequence<V>(g: Grammar<V>, e1: Ope, rest: seq<Ope>, p: nat, fuel: nat)
    requires Proper(g) && Known(|g.rules|, Sequence([e1] + rest)) && Known(|g.rules|, e1) && p <= g.end
    ensures var first := Eval(g, e1, p, Empty(), fuel);
            SeqFrom(g, Sequence([e1] + rest), p, 0, 0, Empty(), fuel)
            == if first.Matches? then SeqFrom(g, Sequence([e1] + rest), p, 1, first.len, first.s, fuel) else first
  {
    hide Proper, Eval, Known;
    assert ([e1] + rest)[0] == e1;
  }

  lemma KnownParts(n: nat, e1: Ope, rest: seq<Ope>)
    requires Known(n, Sequence([e1] + rest))
    ensures Known(n, e1) && Known(n, Sequence(rest))
  {
    assert ([e1] + rest)[0] == e1;
    forall k | 0 <= k < |rest| ensures Known(n, rest[k]) { assert ([e1] + rest)[k + 1] == rest[k]; }
  }

  // ---- Repetitions --------------------------------------------------------------------------------

  // n rounds from p on take len characters, and leave these values.
  ghost predicate Rounds<V>(g: Grammar<V>, e: Ope, p: nat, s: Values<V>, n: nat, len: nat, s': Values<V>, fuel: nat)
    requires Proper(g) && Known(|g.rules|, e) && p <= g.end && Balanced(s)
    decreases n
  {
    if n == 0 then len == 0 && s' == s
    else
      var o := Eval(g, e, p, s, fuel);
      o.Matches? && o.len <= len && Rounds(g, e, p + o.len, o.s, n - 1, len - o.len, s', fuel)
  }

  // It is over after these rounds, with this result: it has matched as often as it may, or
  // the text is at its end, or the next round fails; that is a failure when more rounds are
  // wanted, and else what the round left is taken back.
  ghost predicate Over<V>(g: Grammar<V>, e: Ope, p: nat, n: nat, len: nat, s: Values<V>, fuel: nat, o: Out<V>)
    requires Proper(g) && e.Repetition? && Known(|g.rules|, e)
  {
    p + len <= g.end && Balanced(s)
    && var next := Eval(g, e.e, p + len, s, fuel);
       match o
       case Late => false
       case Fails(s') => n < e.min && next == Fails(s')
       case Matches(all, s') =>
         n >= e.min && all == len
         && if n >= e.max || p + len == g.end then s' == s else next.Fails? && s' == RollBack(s, next.s)
  }

  // A repetition matches as often as it can.
  lemma RepetitionYields<V>(g: Grammar<V>, e: Ope, p: nat, s: Values<V>, fuel: nat)
    returns (n: nat, len: nat, s': Values<V>)
    requires Proper(g) && e.Repetition? && Known(|g.rules|, e) && p <= g.end && Balanced(s)
    requires !Eval(g, e, p, s, fuel).Late?
    ensures Rounds(g, e.e, p, s, n, len, s', fuel) && Over(g, e, p, n, len, s', fuel, Eval(g, e, p, s, fuel))
    ensures n <= e.min || n <= e.max
  {
    hide Proper, Known, RollBack, Rounds, Over;
    n, len, s' := RoundsFrom(g, e, p, 0, 0, s, fuel, fuel);
  }

  lemma {:induction false} RoundsFrom<V>(g: Grammar<V>, e: Ope, p: nat, i: nat, count: nat, s: Values<V>, fuel: nat,
                                         most: nat)
    returns (n: nat, len: nat, s': Values<V>)
    requires Proper(g) && e.Repetition? && Known(|g.rules|, e) && p + i <= g.end && Balanced(s) && fuel <= most
    requires !RepFrom(g, e, p, i, count, s, fuel).Late?
    ensures Rounds(g, e.e, p + i, s, n, len, s', most)
    ensures Over(g, e, p, count + n, i + len, s', most, RepFrom(g, e, p, i, count, s, fuel))
    ensures n == 0 || count + n <= e.min || count + n <= e.max
    decreases fuel
  {
    hide Proper, RollBack, Eval;
    n, len, s' := 0, 0, s;
    if count < e.min || (p + i < g.end && count < e.max) {
      EvalMore(g, e.e, p + i, s, fuel, most);
      var o := Eval(g, e.e, p + i, s, fuel);
      if o.Matches? {
        var n1, len1, s1 := RoundsFrom(g, e, p, i + o.len, count + 1, o.s, fuel - 1, most);
        n, len, s' := n1 + 1, o.len + len1, s1;
      }
    }
  }

  // ---- Operators that look ahead or leave out -----------------------------------------------------

  // & and ! take nothing and yield nothing; the one matches where the other does not.
  lemma LooksAhead<V>(g: Grammar<V>, e: Ope, p: nat, s: Values<V>, fuel: nat)
    requires Proper(g) && Known(|g.rules|, e) && p <= g.end && Balanced(s)
    ensures var o := Eval(g, e, p, Empty(), fuel);
            (o.Matches? ==> Eval(g, And(e), p, s, fuel) == Matches(0, s) && Eval(g, Not(e), p, s, fuel) == Fails(s))
            && (o.Fails? ==> Eval(g, And(e), p, s, fuel) == Fails(s) && Eval(g, Not(e), p, s, fuel) == Matches(0, s))
    ensures Eval(g, Not(Not(e)), p, s, fuel) == Eval(g, And(e), p, s, fuel)
  {
    hide Proper;
  }

  // What is ignored is as long, but yields nothing; a token yields where it is, too.
  lemma LeavesOut<V>(g: Grammar<V>, e: Ope, p: nat, s: Values<V>, fuel: nat)
    requires Proper(g) && Known(|g.rules|, e) && p <= g.end && Balanced(s) && Eval(g, e, p, Empty(), fuel).Matches?
    ensures var o := Eval(g, e, p, Empty(), fuel);
            Eval(g, Ignore(e), p, s, fuel) == Matches(o.len, s)
            && Eval(g, Token(e), p, Empty(), fuel) == Matches(o.len, o.s.(tokens := o.s.tokens + [(p, o.len)]))
  {
    hide Proper;
  }

  // ---- Choices -------------------------------------------------------------------------------------

  // No alternative before the k-th matches.
  ghost predicate NoneBefore<V>(g: Grammar<V>, es: seq<Ope>, p: nat, k: nat, fuel: nat)
    requires Proper(g) && Known(|g.rules|, Choice(es)) && p <= g.end && k <= |es|
  {
    forall j :: 0 <= j < k ==> Eval(g, es[j], p, Empty(), fuel).Fails?
  }

  // A choice yields what the first alternative that matches yields.
  lemma ChoiceYields<V>(g: Grammar<V>, es: seq<Ope>, p: nat, k: nat, fuel: nat)
    requires Proper(g) && Known(|g.rules|, Choice(es)) && p <= g.end && k <= |es| && NoneBefore(g, es, p, k, fuel)
    ensures var all := Eval(g, Choice(es), p, Empty(), fuel);
            if k == |es| then all == Fails(Empty())
            else
              var o := Eval(g, es[k], p, Empty(), fuel);
              o.Matches? ==> all == Matches(o.len, o.s.(count := |es|, choice := k))
  {
    hide Proper;
    AlternativesFail(g, es, p, 0, k, fuel);
    if k < |es| {
      var o := Eval(g, es[k], p, Empty(), fuel);
      if o.Matches? { assert [] + o.s.vals == o.s.vals && [] + o.s.tags == o.s.tags && [] + o.s.tokens == o.s.tokens; }
    }
  }

  lemma {:induction false} AlternativesFail<V>(g: Grammar<V>, es: seq<Ope>, p: nat, j: nat, k: nat, fuel: nat)
    requires Proper(g) && Known(|g.rules|, Choice(es)) && p <= g.end && j <= k <= |es| && NoneBefore(g, es, p, k, fuel)
    ensures ChoiceFrom(g, Choice(es), p, j, Empty(), fuel) == ChoiceFrom(g, Choice(es), p, k, Empty(), fuel)
    decreases k - j
  {
    hide Proper, Known, Eval;
    if j < k { AlternativesFail(g, es, p, j + 1, k, fuel); }
  }

  // ---- Rules ---------------------------------------------------------------------------------------

  // A reference yields the value of the rule with its tag, or nothing when it is ignored.
  lemma {:induction false} ReferenceYields<V>(g: Grammar<V>, id: nat, p: nat, fuel: nat)
    requires Proper(g) && id < |g.rules| && p <= g.end
    ensures Eval(g, Reference(id), p, Empty(), fuel + 1)
         == match RuleAt(g, id, p, fuel)
            case Unknown => Late
            case Rejected => Fails(Empty())
            case Value(len, v) =>
              Matches(len, if g.rules[id].ignores then Empty() else Values([v], [g.rules[id].tag], [], 0, 0))
  {
    hide Proper, RuleAt;
  }

  // A rule without an action: what it matches is what its body matches, and its value the
  // first that its body yields.
  lemma {:induction false} FirstValue<V>(g: Grammar<V>, id: nat, p: nat, fuel: nat)
    requires Proper(g) && id < |g.rules| && !g.rules[id].acts && p <= g.end
    ensures RuleAt(g, id, p, fuel)
         == match Eval(g, g.rules[id].body, p, Empty(), fuel)
            case Late => Unknown
            case Fails(_) => Rejected
            case Matches(len, c) => Value(len, if c.vals == [] then g.none else c.vals[0])
  {
    hide Proper, Eval;
  }

  // When its body is a sequence that begins with a reference that is not ignored, it has
  // the value of that rule at the same place.
  lemma ValueOfFirst<V>(g: Grammar<V>, id: nat, first: nat, rest: seq<Ope>, p: nat, fuel: nat)
    requires Proper(g) && id < |g.rules| && first < |g.rules| && p <= g.end
    requires !g.rules[id].acts && g.rules[id].body == Sequence([Reference(first)] + rest) && !g.rules[first].ignores
    requires RuleAt(g, id, p, fuel + 1).Value?
    ensures RuleAt(g, first, p, fuel).Value? && RuleAt(g, id, p, fuel + 1).v == RuleAt(g, first, p, fuel).v
  {
    hide Proper, Eval, RuleAt, Known;
    assert Known(|g.rules|, g.rules[id].body) by { BodyKnown(g, id); }
    FirstValue(g, id, p, fuel + 1);
    SequenceYields(g, Reference(first), rest, p, fuel + 1);
    ReferenceYields(g, first, p, fuel);
  }

  lemma BodyKnown<V>(g: Grammar<V>, id: nat)
    requires Proper(g) && id < |g.rules|
    ensures Known(|g.rules|, g.rules[id].body)
  {
  }

  // What an action is given: the values that the body yields, and which alternative was
  // taken when the body is a choice, but not when a choice is inside it.
  lemma {:induction false} ActionGiven<V>(g: Grammar<V>, id: nat, p: nat, fuel: nat)
    requires Proper(g) && id < |g.rules| && g.rules[id].acts && p <= g.end
    requires Eval(g, g.rules[id].body, p, Empty(), fuel).Matches?
    ensures var o := Eval(g, g.rules[id].body, p, Empty(), fuel);
            var c := Values(o.s.vals, o.s.tags, o.s.tokens, if g.rules[id].body.Choice? then o.s.count else 0,
                            if g.rules[id].body.Choice? then o.s.choice else 0);
            var r := g.action(id, p, o.len, c);
            RuleAt(g, id, p, fuel) == if r.Just? then Value(o.len, r.v) else Rejected
  {
    hide Proper, Eval;
  }
}
