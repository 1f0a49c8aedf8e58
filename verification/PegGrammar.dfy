// What the operators of a grammar match, and with which values (peglib.h): parsing
// without a cache.
module PegGrammar {
  import opened Maybes

  // Dictionaries, literals, character classes and single characters are terminals.
  datatype Ope =
    | Sequence(es: seq<Ope>)
    | Choice(es: seq<Ope>)
    | Repetition(e: Ope, min: nat, max: nat)
    | And(e: Ope)
    | Not(e: Ope)
    | Terminal(t: nat)
    | Token(e: Ope)
    | Ignore(e: Ope)
    | Reference(id: nat)

  // `acts` when there is an action that is not disabled; `ignores` when the value of
  // the rule is not passed on.
  datatype Rule = Rule(body: Ope, tag: nat, acts: bool, ignores: bool)

  // Values with their tags, tokens (position and length), and which of how many
  // alternatives was chosen.
  datatype Values<V> = Values(vals: seq<V>, tags: seq<nat>, tokens: seq<(nat, nat)>, count: nat, choice: nat)

  // A text that ends at `end`: what a terminal matches at a position, and what the
  // action of a rule makes of the values, or that it rejects them.
  datatype Grammar<!V> = Grammar(rules: seq<Rule>, end: nat, matches: (nat, nat) -> Maybe<nat>,
                                action: (nat, nat, nat, Values<V>) -> Maybe<V>, none: V)

  function Empty<V>(): Values<V> {
    Values([], [], [], 0, 0)
  }

  predicate Balanced<V>(s: Values<V>) {
    |s.vals| == |s.tags|
  }

  predicate Known(n: nat, e: Ope)
    decreases e
  {
    match e
    case Sequence(es) => forall k :: 0 <= k < |es| ==> Known(n, es[k])
    case Choice(es) => forall k :: 0 <= k < |es| ==> Known(n, es[k])
    case Terminal(_) => true
    case Reference(id) => id < n
    case _ => Known(n, e.e)
  }

  predicate Fits<V>(g: Grammar<V>, t: nat, p: nat) {
    g.matches(t, p).Just? && p <= g.end ==> p + g.matches(t, p).v <= g.end
  }

  // All references are resolved, and terminals match within the text.
  ghost predicate Proper<V>(g: Grammar<V>) {
    (forall id :: 0 <= id < |g.rules| ==> Known(|g.rules|, g.rules[id].body)) && forall t, p :: Fits(g, t, p)
  }

  ghost predicate Grown<V>(s: Values<V>, s': Values<V>) {
    s.vals <= s'.vals && s.tags <= s'.tags && s.tokens <= s'.tokens && Balanced(s')
  }

  // An operator that fails may leave values behind.
  datatype Out<V> = Late | Fails(s: Values<V>) | Matches(len: nat, s: Values<V>)

  datatype Got<V> = Unknown | Rejected | Value(len: nat, v: V)

  ghost predicate Within<V>(g: Grammar<V>, p: nat, s: Values<V>, o: Out<V>) {
    !o.Late? ==> Grown(s, o.s) && (o.Matches? ==> p + o.len <= g.end)
  }

  // The values of a child behind those there are.
  function Joined<V>(s: Values<V>, c: Values<V>): (r: Values<V>)
    ensures Balanced(s) && Balanced(c) ==> Balanced(r)
  {
    s.(vals := s.vals + c.vals, tags := s.tags + c.tags, tokens := s.tokens + c.tokens)
  }

  function Erase<T>(s: seq<T>, k: nat): (r: seq<T>)
    requires k < |s|
  {
    s[..k] + s[k + 1..]
  }

  // What a repetition does about the values of a failed round: it takes one value and
  // one token away.
  function RollBack<V>(before: Values<V>, s: Values<V>): (r: Values<V>)
    requires Balanced(before) && Grown(before, s)
    ensures Grown(before, r)
  {
    var k, j := |before.vals|, |before.tokens|;
    var s' := if |s.vals| != k then s.(vals := Erase(s.vals, k), tags := Erase(s.tags, k)) else s;
    if |s.tokens| != j then s'.(tokens := Erase(s.tokens, j)) else s'
  }

  // What is left of a failed round is what was there before if and only if the round left
  // one value and one token at most, and did not choose.
  lemma RollBackExact<V>(before: Values<V>, s: Values<V>)
    requires Balanced(before) && Grown(before, s)
    ensures RollBack(before, s) == before
            <==> |s.vals| <= |before.vals| + 1 && |s.tokens| <= |before.tokens| + 1
                 && s.count == before.count && s.choice == before.choice
  {
    var r := RollBack(before, s);
    assert |s.vals| > |before.vals| ==> |r.vals| == |s.vals| - 1;
    assert |s.tokens| > |before.tokens| ==> |r.tokens| == |s.tokens| - 1;
  }

  // reduce
  function Reduced<V>(g: Grammar<V>, id: nat, p: nat, len: nat, s: Values<V>): Maybe<V>
    requires id < |g.rules|
  {
    if g.rules[id].acts then g.action(id, p, len, s)
    else if s.vals == [] then Just(g.none) else Just(s.vals[0])
  }

  // The choice is shown to the action only when the rule is one.
  function Shown<V>(r: Rule, s: Values<V>): Values<V> {
    if r.body.Choice? then s else s.(count := 0, choice := 0)
  }

  function PassOn<V>(r: Rule, s: Values<V>, v: V): Values<V> {
    if r.ignores then s else s.(vals := s.vals + [v], tags := s.tags + [r.tag])
  }

  // ---- Parsing ------------------------------------------------------------------------------

  // What `e` does at p with the values s, if the depth of references and the number of
  // rounds of repetitions are within the fuel.
  ghost function Eval<V>(g: Grammar<V>, e: Ope, p: nat, s: Values<V>, fuel: nat): (o: Out<V>)
    requires Proper(g) && Known(|g.rules|, e) && p <= g.end && Balanced(s)
    ensures Within(g, p, s, o)
    decreases fuel, e
  {
    match e
    case Sequence(es) =>
      (match SeqFrom(g, e, p, 0, 0, Empty(), fuel)
       case Late => Late
       case Fails(_) => Fails(s)
       case Matches(len, c) => Matches(len, Joined(s, c)))
    case Choice(es) => ChoiceFrom(g, e, p, 0, s, fuel)
    case Repetition(_, _, _) => RepFrom(g, e, p, 0, 0, s, fuel)
    case And(e') =>
      (match Eval(g, e', p, Empty(), fuel)
       case Late => Late
       case Fails(_) => Fails(s)
       case Matches(_, _) => Matches(0, s))
    case Not(e') =>
      (match Eval(g, e', p, Empty(), fuel)
       case Late => Late
       case Fails(_) => Matches(0, s)
       case Matches(_, _) => Fails(s))
    case Terminal(t) =>
      assert Fits(g, t, p);
      (match g.matches(t, p) case Nothing => Fails(s) case Just(n) => Matches(n, s))
    case Token(e') =>
      (match Eval(g, e', p, s, fuel)
       case Late => Late
       case Fails(c) => Fails(c)
       case Matches(len, c) => Matches(len, c.(tokens := c.tokens + [(p, len)])))
    case Ignore(e') =>
      (match Eval(g, e', p, Empty(), fuel)
       case Late => Late
       case Fails(_) => Fails(s)
       case Matches(len, _) => Matches(len, s))
    case Reference(id) =>
      if fuel == 0 then Late
      else
        match RuleAt(g, id, p, fuel - 1)
        case Unknown => Late
        case Rejected => Fails(s)
        case Value(len, v) => Matches(len, PassOn(g.rules[id], s, v))
  }

  // From the k-th operator on, i characters into the sequence, with the values c so far.
  ghost function SeqFrom<V>(g: Grammar<V>, e: Ope, p: nat, k: nat, i: nat, c: Values<V>, fuel: nat): (o: Out<V>)
    requires Proper(g) && e.Sequence? && Known(|g.rules|, e) && p + i <= g.end && Balanced(c) && k <= |e.es|
    ensures Within(g, p, c, o)
    decreases fuel, e, |e.es| - k
  {
    if k == |e.es| then Matches(i, c)
    else
      match Eval(g, e.es[k], p + i, c, fuel)
      case Late => Late
      case Fails(c') => Fails(c')
      case Matches(len, c') => SeqFrom(g, e, p, k + 1, i + len, c', fuel)
  }

  // From the k-th alternative on.
  ghost function ChoiceFrom<V>(g: Grammar<V>, e: Ope, p: nat, k: nat, s: Values<V>, fuel: nat): (o: Out<V>)
    requires Proper(g) && e.Choice? && Known(|g.rules|, e) && p <= g.end && Balanced(s) && k <= |e.es|
    ensures Within(g, p, s, o)
    decreases fuel, e, |e.es| - k
  {
    if k == |e.es| then Fails(s)
    else
      match Eval(g, e.es[k], p, Empty(), fuel)
      case Late => Late
      case Fails(_) => ChoiceFrom(g, e, p, k + 1, s, fuel)
      case Matches(len, c) => Matches(len, Joined(s, c).(count := |e.es|, choice := k))
  }

  // After `count` rounds that took i characters.
  ghost function RepFrom<V>(g: Grammar<V>, e: Ope, p: nat, i: nat, count: nat, s: Values<V>, fuel: nat): (o: Out<V>)
    requires Proper(g) && e.Repetition? && Known(|g.rules|, e) && p + i <= g.end && Balanced(s)
    ensures Within(g, p, s, o)
    decreases fuel, e, 0
  {
    if fuel == 0 then Late
    else if count < e.min || (p + i < g.end && count < e.max) then
      match Eval(g, e.e, p + i, s, fuel)
      case Late => Late
      case Fails(s') => if count < e.min then Fails(s') else Matches(i, RollBack(s, s'))
      case Matches(len, s') => RepFrom(g, e, p, i + len, count + 1, s', fuel - 1)
    else Matches(i, s)
  }

  // The value of a rule at p.
  ghost function RuleAt<V>(g: Grammar<V>, id: nat, p: nat, fuel: nat): (r: Got<V>)
    requires Proper(g) && id < |g.rules| && p <= g.end
    ensures r.Value? ==> p + r.len <= g.end
    decreases fuel
  {
    match Eval(g, g.rules[id].body, p, Empty(), fuel)
    case Late => Unknown
    case Fails(_) => Rejected
    case Matches(len, c) =>
      match Reduced(g, id, p, len, Shown(g.rules[id], c))
      case Nothing => Rejected
      case Just(v) => Value(len, v)
  }

  // ---- More fuel does not change a result ------------------------------------------------------

  lemma {:induction false} EvalMore<V>(g: Grammar<V>, e: Ope, p: nat, s: Values<V>, f: nat, f': nat)
    requires Proper(g) && Known(|g.rules|, e) && p <= g.end && Balanced(s) && f <= f'
    ensures !Eval(g, e, p, s, f).Late? ==> Eval(g, e, p, s, f') == Eval(g, e, p, s, f)
    decreases f, e
  {
    match e
    case Sequence(_) => SeqMore(g, e, p, 0, 0, Empty(), f, f');
    case Choice(_) => ChoiceMore(g, e, p, 0, s, f, f');
    case Repetition(_, _, _) => RepMore(g, e, p, 0, 0, s, f, f');
    case Terminal(_) =>
    case Reference(id) => if f > 0 { RuleMore(g, id, p, f - 1, f' - 1); }
    case Token(e') => EvalMore(g, e', p, s, f, f');
    case And(e') => EvalMore(g, e', p, Empty(), f, f');
    case Not(e') => EvalMore(g, e', p, Empty(), f, f');
    case Ignore(e') => EvalMore(g, e', p, Empty(), f, f');
  }

  lemma {:induction false} SeqMore<V>(g: Grammar<V>, e: Ope, p: nat, k: nat, i: nat, c: Values<V>, f: nat, f': nat)
    requires Proper(g) && e.Sequence? && Known(|g.rules|, e) && p + i <= g.end && Balanced(c) && k <= |e.es| && f <= f'
    ensures !SeqFrom(g, e, p, k, i, c, f).Late? ==> SeqFrom(g, e, p, k, i, c, f') == SeqFrom(g, e, p, k, i, c, f)
    decreases f, e, |e.es| - k
  {
    if k < |e.es| {
      EvalMore(g, e.es[k], p + i, c, f, f');
      var o := Eval(g, e.es[k], p + i, c, f);
      if o.Matches? { SeqMore(g, e, p, k + 1, i + o.len, o.s, f, f'); }
    }
  }

  lemma {:induction false} ChoiceMore<V>(g: Grammar<V>, e: Ope, p: nat, k: nat, s: Values<V>, f: nat, f': nat)
    requires Proper(g) && e.Choice? && Known(|g.rules|, e) && p <= g.end && Balanced(s) && k <= |e.es| && f <= f'
    ensures !ChoiceFrom(g, e, p, k, s, f).Late? ==> ChoiceFrom(g, e, p, k, s, f') == ChoiceFrom(g, e, p, k, s, f)
    decreases f, e, |e.es| - k
  {
    if k < |e.es| {
      EvalMore(g, e.es[k], p, Empty(), f, f');
      ChoiceMore(g, e, p, k + 1, s, f, f');
    }
  }

  lemma {:induction false} RepMore<V>(g: Grammar<V>, e: Ope, p: nat, i: nat, count: nat, s: Values<V>, f: nat, f': nat)
    requires Proper(g) && e.Repetition? && Known(|g.rules|, e) && p + i <= g.end && Balanced(s) && f <= f'
    ensures !RepFrom(g, e, p, i, count, s, f).Late?
            ==> RepFrom(g, e, p, i, count, s, f') == RepFrom(g, e, p, i, count, s, f)
    decreases f, e, 0
  {
    if f > 0 {
      EvalMore(g, e.e, p + i, s, f, f');
      var o := Eval(g, e.e, p + i, s, f);
      if o.Matches? { RepMore(g, e, p, i + o.len, count + 1, o.s, f - 1, f' - 1); }
    }
  }

  lemma {:induction false} RuleMore<V>(g: Grammar<V>, id: nat, p: nat, f: nat, f': nat)
    requires Proper(g) && id < |g.rules| && p <= g.end && f <= f'
    ensures !RuleAt(g, id, p, f).Unknown? ==> RuleAt(g, id, p, f') == RuleAt(g, id, p, f)
    decreases f
  {
    EvalMore(g, g.rules[id].body, p, Empty(), f, f');
  }

  // ---- What they mean -----------------------------------------------------------------------------

  // Some fuel is enough for this result.
  ghost predicate Means<V>(g: Grammar<V>, e: Ope, p: nat, s: Values<V>, o: Out<V>)
    requires Proper(g) && Known(|g.rules|, e) && p <= g.end && Balanced(s)
    ensures Means(g, e, p, s, o) ==> !o.Late? && Within(g, p, s, o)
  {
    !o.Late? && exists f: nat :: Eval(g, e, p, s, f) == o
  }

  ghost predicate SeqMeans<V>(g: Grammar<V>, e: Ope, p: nat, k: nat, i: nat, c: Values<V>, o: Out<V>)
    requires Proper(g) && e.Sequence? && Known(|g.rules|, e) && p + i <= g.end && Balanced(c) && k <= |e.es|
  {
    !o.Late? && exists f: nat :: SeqFrom(g, e, p, k, i, c, f) == o
  }

  ghost predicate ChoiceMeans<V>(g: Grammar<V>, e: Ope, p: nat, k: nat, s: Values<V>, o: Out<V>)
    requires Proper(g) && e.Choice? && Known(|g.rules|, e) && p <= g.end && Balanced(s) && k <= |e.es|
  {
    !o.Late? && exists f: nat :: ChoiceFrom(g, e, p, k, s, f) == o
  }

  ghost predicate RepMeans<V>(g: Grammar<V>, e: Ope, p: nat, i: nat, count: nat, s: Values<V>, o: Out<V>)
    requires Proper(g) && e.Repetition? && Known(|g.rules|, e) && p + i <= g.end && Balanced(s)
  {
    !o.Late? && exists f: nat :: RepFrom(g, e, p, i, count, s, f) == o
  }

  ghost predicate RuleMeans<V>(g: Grammar<V>, id: nat, p: nat, r: Got<V>)
    requires Proper(g) && id < |g.rules| && p <= g.end
    ensures RuleMeans(g, id, p, r) && r.Value? ==> p + r.len <= g.end
  {
    !r.Unknown? && exists f: nat :: RuleAt(g, id, p, f) == r
  }

  // Any fuel that is enough gives the same result.
  lemma OneOut<V>(g: Grammar<V>, e: Ope, p: nat, s: Values<V>, o: Out<V>, fuel: nat)
    requires Proper(g) && Known(|g.rules|, e) && p <= g.end && Balanced(s) && Means(g, e, p, s, o)
    ensures Eval(g, e, p, s, fuel) == Late || Eval(g, e, p, s, fuel) == o
    ensures exists f: nat :: f >= fuel && Eval(g, e, p, s, f) == o
  {
    var f: nat :| Eval(g, e, p, s, f) == o;
    if f <= fuel { EvalMore(g, e, p, s, f, fuel); } else { EvalMore(g, e, p, s, fuel, f); }
  }

  lemma SameOut<V>(g: Grammar<V>, e: Ope, p: nat, s: Values<V>, o: Out<V>, o': Out<V>)
    requires Proper(g) && Known(|g.rules|, e) && p <= g.end && Balanced(s) && Means(g, e, p, s, o)
             && Means(g, e, p, s, o')
    ensures o == o'
  {
    var f: nat :| Eval(g, e, p, s, f) == o';
    OneOut(g, e, p, s, o, f);
  }

  // ---- What an operator leaves behind when it fails -----------------------------------------------

  // No repetition that wants two rounds, nor a token or a repetition of one.
  predicate Traceless(e: Ope)
    decreases e
  {
    match e
    case Repetition(e', min, _) => min == 0 || (min == 1 && Traceless(e'))
    case Token(e') => Traceless(e')
    case _ => true
  }

  // Such an operator leaves the values as they were when it fails, so that there is nothing
  // to take back.
  lemma {:induction false} FailsTraceless<V>(g: Grammar<V>, e: Ope, p: nat, s: Values<V>, fuel: nat)
    requires Proper(g) && Known(|g.rules|, e) && p <= g.end && Balanced(s) && Traceless(e)
    ensures var o := Eval(g, e, p, s, fuel); o.Fails? ==> o.s == s && RollBack(s, o.s) == s
    decreases e
  {
    match e
    case Repetition(e', min, _) =>
      if min == 1 { FailsTraceless(g, e', p, s, fuel); }
      FirstRound(g, e, p, s, fuel);
    case Token(e') => FailsTraceless(g, e', p, s, fuel);
    case Choice(_) => ChoiceTraceless(g, e, p, 0, s, fuel);
    case _ =>
  }

  lemma {:induction false} ChoiceTraceless<V>(g: Grammar<V>, e: Ope, p: nat, k: nat, s: Values<V>, fuel: nat)
    requires Proper(g) && e.Choice? && Known(|g.rules|, e) && p <= g.end && Balanced(s) && k <= |e.es|
    ensures var o := ChoiceFrom(g, e, p, k, s, fuel); o.Fails? ==> o.s == s
    decreases |e.es| - k
  {
    if k < |e.es| { ChoiceTraceless(g, e, p, k + 1, s, fuel); }
  }

  // A repetition that wants one round at most fails in the first if at all.
  lemma FirstRound<V>(g: Grammar<V>, e: Ope, p: nat, s: Values<V>, fuel: nat)
    requires Proper(g) && e.Repetition? && e.min <= 1 && Known(|g.rules|, e) && p <= g.end && Balanced(s)
    ensures var o := RepFrom(g, e, p, 0, 0, s, fuel);
            o.Fails? ==> e.min == 1 && Eval(g, e.e, p, s, fuel) == o
  {
    if fuel > 0 && e.min == 1 {
      var o := Eval(g, e.e, p, s, fuel);
      if o.Matches? { LaterRounds(g, e, p, o.len, 1, o.s, fuel - 1); }
    }
    if e.min == 0 { LaterRounds(g, e, p, 0, 0, s, fuel); }
  }

  lemma {:induction false} LaterRounds<V>(g: Grammar<V>, e: Ope, p: nat, i: nat, count: nat, s: Values<V>, fuel: nat)
    requires Proper(g) && e.Repetition? && count >= e.min && Known(|g.rules|, e) && p + i <= g.end && Balanced(s)
    ensures !RepFrom(g, e, p, i, count, s, fuel).Fails?
    decreases fuel
  {
    if fuel > 0 && p + i < g.end && count < e.max {
      var o := Eval(g, e.e, p + i, s, fuel);
      if o.Matches? { LaterRounds(g, e, p, i + o.len, count + 1, o.s, fuel - 1); }
    }
  }

  // ---- Rules that are repeated ----------------------------------------------------------------------

  // With n rounds wanted, n - 1 values may be left behind.
  lemma {:induction false} ReferencesFail<V>(g: Grammar<V>, e: Ope, p: nat, i: nat, count: nat, s: Values<V>, fuel: nat)
    requires Proper(g) && e.Repetition? && e.e.Reference? && Known(|g.rules|, e) && p + i <= g.end && Balanced(s)
    ensures var o := RepFrom(g, e, p, i, count, s, fuel);
            o.Fails? ==> count < e.min && |o.s.vals| <= |s.vals| + (e.min - 1 - count) && o.s.tokens == s.tokens
                         && o.s.count == s.count && o.s.choice == s.choice
    decreases fuel
  {
    if fuel > 0 && (count < e.min || (p + i < g.end && count < e.max)) {
      var o := Eval(g, e.e, p + i, s, fuel);
      if o.Matches? { ReferencesFail(g, e, p, i + o.len, count + 1, o.s, fuel - 1); }
    }
  }

  // A failed round of this operator is taken back as a whole.
  ghost predicate TakenBack(g: Grammar<int>, e: Ope, p: nat, s: Values<int>, fuel: nat)
  {
    Proper(g) && Known(|g.rules|, e) && p <= g.end && Balanced(s) && Eval(g, e, p, s, fuel).Fails? ==>
      RollBack(s, Eval(g, e, p, s, fuel).s) == s
  }

  // For a rule that is wanted n times this is so, whatever the grammar and the text, if
  // and only if n is two at most.
  lemma RepeatedReference(id: nat, n: nat, max: nat)
    ensures (forall g: Grammar<int>, p: nat, s, fuel: nat :: TakenBack(g, Repetition(Reference(id), n, max), p, s,
              fuel))
            <==> n <= 2
  {
    var e := Repetition(Reference(id), n, max);
    if n <= 2 {
      forall g: Grammar<int>, p: nat, s, fuel: nat ensures TakenBack(g, e, p, s, fuel) {
        if Proper(g) && Known(|g.rules|, e) && p <= g.end && Balanced(s) && Eval(g, e, p, s, fuel).Fails? {
          ReferencesFail(g, e, p, 0, 0, s, fuel);
          RollBackExact(s, Eval(g, e, p, s, fuel).s);
        }
      }
    } else {
      LeftBehind(id, n, max, n + 1);
      assert !TakenBack(Digits(id, n), e, 0, Empty(), n + 1);
    }
  }

  // ---- An input -------------------------------------------------------------------------------------

  // A text of n characters, the last of which is no digit; the rule with this number
  // matches one digit, and has its position as its value.
  function Digits(id: nat, n: nat): Grammar<int>
  {
    Grammar(seq(id + 1, _ => Rule(Terminal(0), 7, true, false)), n, (t, p) => if p + 1 < n then Just(1) else Nothing,
            (id, p: nat, len, s) => Just(p), 0)
  }

  // The values of k digits from this position on.
  function Positions(first: nat, k: nat): Values<int>
  {
    Values(seq(k, i => first + i), seq(k, _ => 7), [], 0, 0)
  }

  lemma DigitsProper(id: nat, n: nat)
    ensures Proper(Digits(id, n))
  {
    var g := Digits(id, n);
    forall i | 0 <= i < |g.rules| ensures Known(|g.rules|, g.rules[i].body) { assert g.rules[i].body == Terminal(0); }
    forall t, p ensures Fits(g, t, p) {
    }
  }

  lemma OneDigit(id: nat, n: nat, p: nat, fuel: nat)
    requires p <= n && fuel >= 1
    ensures Proper(Digits(id, n)) && Known(id + 1, Reference(id))
    ensures Eval(Digits(id, n), Reference(id), p, Positions(0, p), fuel)
         == if p + 1 < n then Matches(1, Positions(0, p + 1)) else Fails(Positions(0, p))
  {
    var g := Digits(id, n);
    DigitsProper(id, n);
    assert g.rules[id] == Rule(Terminal(0), 7, true, false);
    assert Eval(g, Terminal(0), p, Empty(), fuel - 1) == if p + 1 < n then Matches(1, Empty()) else Fails(Empty());
    assert RuleAt(g, id, p, fuel - 1) == if p + 1 < n then Value(1, p) else Rejected;
    var was, now := Positions(0, p), Positions(0, p + 1);
    assert was.vals + [p as int] == now.vals && was.tags + [7] == now.tags;
  }

  // All digits are taken, and then the repetition fails.
  lemma {:induction false} DigitsFail(id: nat, n: nat, max: nat, k: nat, fuel: nat)
    requires k < n && fuel > n - k
    ensures Proper(Digits(id, n)) && Known(id + 1, Repetition(Reference(id), n, max))
    ensures RepFrom(Digits(id, n), Repetition(Reference(id), n, max), 0, k, k, Positions(0, k), fuel)
         == Fails(Positions(0, n - 1))
    decreases n - k
  {
    OneDigit(id, n, k, fuel);
    if k + 1 < n { DigitsFail(id, n, max, k + 1, fuel - 1); }
  }

  // `(D{n})?` on n - 1 digits matches nothing, and passes on the values of all digits but
  // the first.
  lemma LeftBehind(id: nat, n: nat, max: nat, fuel: nat)
    requires n >= 3 && fuel > n
    ensures var g := Digits(id, n); var e := Repetition(Reference(id), n, max);
            Proper(g) && Known(|g.rules|, e) && Eval(g, e, 0, Empty(), fuel) == Fails(Positions(0, n - 1))
            && RollBack(Empty(), Positions(0, n - 1)) == Positions(1, n - 2)
            && Eval(g, Repetition(e, 0, 1), 0, Empty(), fuel) == Matches(0, Positions(1, n - 2))
  {
    var g, e := Digits(id, n), Repetition(Reference(id), n, max);
    var all, left := Positions(0, n - 1), Positions(1, n - 2);
    assert Positions(0, 0) == Empty<int>();
    DigitsFail(id, n, max, 0, fuel);
    assert Eval(g, e, 0, Empty(), fuel) == Fails(all);
    assert Erase(all.vals, 0) == left.vals && Erase(all.tags, 0) == left.tags;
    assert RepFrom(g, Repetition(e, 0, 1), 0, 0, 0, Empty(), fuel) == Matches(0, left);
  }
}
