// The dictionary of compress (compress42.c): a hash table with open addressing and
// a second hash for the step, whose size is a prime number.  It refines a map from
// pairs of a prefix code and a byte to codes.
module LzwHash {
  import opened Powers
  import opened Bits
  import opened Hash

  // ---- Prime sizes -----------------------------------------------------------------------

  predicate Prime(h: nat)
  {
    h > 1 && forall d :: 1 < d < h ==> h % d != 0
  }

  lemma RemainderOfProduct(h: nat, a: nat, b: nat, c: nat)
    requires a > 0 && a * b == c * h
    ensures (h % a) * b == (b - (h / a) * c) * h
  {
    var q, r := h / a, h % a;
    assert h == a * q + r;
    calc {
      r * b;
      (h - a * q) * b;
      h * b - (a * q) * b;
      { MulAssoc(q, a, b); assert (a * q) * b == q * (a * b); }
      h * b - q * (a * b);
      h * b - q * (c * h);
      { MulAssoc(q, c, h); Distribute(b, -(q * c), h); }
      (b - q * c) * h;
    }
  }

  // A prime divides no product of two smaller positive numbers.
  lemma {:induction false} PrimeProduct(h: nat, a: nat, b: nat, c: int)
    requires Prime(h) && 0 < a < h && 0 < b < h
    ensures a * b != c * h
    decreases a
  {
    if a * b == c * h {
      Positive(a, b, c, h);
      if a == 1 {
        if c >= 1 { MulMono(1, c, h); }
      } else {
        RemainderOfProduct(h, a, b, c);
        PrimeProduct(h, h % a, b, b - (h / a) * c);
      }
    }
  }

  lemma Positive(a: nat, b: nat, c: int, h: nat)
    requires a > 0 && b > 0 && h > 0 && a * b == c * h
    ensures c > 0
  {
    if c <= 0 { MulMono(c, 0, h); MulMono(1, a, b); }
  }

  // ---- The probe sequence ------------------------------------------------------------------

  // fcode: the byte and the prefix code side by side.
  function Key(c: Byte, ent: nat): int
  {
    c + 65536 * ent
  }

  lemma KeyInjective(c: Byte, ent: nat, c': Byte, ent': nat)
    requires Key(c, ent) == Key(c', ent')
    ensures c == c' && ent == ent'
  {
  }

  function Home(c: Byte, ent: nat): nat
  {
    Xor(c * 256, ent)
  }

  lemma {:induction false} XorBound(x: nat, y: nat, n: nat)
    requires x < Pow2(n) && y < Pow2(n)
    ensures Xor(x, y) < Pow2(n)
    decreases n
  {
    if n > 0 {
      XorHalf(x, y);
      XorBound(x / 2, y / 2, n - 1);
    }
  }

  lemma HomeBound(c: Byte, ent: nat)
    requires ent < 65536
    ensures Home(c, ent) < 65536
  {
    hide Xor;
    Pow8();
    XorBound(c * 256, ent, 16);
  }

  // The slot after i steps backward from start.
  function Probe(h: nat, start: nat, i: nat): (p: nat)
    requires start < h
    ensures p < h
  {
    if i == 0 then start
    else
      var p := Probe(h, start, i - 1) - (h - start - 1);
      if p < 0 then p + h else p
  }

  // How often the sequence has gone around.
  function Turns(h: nat, start: nat, i: nat): nat
    requires start < h
  {
    if i == 0 then 0
    else Turns(h, start, i - 1) + if Probe(h, start, i - 1) < h - start - 1 then 1 else 0
  }

  lemma {:induction false} ProbeIs(h: nat, start: nat, i: nat)
    requires start < h
    ensures Probe(h, start, i) == start - i * (h - start - 1) + Turns(h, start, i) * h
  {
    if i > 0 {
      ProbeIs(h, start, i - 1);
      var d, t := h - start - 1, Turns(h, start, i - 1);
      Distribute(i - 1, 1, d);
      Distribute(t, 1, h);
    }
  }

  // The sequence comes to every slot once.
  lemma ProbesDiffer(h: nat, start: nat, i: nat, j: nat)
    requires Prime(h) && start < h - 1 && i < j < h && h - start - 1 < h
    ensures Probe(h, start, i) != Probe(h, start, j)
  {
    hide Prime, Probe, Turns;
    ProbeIs(h, start, i);
    ProbeIs(h, start, j);
    NotTwice(h, start, i, j, h - start - 1, Turns(h, start, i), Turns(h, start, j));
  }

  // Two ways to one slot would make the size divide a product.
  lemma NotTwice(h: nat, start: int, i: int, j: int, d: int, t: int, u: int)
    requires Prime(h) && 0 <= i < j < h && 0 < d < h
    ensures start - i * d + t * h != start - j * d + u * h
  {
    hide Prime;
    Distribute(j, -i, d);
    Distribute(u, -t, h);
    PrimeProduct(h, j - i, d, u - t);
  }

  // ---- The table -------------------------------------------------------------------------

  class HashTable {
    const hsize: nat
    const htab: array<int>
    const codetab: array<int>
    // What the table stands for, and the slot of every key.
    ghost var dict: map<int, nat>
    ghost var slot: map<int, nat>

    ghost predicate Sizes()
    {
      Prime(hsize) && hsize > 65536 && htab.Length == hsize && codetab.Length == hsize && htab != codetab
    }

    // The key is in its slot, and no slot on the way to it is empty.
    ghost predicate Findable(c: Byte, ent: nat)
      reads this, htab
      requires Sizes() && ent < 65536 && Key(c, ent) in slot
    {
      HomeBound(c, ent);
      exists i: nat :: OnTheWay(Home(c, ent), i) && i < hsize && slot[Key(c, ent)] == Probe(hsize, Home(c, ent), i)
    }

    // None of the first i slots is empty.
    ghost predicate OnTheWay(start: nat, i: nat)
      reads htab
      requires Sizes() && start < hsize
    {
      forall j: nat :: j < i ==> htab[Probe(hsize, start, j)] != -1
    }

    ghost predicate Valid()
      reads this, htab, codetab
      ensures Valid() ==> Sizes()
    {
      Sizes() && dict.Keys == slot.Keys && |dict| < hsize - 1
      && (forall p :: 0 <= p < hsize && htab[p] != -1 ==> htab[p] in slot && slot[htab[p]] == p)
      && (forall k :: k in slot ==> k != -1 && slot[k] < hsize && htab[slot[k]] == k && codetab[slot[k]] == dict[k])
      && (forall c: Byte, ent: nat :: ent < 65536 && Key(c, ent) in slot ==> Findable(c, ent))
    }

    constructor (size: nat)
      requires Prime(size) && size > 65536
      ensures Valid() && dict == map[] && hsize == size && fresh(htab) && fresh(codetab)
    {
      var h, c := new int[size], new int[size];
      hsize, htab, codetab, dict, slot := size, h, c, map[], map[];
      new;
      ClearHtab();
    }

    // clear_htab
    method ClearHtab()
      requires Sizes()
      modifies this, htab
      ensures Valid() && dict == map[]
    {
      var p := 0;
      while p < hsize
        invariant 0 <= p <= hsize && forall q :: 0 <= q < p ==> htab[q] == -1
      {
        htab[p] := -1;
        p := p + 1;
      }
      dict, slot := map[], map[];
    }

    // Look for the pair; when it is missing, hp is the empty slot for it.
    method Find(c: Byte, ent: nat) returns (hp: nat, found: bool)
      requires Valid() && ent < 65536
      ensures found <==> Key(c, ent) in dict
      ensures hp < hsize && (found ==> codetab[hp] == dict[Key(c, ent)])
      ensures !found ==> Free(c, ent, hp)
    {
      hide Prime, Probe, Xor, Home, Key, HashTable.Valid, HashTable.Misses, HashTable.OnTheWay, HashTable.Earlier,
        HashTable.Free;
      HomeBound(c, ent);
      var fc, start := Key(c, ent), Home(c, ent);
      hp := start;
      AtStart(start, fc);
      InSlot(c, ent, hp);
      if htab[hp] == fc { return hp, true; }
      ghost var i: nat := 0;
      ghost var seen: set<int> := {};
      var disp := hsize - hp - 1;
      while htab[hp] != -1
        invariant hp < hsize && hp == Probe(hsize, start, i) && i == |seen| <= |slot| && seen <= slot.Keys
                  && htab[hp] != fc
        invariant forall k :: k in seen ==> Earlier(start, i, k)
        invariant OnTheWay(start, i) && Misses(start, i, fc)
        decreases |slot| - i
      {
        InSlot(c, ent, hp);
        NotSeen(start, i, seen);
        seen := seen + {htab[hp]};
        Fits(seen, slot.Keys);
        EarlierStays(start, i, seen);
        ProbeStep(start, i);
        OneFurther(start, i, fc);
        i := i + 1;
        hp := if hp < disp then hp - disp + hsize else hp - disp;
        InSlot(c, ent, hp);
        if htab[hp] == fc { return hp, true; }
      }
      IsFree(c, ent, i, hp);
      found := false;
    }

    lemma InSlot(c: Byte, ent: nat, hp: nat)
      requires Valid() && hp < hsize
      ensures htab[hp] != -1 ==> htab[hp] in slot
      ensures htab[hp] == Key(c, ent) ==> Key(c, ent) in dict && codetab[hp] == dict[Key(c, ent)]
    {
      hide Prime, HashTable.Findable;
    }

    lemma OneFurther(start: nat, i: nat, k: int)
      requires Sizes() && start < hsize && OnTheWay(start, i) && Misses(start, i, k)
      requires var e := htab[Probe(hsize, start, i)]; e != -1 && e != k
      ensures OnTheWay(start, i + 1) && Misses(start, i + 1, k)
    {
      hide Prime, Probe;
    }

    // An empty slot where the search for the pair ends.
    ghost predicate Free(c: Byte, ent: nat, hp: nat)
      reads this, htab
      requires Sizes() && ent < 65536
    {
      HomeBound(c, ent);
      hp < hsize && htab[hp] == -1 && Key(c, ent) !in slot
      && exists i: nat :: OnTheWay(Home(c, ent), i) && i < hsize && hp == Probe(hsize, Home(c, ent), i)
    }

    ghost predicate Misses(start: nat, i: nat, k: int)
      reads htab
      requires Sizes() && start < hsize
    {
      forall j: nat :: j < i ==> htab[Probe(hsize, start, j)] != k
    }

    ghost predicate Earlier(start: nat, i: nat, k: int)
      reads htab
      requires Sizes() && start < hsize
    {
      exists j: nat :: j < i && htab[Probe(hsize, start, j)] == k
    }

    lemma AtStart(start: nat, k: int)
      requires Sizes() && start < hsize
      ensures Probe(hsize, start, 0) == start && OnTheWay(start, 0) && Misses(start, 0, k)
    {
    }

    lemma ProbeStep(start: nat, i: nat)
      requires start < hsize
      ensures var p, d := Probe(hsize, start, i), hsize - start - 1;
              Probe(hsize, start, i + 1) == if p < d then p - d + hsize else p - d
    {
    }

    lemma Fits(a: set<int>, b: set<int>)
      requires a <= b
      ensures |a| <= |b|
    {
      if a != b { assert b == a + (b - a); }
    }

    lemma NotSeen(start: nat, i: nat, seen: set<int>)
      requires Valid() && start < 65536 && i == |seen| && seen <= slot.Keys && htab[Probe(hsize, start, i)] != -1
      requires forall k :: k in seen ==> Earlier(start, i, k)
      ensures htab[Probe(hsize, start, i)] !in seen
    {
      hide Prime, Probe;
      var k := htab[Probe(hsize, start, i)];
      if k in seen {
        var j: nat :| j < i && htab[Probe(hsize, start, j)] == k;
        Fits(seen, slot.Keys);
        assert |slot| == |slot.Keys| && |dict| == |dict.Keys|;
        ProbesDiffer(hsize, start, j, i);
      }
    }

    lemma EarlierStays(start: nat, i: nat, seen: set<int>)
      requires Sizes() && start < hsize
      requires forall k :: k in seen ==> Earlier(start, i, k) || k == htab[Probe(hsize, start, i)]
      ensures forall k :: k in seen ==> Earlier(start, i + 1, k)
    {
      hide Prime, Probe;
      forall k | k in seen ensures Earlier(start, i + 1, k) {
        if Earlier(start, i, k) {
          var j: nat :| j < i && htab[Probe(hsize, start, j)] == k;
          assert j < i + 1 && htab[Probe(hsize, start, j)] == k;
        }
      }
    }

    lemma IsFree(c: Byte, ent: nat, i: nat, hp: nat)
      requires Valid() && ent < 65536 && Home(c, ent) < hsize && hp == Probe(hsize, Home(c, ent), i) && htab[hp] == -1
      requires i <= |slot| && OnTheWay(Home(c, ent), i)
      requires Misses(Home(c, ent), i, Key(c, ent))
      ensures Free(c, ent, hp) && Key(c, ent) !in dict
    {
      hide Prime, Probe, Xor;
      assert |slot| == |slot.Keys| && |dict| == |dict.Keys|;
    }

    // The pair gets a code.  All others stay where they are found.
    method Put(hp: nat, c: Byte, ent: nat, code: nat)
      requires Valid() && ent < 65536 && Free(c, ent, hp) && |dict| < hsize - 2
      modifies this, htab, codetab
      ensures Valid() && dict == old(dict)[Key(c, ent) := code]
    {
      hide Prime, Probe, Xor, Home;
      HomeBound(c, ent);
      codetab[hp] := code;
      htab[hp] := Key(c, ent);
      dict, slot := dict[Key(c, ent) := code], slot[Key(c, ent) := hp];
      assert |dict| <= |old(dict)| + 1;
      forall c': Byte, ent': nat | ent' < 65536 && Key(c', ent') in slot ensures Findable(c', ent') {
        HomeBound(c', ent');
        if Key(c', ent') == Key(c, ent) {
          KeyInjective(c', ent', c, ent);
          var i: nat :| old(OnTheWay(Home(c, ent), i)) && i < hsize && hp == Probe(hsize, Home(c, ent), i);
          assert OnTheWay(Home(c, ent), i);
        } else {
          assert old(Findable(c', ent'));
          var i: nat :| old(OnTheWay(Home(c', ent'), i)) && i < hsize
              && old(slot)[Key(c', ent')] == Probe(hsize, Home(c', ent'), i);
          assert OnTheWay(Home(c', ent'), i);
        }
      }
    }
  }
}
