// A program that is laid out as bytes runs as before: every instruction does the same,
// and the labels are only addresses.
module BcLaid {
  import opened Maybes
  import opened BcSyntax
  import opened BcStore
  import opened BcEval
  import opened BcMachine
  import opened BcLabels
  import opened BcBytes

  // Every jump finds its label.
  ghost predicate JumpsInside(code: seq<Item>)
  {
    forall k :: 0 <= k < |code| && code[k].Jump? ==> Label(code[k].target) in code
  }

  ghost predicate GoodCode(code: seq<Item>)
    ensures GoodCode(code) ==> AllFit(code)
  {
    AllFit(code) && Unique(code) && JumpsInside(code)
  }

  // The bytes and addresses of all segments.
  ghost predicate Laid(P: Program, B: ByteProgram)
    ensures Laid(P, B) ==> InTables(B) && B.C == P.C && forall fn: nat :: AllFit(Segment(P, fn))
  {
    B.C == P.C && InTables(B)
    && forall fn: nat :: GoodCode(Segment(P, fn))
                         && BodyOf(B, fn) == Bytes(Segment(P, fn)) && TableOf(B, fn) == Addresses(Segment(P, fn))
  }

  lemma SegmentLaid(P: Program, B: ByteProgram, fn: nat)
    requires Laid(P, B)
    ensures var code := Segment(P, fn);
            GoodCode(code) && BodyOf(B, fn) == Bytes(code) && TableOf(B, fn) == Addresses(code)
  {
    hide GoodCode;
  }

  // ---- The table holds the places of the labels ------------------------------------------

  lemma {:induction false} LastDefines(code: seq<Item>, k: nat)
    requires AllFit(code) && k < |code| && code[k].Label? && forall j :: k < j < |code| ==> code[j] != code[k]
    ensures AddressOf(Addresses(code), code[k].id) == Just(Address(code, k))
    decreases |code|
  {
    hide Bytes, Define, AddressOf, Fits;
    var n := |code| - 1;
    var gs := Addresses(code[..n]);
    if k < n {
      LastDefines(code[..n], k);
      assert code[..n][..k] == code[..k];
      if code[n].Label? { DefineIs(gs, code[n].id, |Bytes(code[..n])|, code[k].id); }
    } else {
      DefineIs(gs, code[n].id, |Bytes(code[..n])|, code[n].id);
    }
  }

  lemma LabelAddress(code: seq<Item>, id: nat)
    requires GoodCode(code) && Label(id) in code
    ensures AddressOf(Addresses(code), id) == Just(Address(code, Find(code, id)))
  {
    hide Find, Times, Addresses, AddressOf, Bytes, Fits;
    var k :| 0 <= k < |code| && code[k] == Label(id);
    FindIs(code, k, id);
    forall j | k < j < |code| ensures code[j] != code[k] {
      if code[j] == code[k] { FindIs(code, j, id); }
    }
    LastDefines(code, k);
  }

  // ---- The machine with addresses ------------------------------------------------------------

  ghost predicate Framed(P: Program, f: Frame)
  {
    f.pc <= |Segment(P, f.fn)|
  }

  // The machine is at items, and will come back to items.
  ghost predicate Inside(P: Program, m: Machine)
  {
    m.pc <= |Segment(P, m.fn)| && forall i :: 0 <= i < |m.frames| ==> Framed(P, m.frames[i])
  }

  function InBytesFrame(P: Program, f: Frame): Frame
    requires Framed(P, f) && AllFit(Segment(P, f.fn))
  {
    f.(pc := Address(Segment(P, f.fn), f.pc))
  }

  function InBytes(P: Program, m: Machine): (r: Machine)
    requires Inside(P, m) && forall fn: nat :: AllFit(Segment(P, fn))
    ensures r.fn == m.fn && r.stack == m.stack && r.s == m.s && r.status == m.status && |r.frames| == |m.frames|
    ensures ConstBaseOf(r) == ConstBaseOf(m)
  {
    m.(pc := Address(Segment(P, m.fn), m.pc),
       frames := seq(|m.frames|, i requires 0 <= i < |m.frames| => InBytesFrame(P, m.frames[i])))
  }

  // ---- One instruction -----------------------------------------------------------------------

  // Elsewhere, the same is done.
  ghost predicate Alike(m: Machine, m2: Machine)
  {
    m2.fn == m.fn && m2.stack == m.stack && m2.s == m.s && m2.status == m.status && ConstBaseOf(m2) == ConstBaseOf(m)
  }

  ghost predicate Stays(m: Machine, r: Machine)
  {
    r.fn == m.fn && r.pc == m.pc && r.frames == m.frames
  }

  // Stack, store and status after an instruction do not depend on the place.
  ghost predicate SameDeed(m: Machine, r: Machine, m2: Machine, r2: Machine)
  {
    Stays(m, r) && Stays(m2, r2) && r2.stack == r.stack && r2.s == r.s && r2.status == r.status
  }

  lemma PlainAlike(P: Program, P2: Program, m: Machine, m2: Machine, c: char)
    requires P2.C == P.C && Alike(m, m2) && c != 'R'
    ensures SameDeed(m, ExecPlain(P, m, c), m2, ExecPlain(P2, m2, c))
  {
    hide ExecTop, ExecTwo, ConstBaseOf;
    if IsUnary(c) && m.stack != [] {
      TopAlike(P.C.A, m, m2, c);
    } else if |m.stack| >= 2 {
      TwoAlike(P.C.A, m, m2, c);
    }
  }

  lemma TopAlike(A: Arith, m: Machine, m2: Machine, c: char)
    requires Alike(m, m2) && m.stack != []
    ensures SameDeed(m, ExecTop(A, m, c), m2, ExecTop(A, m2, c))
  {
    hide StoreVar, Put, ConstBaseOf;
  }

  lemma TwoAlike(A: Arith, m: Machine, m2: Machine, c: char)
    requires Alike(m, m2) && |m.stack| >= 2
    ensures SameDeed(m, ExecTwo(A, m, c), m2, ExecTwo(A, m2, c))
  {
    hide Holds, ConstBaseOf;
  }

  lemma OnVarAlike(P: Program, P2: Program, m: Machine, m2: Machine, c: char, x: nat)
    requires P2.C == P.C && Alike(m, m2)
    ensures SameDeed(m, ExecOnVar(P, m, c, x), m2, ExecOnVar(P2, m2, c, x))
  {
    hide LoadVar, StoreVar, StepVar, Subscript, Elem, SetElem, StepElem, Ensure, ConstBaseOf;
  }

  lemma OtherAlike(P: Program, P2: Program, m: Machine, m2: Machine, it: Item)
    requires P2.C == P.C && Alike(m, m2) && (it.Const? || it.Builtin? || it.Str?)
    ensures SameDeed(m, Exec(P, m, it), m2, Exec(P2, m2, it))
  {
    hide Put, ConstBaseOf;
  }

  // The machine has not moved: the same is true of it with addresses.
  lemma DeedInBytes(P: Program, m: Machine, r: Machine, r2: Machine)
    requires (forall fn: nat :: AllFit(Segment(P, fn))) && Inside(P, m) && SameDeed(m, r, InBytes(P, m), r2)
    ensures Inside(P, r) && r2 == InBytes(P, r)
  {
    hide Address, ConstBaseOf, Segment;
  }

  lemma CallInBytes(P: Program, P2: Program, m: Machine, f: nat, kinds: seq<bool>)
    requires P2.C == P.C && (forall fn: nat :: AllFit(Segment(P, fn))) && Inside(P, m)
    ensures var r := ExecEnter(P, m, f, kinds); Inside(P, r) && ExecEnter(P2, InBytes(P, m), f, kinds) == InBytes(P, r)
  {
    hide EnterFrame, ArgsOn, ArraysNamed, ConstBaseOf, Segment, AllFit, Bytes;
    var r, r2 := ExecEnter(P, m, f, kinds), ExecEnter(P2, InBytes(P, m), f, kinds);
    StartAddress(Segment(P, f));
    if |r.frames| > |m.frames| {
      assert r2.frames == InBytes(P, r).frames;
    }
  }

  lemma StartAddress(code: seq<Item>)
    requires AllFit(code)
    ensures Address(code, 0) == 0
  {
  }

  lemma ReturnInBytes(P: Program, P2: Program, m: Machine)
    requires P2.C == P.C && (forall fn: nat :: AllFit(Segment(P, fn))) && Inside(P, m)
    ensures var r := ExecReturn(P, m); Inside(P, r) && ExecReturn(P2, InBytes(P, m)) == InBytes(P, r)
  {
    hide LeaveFrame, ConstBaseOf, Segment, AllFit, Address;
    var r, r2 := ExecReturn(P, m), ExecReturn(P2, InBytes(P, m));
    if |r.frames| < |m.frames| {
      assert Framed(P, m.frames[|m.frames| - 1]);
      assert r2.frames == InBytes(P, r).frames;
    }
  }

  lemma JumpInBytes(P: Program, B: ByteProgram, m: Machine, c: char, id: nat)
    requires Laid(P, B) && Inside(P, m) && Label(id) in Segment(P, m.fn)
    ensures var r := ExecJump(P, m, c, id); Inside(P, r) && ByteJump(B, InBytes(P, m), c, id) == InBytes(P, r)
  {
    hide Address, AddressOf, Addresses, Find, Segment, GoodCode, ConstBaseOf, Laid;
    SegmentLaid(P, B, m.fn);
    LabelAddress(Segment(P, m.fn), id);
  }

  lemma ExecInBytes(P: Program, B: ByteProgram, m: Machine, it: Item)
    requires Laid(P, B) && Inside(P, m) && !it.Jump? && !it.Label?
    ensures var r := Exec(P, m, it); Inside(P, r) && Exec(Program(B.C, map[]), InBytes(P, m), it) == InBytes(P, r)
  {
    hide ExecPlain, ExecOnVar, ExecEnter, ExecReturn, Laid, InBytes, Inside, Stays, SameDeed, ConstBaseOf;
    var P2, m2 := Program(B.C, map[]), InBytes(P, m);
    match it
    case Plain(c) =>
      if c == 'R' {
        ReturnInBytes(P, P2, m);
        PlainReturn(P, m);
        PlainReturn(P2, m2);
      } else {
        PlainAlike(P, P2, m, m2, c);
        DeedInBytes(P, m, Exec(P, m, it), Exec(P2, m2, it));
      }
    case OnVar(c, x) =>
      OnVarAlike(P, P2, m, m2, c, x);
      DeedInBytes(P, m, Exec(P, m, it), Exec(P2, m2, it));
    case Enter(f, kinds) => CallInBytes(P, P2, m, f, kinds);
    case _ =>
      OtherAlike(P, P2, m, m2, it);
      DeedInBytes(P, m, Exec(P, m, it), Exec(P2, m2, it));
  }

  lemma PlainReturn(P: Program, m: Machine)
    ensures Exec(P, m, Plain('R')) == ExecReturn(P, m)
  {
  }

  // ---- Steps ---------------------------------------------------------------------------------

  // A label is no step, and everything else is one.
  lemma StepInBytes(P: Program, B: ByteProgram, m: Machine)
    requires Laid(P, B) && Inside(P, m) && Active(P, m)
    ensures Inside(P, Step(P, m))
    ensures if Segment(P, m.fn)[m.pc].Label? then InBytes(P, Step(P, m)) == InBytes(P, m)
            else ByteActive(B, InBytes(P, m)) && ByteStep(B, InBytes(P, m)) == InBytes(P, Step(P, m))
  {
    hide Address, Exec, Segment, GoodCode, Laid, ReadAt, Encode, ByteJump, Bytes;
    var code, it := Segment(P, m.fn), Segment(P, m.fn)[m.pc];
    SegmentLaid(P, B, m.fn);
    ItemLies(code, m.pc);
    NextInBytes(P, m);
    if it.Label? {
      LabelStep(P, m);
    } else {
      ComesBack(Bytes(code), Address(code, m.pc), it);
      if it.Jump? {
        JumpThere(code, m.pc);
        JumpInBytes(P, B, Next(m), it.c, it.target);
        JumpStep(P, m);
      } else {
        ExecInBytes(P, B, Next(m), it);
      }
    }
  }

  lemma JumpThere(code: seq<Item>, k: nat)
    requires GoodCode(code) && k < |code| && code[k].Jump?
    ensures Label(code[k].target) in code
  {
    hide AllFit, Unique;
  }

  lemma JumpStep(P: Program, m: Machine)
    requires Active(P, m) && Segment(P, m.fn)[m.pc].Jump?
    ensures var it := Segment(P, m.fn)[m.pc]; Exec(P, Next(m), it) == ExecJump(P, Next(m), it.c, it.target)
  {
  }

  lemma LabelStep(P: Program, m: Machine)
    requires Active(P, m) && Segment(P, m.fn)[m.pc].Label?
    ensures Step(P, m) == Next(m) && Encode(Segment(P, m.fn)[m.pc]) == []
  {
  }

  lemma NextInBytes(P: Program, m: Machine)
    requires (forall fn: nat :: AllFit(Segment(P, fn))) && Inside(P, m) && Active(P, m)
    ensures var code := Segment(P, m.fn);
            Inside(P, Next(m))
            && InBytes(P, Next(m)) == InBytes(P, m).(pc := Address(code, m.pc) + |Encode(code[m.pc])|)
            && InBytes(P, m).pc == Address(code, m.pc)
  {
    hide Address, Segment, Encode, ConstBaseOf;
    ItemLies(Segment(P, m.fn), m.pc);
  }
}
