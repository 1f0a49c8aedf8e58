// Whole runs on bytes: the bytes of a program end if and only if the program does, in
// the same way and with the same variables, arrays and output.
module BcWhole {
  import opened BcSyntax
  import opened BcStore
  import opened BcEval
  import opened BcMachine
  import opened BcLabels
  import opened BcSimulation
  import opened BcCorrect
  import opened BcGenerate
  import opened BcBytes
  import opened BcLaid
  import opened BcTargets

  // ---- Runs ----------------------------------------------------------------------------------

  lemma {:induction false} ByteIdle(B: ByteProgram, m: Machine, n: nat)
    requires InTables(B) && !ByteActive(B, m)
    ensures ByteRun(B, m, n) == m
  {
    hide ReadAt, Exec, ByteJump;
    if n > 0 { ByteIdle(B, m, n - 1); }
  }

  // What the machine does in n steps, it does in bytes in no more than n steps.
  lemma {:induction false} RunInBytes(P: Program, B: ByteProgram, m: Machine, n: nat) returns (k: nat)
    requires Laid(P, B) && Inside(P, m)
    ensures k <= n && Inside(P, Run(P, m, n)) && ByteRun(B, InBytes(P, m), k) == InBytes(P, Run(P, m, n))
    decreases n
  {
    hide Laid, Inside, InBytes, Step, ByteStep, Segment;
    k := 0;
    if n > 0 && !Active(P, m) {
      RunIdle(P, m, n);
    } else if n > 0 {
      StepInBytes(P, B, m);
      k := RunInBytes(P, B, Step(P, m), n - 1);
      if !AtLabel(P, m) { k := k + 1; }
    }
  }

  ghost predicate AtLabel(P: Program, m: Machine)
  {
    m.pc < |Segment(P, m.fn)| && Segment(P, m.fn)[m.pc].Label?
  }

  lemma ActiveInBytes(P: Program, B: ByteProgram, m: Machine)
    requires Laid(P, B) && Inside(P, m)
    ensures ByteActive(B, InBytes(P, m)) ==> Active(P, m)
    ensures Active(P, m) && !AtLabel(P, m) ==> ByteActive(B, InBytes(P, m))
  {
    hide Laid, Bytes, GoodCode, Address, Segment, Exec, Encode;
    SegmentLaid(P, B, m.fn);
    if Active(P, m) {
      StepInBytes(P, B, m);
    } else {
      EndAddress(Segment(P, m.fn));
    }
  }

  lemma EndAddress(code: seq<Item>)
    requires AllFit(code)
    ensures Address(code, |code|) == |Bytes(code)|
  {
    assert code[..|code|] == code;
  }

  // And what it does in bytes, it does on items.
  lemma {:induction false} BytesInRun(P: Program, B: ByteProgram, m: Machine, k: nat) returns (n: nat)
    requires Laid(P, B) && Inside(P, m)
    ensures Inside(P, Run(P, m, n)) && ByteRun(B, InBytes(P, m), k) == InBytes(P, Run(P, m, n))
    decreases k, |Segment(P, m.fn)| - m.pc
  {
    hide Laid, InBytes, ByteStep, Exec, Segment;
    n := 0;
    if k > 0 && !ByteActive(B, InBytes(P, m)) {
      ByteIdle(B, InBytes(P, m), k);
    } else if k > 0 {
      ActiveInBytes(P, B, m);
      StepInBytes(P, B, m);
      if AtLabel(P, m) {
        LabelStep(P, m);
        n := BytesInRun(P, B, Step(P, m), k);
      } else {
        n := BytesInRun(P, B, Step(P, m), k - 1);
      }
      n := n + 1;
    }
  }

  // At the end of the bytes only labels are left.
  lemma {:induction false} LabelsLeft(P: Program, B: ByteProgram, m: Machine) returns (n: nat)
    requires Laid(P, B) && Inside(P, m) && !ByteActive(B, InBytes(P, m))
    ensures Inside(P, Run(P, m, n)) && InBytes(P, Run(P, m, n)) == InBytes(P, m) && !Active(P, Run(P, m, n))
    decreases |Segment(P, m.fn)| - m.pc
  {
    hide Laid, InBytes, ByteStep, Exec, Segment, ByteActive;
    n := 0;
    if Active(P, m) {
      ActiveInBytes(P, B, m);
      StepInBytes(P, B, m);
      LabelStep(P, m);
      n := LabelsLeft(P, B, Step(P, m));
      n := n + 1;
    }
  }

  // ---- Ends ----------------------------------------------------------------------------------

  // What execute has done when its loop is over.
  function EndOfBytes(B: ByteProgram, m: Machine): Ending
  {
    if ByteActive(B, m) then Never
    else
      match m.status
      case Running => Ending(Finished, m.s)
      case Errored => Ending(RuntimeError, Unwind(Program(B.C, map[]), m, 0).s)
      case _ => Ending(Exited, m.s)
  }

  // Cleaning up asks for the functions of the frames only.
  lemma {:induction false} UnwindAlike(P: Program, P2: Program, m: Machine, m2: Machine)
    requires P2.C == P.C && m2.fn == m.fn && m2.s == m.s && |m2.frames| == |m.frames|
    requires forall i :: 0 <= i < |m.frames| ==> m2.frames[i].fn == m.frames[i].fn
    ensures Unwind(P2, m2, 0).s == Unwind(P, m, 0).s
    decreases |m.frames|
  {
    hide LeaveFrame;
    if m.frames != [] { UnwindAlike(P, P2, UnwindOne(P, m), UnwindOne(P2, m2)); }
  }

  lemma EndsAlike(P: Program, B: ByteProgram, m: Machine)
    requires Laid(P, B) && Inside(P, m) && !Active(P, m)
    ensures !ByteActive(B, InBytes(P, m)) && EndOfBytes(B, InBytes(P, m)) == EndOfRun(P, m)
  {
    hide Laid, Unwind, Active, Segment, Address, ConstBaseOf, ByteActive;
    ActiveInBytes(P, B, m);
    UnwindAlike(P, Program(B.C, map[]), m, InBytes(P, m));
  }

  // ---- Programs ------------------------------------------------------------------------------

  // Every operand has room.
  ghost predicate Fitting(P: Program)
  {
    forall fn: nat :: AllFit(Segment(P, fn))
  }

  // The bytes and addresses of the loaded program.
  function Laying(P: Program): ByteProgram
    requires Fitting(P)
  {
    ByteProgram(P.C, map fn: nat | fn in P.code :: ByteCode(Bytes(Segment(P, fn)), Addresses(Segment(P, fn))))
  }

  lemma LoadIsLaid(C: Context, main: Stmts, bare: set<nat>)
    requires Supported(C, main, bare) && Fitting(Load(C, main))
    ensures Laid(Load(C, main), Laying(Load(C, main)))
  {
    hide MainCode, FunctionCode, Unique, WellSs, Bytes, Addresses, JumpsInside, AllFit, Fits;
    var P := Load(C, main);
    assert 0 in P.code;
    forall fn: nat ensures GoodCode(Segment(P, fn)) {
      if fn in C.functions {
        assert Segment(P, fn) == FunctionCode(C.functions[fn]);
        UniqueCode(main, C.functions[fn]);
        WellArePlaced(C.A, bare, C.functions[fn].body, false, false, fn in bare);
        FunctionJumpsInside(C.functions[fn]);
      } else if fn == 0 {
        assert Segment(P, fn) == MainCode(main);
        UniqueCode(main, Function([], [], NoStmts));
        WellArePlaced(C.A, bare, main, false, false, true);
        MainJumpsInside(main);
      } else {
        NoLabels();
        NoJumps();
      }
    }
    NoBytes();
  }

  lemma NoJumps()
    ensures JumpsInside([])
  {
  }

  lemma NoBytes()
    ensures Bytes([]) == [] && Addresses([]) == []
  {
  }

  lemma StartInBytes(P: Program, s: Store)
    requires Fitting(P)
    ensures Inside(P, Start(s)) && InBytes(P, Start(s)) == Start(s)
  {
    hide Bytes;
    StartAddress(Segment(P, 0));
  }

  lemma {:induction false} StaysEnded(B: ByteProgram, m: Machine, k: nat, n: nat)
    requires InTables(B) && !EndOfBytes(B, ByteRun(B, m, k)).Never? && n >= k
    ensures ByteRun(B, m, n) == ByteRun(B, m, k)
    decreases k
  {
    hide ByteStep, ByteActive, Unwind;
    if k == 0 { ByteIdle(B, m, n); } else { StaysEnded(B, ByteStep(B, m), k - 1, n - 1); }
  }

  // From k steps on, the end is that of the program.
  ghost predicate EndsFrom(B: ByteProgram, s: Store, k: nat, end: Ending)
    requires InTables(B)
  {
    forall n: nat :: n >= k ==> EndOfBytes(B, ByteRun(B, Start(s), n)) == end
  }

  // If the program ends, its bytes end in the same way.
  lemma {:induction false} BytesEndAsProgram(C: Context, main: Stmts, bare: set<nat>, s: Store, B: ByteProgram,
      fuel: nat)
    returns (k: nat)
    requires Supported(C, main, bare) && ArraysClear(C, main, s) && Laid(Load(C, main), B)
             && !Meaning(C, main, s, fuel).Never?
    ensures EndsFrom(B, s, k, Meaning(C, main, s, fuel))
  {
    hide Laid, Inside, InBytes, Run, ByteRun, Supported, Meaning, EndOfBytes, Load, Unwind;
    var P := Load(C, main);
    StartInBytes(P, s);
    var n := CodeEndsAsProgram(C, main, bare, s, fuel);
    k := RunInBytes(P, B, Start(s), n);
    EndsAlike(P, B, Run(P, Start(s), n));
    forall i: nat | i >= k ensures ByteRun(B, Start(s), i) == ByteRun(B, Start(s), k) { StaysEnded(B, Start(s), k, i); }
  }

  // If the bytes end, the program ends in the same way.
  lemma {:induction false} ProgramEndsAsBytes(C: Context, main: Stmts, bare: set<nat>, s: Store, B: ByteProgram, k: nat)
    returns (fuel: nat)
    requires Supported(C, main, bare) && ArraysClear(C, main, s) && Laid(Load(C, main), B)
             && !EndOfBytes(B, ByteRun(B, Start(s), k)).Never?
    ensures Meaning(C, main, s, fuel) == EndOfBytes(B, ByteRun(B, Start(s), k))
            && ByteRun(B, Start(s), k).status != Stuck
  {
    hide Laid, Inside, InBytes, Run, ByteRun, Supported, Meaning, Load, Unwind, ByteActive, Active;
    var P := Load(C, main);
    StartInBytes(P, s);
    var n := BytesInRun(P, B, Start(s), k);
    var m := Run(P, Start(s), n);
    var j := LabelsLeft(P, B, m);
    RunRun(P, Start(s), n, j);
    fuel := n + j;
    EndsAlike(P, B, Run(P, Start(s), fuel));
    ProgramEndsAsCode(C, main, bare, s, fuel);
    EndIsSame(B, InBytes(P, m));
  }

  lemma EndIsSame(B: ByteProgram, m: Machine)
    ensures EndOfBytes(B, m).Never? <==> ByteActive(B, m)
  {
    hide ByteActive;
  }
}
