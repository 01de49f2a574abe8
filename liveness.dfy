/** An independent checker of register discipline over an instruction list:
    registers are allocated one after another from a counter, and only a
    register whose value is live may be read or killed. */
module Liveness {
  import opened Outcome
  import opened Ir

  /** Registers holding a live value, and the next register to allocate. */
  datatype RegState = RegState(live: set<nat>, next: nat)

  predicate IsLive(s: RegState, o: Option<nat>) {
    o.Some? && o.value in s.live
  }

  /** The destination `o` must be the next register; it becomes live. */
  function Allocate(s: RegState, o: Option<nat>): Option<RegState> {
    if o == Some(s.next) then Some(RegState(s.live + {s.next}, s.next + 1)) else None
  }

  /** One instruction; None when it breaks the discipline. The source of a
      Mov must be register 0, the frame base, which is never allocated. */
  function Step(s: RegState, ir: IR): Option<RegState> {
    match ir.op
    case Imm => Allocate(s, ir.lhs)
    case Mov => if ir.rhs == Some(0) then Allocate(s, ir.lhs) else None
    case Call(_, nargs, args) =>
      if nargs <= MaxArgs && |args| == MaxArgs && (forall i :: 0 <= i < nargs ==> args[i] in s.live)
      then Allocate(s, ir.lhs) else None
    case Add | Sub | Mul | Div | Load | Store =>
      if IsLive(s, ir.lhs) && IsLive(s, ir.rhs) then Some(s) else None
    case SubImm | Return | Unless =>
      if IsLive(s, ir.lhs) then Some(s) else None
    case Kill =>
      if IsLive(s, ir.lhs) then Some(RegState(s.live - {ir.lhs.value}, s.next)) else None
    case Label | Jmp | SaveArgs | Nop => Some(s)
  }

  function Check(s: RegState, code: seq<IR>): Option<RegState>
    decreases |code|
  {
    if code == [] then Some(s) else
    match Step(s, code[0])
    case None => None
    case Some(t) => Check(t, code[1..])
  }

  /** The code of one function is register-sound: starting from register 1
      with nothing live, it passes the checker and leaves nothing live. */
  predicate RegistersSound(code: seq<IR>) {
    var r := Check(RegState({}, 1), code);
    r.Some? && r.value.live == {}
  }

  /** Every live register lies strictly between the frame base and the counter. */
  predicate Sane(s: RegState) {
    forall r :: r in s.live ==> 1 <= r < s.next
  }

  /** Registers an instruction names; the frame base source of Mov is not one. */
  function Regs(ir: IR): set<nat> {
    match ir.op
    case Imm | Mov | SubImm | Return | Unless | Kill => Opt(ir.lhs)
    case Call(_, nargs, args) => Opt(ir.lhs) + (set i | 0 <= i < nargs && i < |args| :: args[i])
    case Add | Sub | Mul | Div | Load | Store => Opt(ir.lhs) + Opt(ir.rhs)
    case Label | Jmp | SaveArgs | Nop => {}
  }

  function Opt(o: Option<nat>): set<nat> {
    if o.Some? then {o.value} else {}
  }

  /** The registers an instruction allocates (Imm, Mov and Call define a fresh one). */
  function Dest(ir: IR): seq<nat> {
    if (ir.op.Imm? || ir.op.Mov? || ir.op.Call?) && ir.lhs.Some? then [ir.lhs.value] else []
  }

  /** The allocated registers of a code sequence, in order. */
  function Allocs(code: seq<IR>): seq<nat>
    decreases |code|
  {
    if code == [] then [] else Dest(code[0]) + Allocs(code[1..])
  }

  /** lo, lo + 1, ..., hi - 1. */
  function Iota(lo: nat, hi: nat): (r: seq<nat>)
    requires lo <= hi
    ensures |r| == hi - lo && forall i :: 0 <= i < |r| ==> r[i] == lo + i
  {
    seq(hi - lo, i => lo + i)
  }

  lemma {:induction false} CheckAppend(s: RegState, a: seq<IR>, b: seq<IR>)
    ensures Check(s, a + b) == (match Check(s, a) case None => None case Some(t) => Check(t, b))
    decreases |a|
  {
    if a == [] {
      assert a + b == b;
    } else {
      assert (a + b)[0] == a[0];
      assert (a + b)[1..] == a[1..] + b;
      match Step(s, a[0])
      case None =>
      case Some(t) => CheckAppend(t, a[1..], b);
    }
  }

  /** A sound step keeps live registers between 1 and the counter. */
  lemma StepSane(s: RegState, ir: IR)
    requires Sane(s) && s.next >= 1 && Step(s, ir).Some?
    ensures Sane(Step(s, ir).value) && Step(s, ir).value.next >= s.next
    ensures Regs(ir) <= s.live + {s.next}
    ensures Step(s, ir).value.live <= s.live + {s.next}
    ensures Step(s, ir).value.next == s.next + |Dest(ir)|
    ensures Dest(ir) != [] ==> Dest(ir) == [s.next] && s.next in Step(s, ir).value.live
  {
  }

  /** Allocation order: the registers a passing code sequence allocates are
      exactly the counter values, one after another, so none is reused. */
  lemma {:induction false} AllocsInOrder(s: RegState, code: seq<IR>)
    requires Sane(s) && s.next >= 1 && Check(s, code).Some?
    ensures s.next <= Check(s, code).value.next
    ensures Allocs(code) == Iota(s.next, Check(s, code).value.next)
    decreases |code|
  {
    if code != [] {
      StepSane(s, code[0]);
      var t := Step(s, code[0]).value;
      AllocsInOrder(t, code[1..]);
      var hi := Check(s, code).value.next;
      assert Check(s, code) == Check(t, code[1..]);
      assert Allocs(code) == Dest(code[0]) + Iota(t.next, hi);
      if Dest(code[0]) == [] {
        assert t.next == s.next;
      } else {
        assert t.next == s.next + 1;
        assert Dest(code[0]) + Iota(t.next, hi) == Iota(s.next, hi);
      }
    }
  }

  /** The live set is always made of registers allocated so far. */
  lemma {:induction false} LiveWereAllocated(s: RegState, code: seq<IR>)
    requires Sane(s) && s.next >= 1 && Check(s, code).Some?
    ensures Check(s, code).value.live <= s.live + (set r | r in Allocs(code))
    decreases |code|
  {
    if code != [] {
      StepSane(s, code[0]);
      var t := Step(s, code[0]).value;
      LiveWereAllocated(t, code[1..]);
    }
  }

  /** In register-sound code every register an instruction names, and so
      every Kill, refers to a register allocated by an earlier instruction
      (or, for a destination, by the instruction itself), and no register
      names the frame base 0. */
  lemma UsesAllocatedEarlier(code: seq<IR>, k: nat)
    requires RegistersSound(code) && k < |code|
    ensures forall r :: r in Regs(code[k]) ==> r >= 1 && r in Allocs(code[..k]) + Dest(code[k])
    ensures code[k].op.Kill? ==> code[k].lhs.Some? && code[k].lhs.value in Allocs(code[..k])
    ensures code[k].op.Mov? ==> code[k].rhs == Some(0)
  {
    var s0 := RegState({}, 1);
    assert code == code[..k] + code[k..];
    CheckAppend(s0, code[..k], code[k..]);
    var s := Check(s0, code[..k]).value;
    LiveWereAllocated(s0, code[..k]);
    AllocsInOrder(s0, code[..k]);
    assert Sane(s) by {
      assert Sane(s0);
      SaneAlong(s0, code[..k]);
    }
    assert code[k..][0] == code[k];
    StepSane(s, code[k]);
    forall r | r in Regs(code[k])
      ensures r >= 1 && r in Allocs(code[..k]) + Dest(code[k])
    {
      if r in s.live {
        assert r in Allocs(code[..k]);
      } else {
        assert r == s.next;
        assert Dest(code[k]) == [s.next] by {
          match code[k].op
          case Imm =>
          case Mov =>
          case Call(_, _, _) =>
          case _ =>
        }
      }
    }
  }

  /** Soundness is kept along any passing prefix. */
  lemma {:induction false} SaneAlong(s: RegState, code: seq<IR>)
    requires Sane(s) && s.next >= 1 && Check(s, code).Some?
    ensures Sane(Check(s, code).value) && Check(s, code).value.next >= 1
    decreases |code|
  {
    if code != [] {
      StepSane(s, code[0]);
      SaneAlong(Step(s, code[0]).value, code[1..]);
    }
  }

  /** Once a register is killed, no later instruction names it again. */
  lemma NoUseAfterKill(code: seq<IR>, i: nat, j: nat)
    requires RegistersSound(code) && i < j < |code| && code[i].op.Kill?
    ensures code[i].lhs.Some? && code[i].lhs.value !in Regs(code[j])
  {
    var s0 := RegState({}, 1);
    assert code == code[..i + 1] + code[i + 1..];
    CheckAppend(s0, code[..i + 1], code[i + 1..]);
    SaneAlong(s0, code[..i + 1]);
    var s := Check(s0, code[..i + 1]).value;
    assert code[..i + 1] == code[..i] + [code[i]];
    CheckAppend(s0, code[..i], [code[i]]);
    SaneAlong(s0, code[..i]);
    var r := code[i].lhs.value;
    assert r !in s.live && r < s.next;
    StaysDead(s, code[i + 1..], r, j - (i + 1));
  }

  /** A dead register below the counter stays dead and is never named. */
  lemma {:induction false} StaysDead(s: RegState, code: seq<IR>, r: nat, k: nat)
    requires Sane(s) && s.next >= 1 && Check(s, code).Some?
    requires r !in s.live && r < s.next && k < |code|
    ensures r !in Regs(code[k])
    decreases k
  {
    StepSane(s, code[0]);
    var t := Step(s, code[0]).value;
    if k > 0 {
      assert r !in t.live;
      StaysDead(t, code[1..], r, k - 1);
    }
  }
}
