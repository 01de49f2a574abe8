/** An independent checker of branch discipline over an instruction list:
    each label is defined once, and every jump goes forward to a label that
    is defined later in the same list. */
module Labels {
  import opened Outcome
  import opened Ir

  /** Labels defined so far, and targets jumped to but not yet defined. */
  datatype LabelState = LabelState(defined: set<nat>, pending: set<nat>)

  /** The label an instruction branches to: Jmp names it in lhs, Unless in rhs. */
  function Target(ir: IR): Option<nat> {
    match ir.op
    case Jmp => ir.lhs
    case Unless => ir.rhs
    case _ => None
  }

  predicate IsJump(ir: IR) {
    ir.op.Jmp? || ir.op.Unless?
  }

  function LStep(s: LabelState, ir: IR): Option<LabelState> {
    if ir.op.Label? then
      if ir.lhs.Some? && ir.lhs.value !in s.defined
      then Some(LabelState(s.defined + {ir.lhs.value}, s.pending - {ir.lhs.value}))
      else None
    else if IsJump(ir) then
      var x := Target(ir);
      if x.Some? && x.value !in s.defined
      then Some(LabelState(s.defined, s.pending + {x.value}))
      else None
    else Some(s)
  }

  function LCheck(s: LabelState, code: seq<IR>): Option<LabelState>
    decreases |code|
  {
    if code == [] then Some(s) else
    match LStep(s, code[0])
    case None => None
    case Some(t) => LCheck(t, code[1..])
  }

  /** The code of one function is branch-sound: it passes the checker from
      nothing defined and leaves no jump unresolved. */
  predicate LabelsSound(code: seq<IR>) {
    var r := LCheck(LabelState({}, {}), code);
    r.Some? && r.value.pending == {}
  }

  /** The ids of the labels a code sequence defines. */
  function LabelIds(code: seq<IR>): set<nat> {
    set k | 0 <= k < |code| && code[k].op.Label? && code[k].lhs.Some? :: code[k].lhs.value
  }

  /** lo, lo + 1, ..., hi - 1 as a set. */
  function Range(lo: nat, hi: nat): (r: set<nat>)
    ensures forall i :: i in r <==> lo <= i < hi
    decreases hi - lo
  {
    if lo >= hi then {} else {lo} + Range(lo + 1, hi)
  }

  lemma {:induction false} LCheckAppend(s: LabelState, a: seq<IR>, b: seq<IR>)
    ensures LCheck(s, a + b) == (match LCheck(s, a) case None => None case Some(t) => LCheck(t, b))
    decreases |a|
  {
    if a == [] {
      assert a + b == b;
    } else {
      assert (a + b)[0] == a[0];
      assert (a + b)[1..] == a[1..] + b;
      match LStep(s, a[0])
      case None =>
      case Some(t) => LCheckAppend(t, a[1..], b);
    }
  }

  /** What passing the checker defines: exactly the labels the code defines,
      none of them defined before, listed once each. */
  lemma {:induction false} DefinedAreLabelIds(s: LabelState, code: seq<IR>)
    requires LCheck(s, code).Some?
    ensures LCheck(s, code).value.defined == s.defined + LabelIds(code)
    ensures s.defined !! LabelIds(code)
    ensures forall i, j :: 0 <= i < j < |code| && code[i].op.Label? && code[j].op.Label? ==> code[i].lhs != code[j].lhs
    decreases |code|
  {
    if code != [] {
      var t := LStep(s, code[0]).value;
      DefinedAreLabelIds(t, code[1..]);
      assert LabelIds(code) == LabelIds(code[..1]) + LabelIds(code[1..]) by {
        forall x | x in LabelIds(code) ensures x in LabelIds(code[..1]) + LabelIds(code[1..]) {
          var k :| 0 <= k < |code| && code[k].op.Label? && code[k].lhs.Some? && code[k].lhs.value == x;
          if k > 0 { assert code[1..][k - 1] == code[k]; }
        }
        forall x | x in LabelIds(code[1..]) ensures x in LabelIds(code) {
          var k :| 0 <= k < |code[1..]| && code[1..][k].op.Label? && code[1..][k].lhs.Some? && code[1..][k].lhs.value == x;
          assert code[k + 1] == code[1..][k];
        }
      }
      forall i, j | 0 <= i < j < |code| && code[i].op.Label? && code[j].op.Label?
        ensures code[i].lhs != code[j].lhs
      {
        if i == 0 {
          assert code[j] == code[1..][j - 1];
          assert code[j].lhs.Some? ==> code[j].lhs.value in LabelIds(code[1..]);
        } else {
          assert code[i] == code[1..][i - 1] && code[j] == code[1..][j - 1];
        }
      }
    }
  }

  /** A pending target is either still pending at the end or defined by a
      later Label. */
  lemma {:induction false} PendingResolved(s: LabelState, code: seq<IR>, x: nat)
    requires LCheck(s, code).Some? && x in s.pending
    ensures x in LCheck(s, code).value.pending || exists j :: 0 <= j < |code| && code[j] == IR(Label, Some(x), code[j].rhs)
    decreases |code|
  {
    if code != [] {
      var t := LStep(s, code[0]).value;
      if x in t.pending {
        PendingResolved(t, code[1..], x);
        if x !in LCheck(s, code).value.pending {
          var j :| 0 <= j < |code[1..]| && code[1..][j] == IR(Label, Some(x), code[1..][j].rhs);
          assert code[j + 1] == code[1..][j];
        }
      } else {
        assert code[0] == IR(Label, Some(x), code[0].rhs);
      }
    }
  }

  /** In branch-sound code every Jmp and Unless targets a label that is
      defined by a later instruction. */
  lemma JumpsGoForward(code: seq<IR>, k: nat)
    requires LabelsSound(code) && k < |code| && IsJump(code[k])
    ensures Target(code[k]).Some?
    ensures exists j :: k < j < |code| && code[j] == IR(Label, Target(code[k]), code[j].rhs)
  {
    var s0 := LabelState({}, {});
    assert code == code[..k] + code[k..];
    LCheckAppend(s0, code[..k], code[k..]);
    var s := LCheck(s0, code[..k]).value;
    assert code[k..][0] == code[k];
    var t := LStep(s, code[k]).value;
    var x := Target(code[k]).value;
    assert LCheck(s0, code) == LCheck(t, code[k + 1..]) by {
      assert code[k..][1..] == code[k + 1..];
    }
    PendingResolved(t, code[k + 1..], x);
    var j :| 0 <= j < |code[k + 1..]| && code[k + 1..][j] == IR(Label, Some(x), code[k + 1..][j].rhs);
    assert code[k + 1 + j] == code[k + 1..][j];
  }
}
