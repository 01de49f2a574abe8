/** The order in which calls, assignments, arithmetic and ifs emit their
    parts and allocate their registers and labels. */
module ShapeProofs {
  import opened Outcome
  import Ast
  import opened Ir
  import opened Lower
  import RegisterProofs
  import LabelProofs
  import Labels

  lemma {:induction false} KillAllAt(regs: seq<nat>, k: nat)
    requires k < |regs|
    ensures |KillAll(regs)| == |regs| && KillAll(regs)[k] == IR(Kill, Some(regs[k]), None)
    decreases regs
  {
    if k > 0 {
      KillAllAt(regs[1..], k - 1);
    } else if |regs| > 1 {
      KillAllAt(regs[1..], 0);
    }
  }

  lemma {:induction false} KillAllLength(regs: seq<nat>)
    ensures |KillAll(regs)| == |regs|
    decreases regs
  {
    if regs != [] { KillAllLength(regs[1..]); }
  }

  /** A call: at most six arguments; they are lowered first, left to right,
      into increasing registers; the result register comes after all of
      them; then the one Call, whose i-th slot is the i-th argument's
      register (zero past the last), and one Kill per argument register in
      argument order; the result register is never killed. */
  lemma CallShape(c: Ctx, name: string, args: seq<Ast.Node>)
    requires Expr(c, Ast.Call(name, args)).Ok?
    ensures |args| <= MaxArgs && Args(c, args, 0).Ok?
    ensures var w := Args(c, args, 0).value;
      var v := Expr(c, Ast.Call(name, args)).value;
      var r := v.reg;
      |w.regs| == |args| && RegisterProofs.Increasing(w.regs) &&
      (forall i :: 0 <= i < |args| ==> w.regs[i] < r) &&
      |v.code| == |w.code| + 1 + |args| && v.code[..|w.code|] == w.code &&
      v.code[|w.code|].op.Call? && v.code[|w.code|].lhs == Some(r) &&
      v.code[|w.code|].op.callee == name && v.code[|w.code|].op.nargs == |args| &&
      |v.code[|w.code|].op.args| == MaxArgs &&
      (forall i :: 0 <= i < MaxArgs ==>
         v.code[|w.code|].op.args[i] == if i < |args| then w.regs[i] else 0) &&
      (forall k :: 0 <= k < |args| ==> v.code[|w.code| + 1 + k] == IR(Kill, Some(w.regs[k]), None)) &&
      (forall k :: |w.code| < k < |v.code| ==> v.code[k].lhs != Some(r))
  {
    var n := Ast.Call(name, args);
    var w := Args(c, args, 0).value;
    var v := Expr(c, n).value;
    RegisterProofs.ArgsRegs(c, args, 0, {});
    var callIr := IR(Call(name, |args|, ArgArray(w.regs)), Some(w.ctx.regno), None);
    assert v.code == w.code + [callIr] + KillAll(w.regs);
    KillAllLength(w.regs);
    forall k | 0 <= k < |args| ensures v.code[|w.code| + 1 + k] == IR(Kill, Some(w.regs[k]), None) {
      KillAllAt(w.regs, k);
    }
    assert v.reg == w.ctx.regno;
    assert forall i :: 0 <= i < |args| ==> w.regs[i] < v.reg;
    assert v.code[..|w.code|] == w.code;
    assert forall i :: 0 <= i < MaxArgs ==> callIr.op.args[i] == if i < |args| then w.regs[i] else 0;
    assert v.code[|w.code|] == callIr;
    forall k | |w.code| < k < |v.code| ensures v.code[k].lhs != Some(v.reg) {
      var q := k - |w.code| - 1;
      assert v.code[k] == IR(Kill, Some(w.regs[q]), None);
    }
  }

  /** More than six arguments never lower. */
  lemma CallTooMany(c: Ctx, name: string, args: seq<Ast.Node>)
    requires |args| > MaxArgs
    ensures Expr(c, Ast.Call(name, args)).Err?
  {
  }

  /** An assignment lowers its value before its address: the value's code
      comes first, the address register is allocated after the value
      register, the last two instructions are `Store addr, val; Kill val`,
      and the address register is the result. A target that is not a name
      is not an lvalue. */
  lemma AssignShape(c: Ctx, lhs: Ast.Node, rhs: Ast.Node)
    requires Expr(c, rhs).Ok?
    ensures var e := Expr(c, rhs).value;
      var r := Expr(c, Ast.BinOp(Ast.Equal, lhs, rhs));
      (r.Err? <==> !lhs.Ident?) && (r.Err? ==> r.fault == NotAnLvalue) &&
      (r.Ok? ==>
         var code := r.value.code;
         r.value.reg == e.ctx.regno && e.reg < r.value.reg &&
         |code| == |e.code| + 4 && code[..|e.code|] == e.code &&
         code[|code| - 2] == IR(Store, Some(r.value.reg), Some(e.reg)) &&
         code[|code| - 1] == IR(Kill, Some(e.reg), None))
  {
    RegisterProofs.ExprRegs(c, rhs, {});
  }

  /** Arithmetic lowers its left operand, then its right one, applies the
      operation to the left register and kills the right one; the result is
      the left register, allocated before the right one. */
  lemma ArithShape(c: Ctx, op: Ast.TokenType, lhs: Ast.Node, rhs: Ast.Node)
    requires op != Ast.Equal && Expr(c, Ast.BinOp(op, lhs, rhs)).Ok?
    ensures Expr(c, lhs).Ok? && Expr(Expr(c, lhs).value.ctx, rhs).Ok?
    ensures var l := Expr(c, lhs).value;
      var r := Expr(l.ctx, rhs).value;
      var v := Expr(c, Ast.BinOp(op, lhs, rhs)).value;
      v.reg == l.reg && l.reg < r.reg &&
      |v.code| == |l.code| + |r.code| + 2 &&
      v.code[..|l.code|] == l.code && v.code[|l.code|..|l.code| + |r.code|] == r.code &&
      v.code[|v.code| - 2] == IR(FromToken(op).value, Some(l.reg), Some(r.reg)) &&
      v.code[|v.code| - 1] == IR(Kill, Some(r.reg), None)
  {
    RegisterProofs.ExprRegs(c, lhs, {});
    var l := Expr(c, lhs).value;
    RegisterProofs.ExprRegs(l.ctx, rhs, {});
    var r := Expr(l.ctx, rhs).value;
    var v := Expr(c, Ast.BinOp(op, lhs, rhs)).value;
    assert v.code == l.code + r.code + [IR(FromToken(op).value, Some(l.reg), Some(r.reg)), IR(Kill, Some(r.reg), None)];
  }

  /** An if takes its label x from the counter as it stood on entry (the
      condition uses none); without else the code is the condition,
      `Unless r, x; Kill r`, the then branch and `Label x`; with else the
      second label y is the first one after the then branch's labels. */
  lemma IfShape(c: Ctx, n: Ast.Node)
    requires n.If? && Stmt(c, n).Ok?
    ensures Expr(c, n.cond).Ok? && Expr(c, n.cond).value.ctx.nextLabel == c.nextLabel
    ensures var v := Expr(c, n.cond).value;
      Stmt(v.ctx.(nextLabel := c.nextLabel + 1), n.thenBranch).Ok?
    ensures var v := Expr(c, n.cond).value;
      var x := c.nextLabel;
      var t := Stmt(v.ctx.(nextLabel := x + 1), n.thenBranch).value;
      var head := v.code + [IR(Unless, Some(v.reg), Some(x)), IR(Kill, Some(v.reg), None)];
      (n.elseBranch.None? ==> Stmt(c, n).value.code == head + t.code + [IR(Label, Some(x), None)]) &&
      (n.elseBranch.Some? ==>
         var y := x + 1 + LabelProofs.LabelCount(n.thenBranch);
         t.ctx.nextLabel == y &&
         Stmt(t.ctx.(nextLabel := y + 1), n.elseBranch.value).Ok? &&
         var e := Stmt(t.ctx.(nextLabel := y + 1), n.elseBranch.value).value;
         Stmt(c, n).value.code == head + t.code + [IR(Jmp, Some(y), None), IR(Label, Some(x), None)]
                                  + e.code + [IR(Label, Some(y), None)])
  {
    LabelProofs.ExprPlain(c, n.cond);
    var v := Expr(c, n.cond).value;
    LabelProofs.StmtLabels(v.ctx.(nextLabel := c.nextLabel + 1), n.thenBranch, Labels.LabelState({}, {}));
  }
}
