/** The lowering pass as the source runs it: one object holding the
    instruction buffer being filled and the pass's counters and variable
    map, with one method per lowering routine that appends to the buffer
    and updates the counters in place. Every method is proved to do exactly
    what the corresponding function of `Lower` describes. */
module Context {
  import opened Outcome
  import Ast
  import opened Ir
  import opened Lower

  /** An expression routine finished as `r` describes: on success the buffer
      grew by r's code, the counters are r's, and the register is returned;
      on failure the fault is reported. */
  predicate ExprDone(r: Result<ExprOut>, res: Result<nat>, code0: seq<IR>, after: Ctx, code1: seq<IR>) {
    match r
    case Ok(out) => res == Ok(out.reg) && after == out.ctx && code1 == code0 + out.code
    case Err(f) => res == Err(f)
  }

  /** The same for a statement routine, which returns nothing. */
  predicate StmtDone(r: Result<StmtOut>, res: Result<()>, code0: seq<IR>, after: Ctx, code1: seq<IR>) {
    match r
    case Ok(out) => res == Ok(()) && after == out.ctx && code1 == code0 + out.code
    case Err(f) => res == Err(f)
  }

  /** `r` with `code` and `regs` put in front of its code and registers. */
  function JoinArgs(code: seq<IR>, regs: seq<nat>, r: Result<ArgsOut>): Result<ArgsOut> {
    match r
    case Err(f) => Err(f)
    case Ok(w) => Ok(ArgsOut(w.ctx, code + w.code, regs + w.regs))
  }

  /** `r` with `code` put in front of its code. */
  function JoinStmts(code: seq<IR>, r: Result<StmtOut>): Result<StmtOut> {
    match r
    case Err(f) => Err(f)
    case Ok(w) => Ok(StmtOut(w.ctx, code + w.code))
  }

  /** `r` with the functions `fs` put in front. */
  function JoinFuncs(fs: seq<Function>, r: Result<(nat, seq<Function>)>): Result<(nat, seq<Function>)> {
    match r
    case Err(f) => Err(f)
    case Ok(p) => Ok((p.0, fs + p.1))
  }

  /** Joining onto nothing leaves an argument-list result as it is. */
  lemma JoinArgsNil(a: Result<ArgsOut>)
    ensures JoinArgs([], [], a) == a
  {
    match a { case Err(_) => case Ok(w) => assert [] + w.code == w.code && [] + w.regs == w.regs; }
  }

  /** Joining onto nothing leaves a statement result as it is. */
  lemma JoinStmtsNil(b: Result<StmtOut>)
    ensures JoinStmts([], b) == b
  {
    match b { case Err(_) => case Ok(w) => assert [] + w.code == w.code; }
  }

  /** Joining onto nothing leaves a program result as it is. */
  lemma JoinFuncsNil(c: Result<(nat, seq<Function>)>)
    ensures JoinFuncs([], c) == c
  {
    match c { case Err(_) => case Ok(p) => assert [] + p.1 == p.1; }
  }

  /** One more argument lowered at the front of the remaining ones. */
  lemma ArgsStep(c: Ctx, args: seq<Ast.Node>, pos: nat, code: seq<IR>, regs: seq<nat>)
    requires args != [] && pos < MaxArgs && Expr(c, args[0]).Ok?
    ensures var v := Expr(c, args[0]).value;
      JoinArgs(code, regs, Args(c, args, pos))
        == JoinArgs(code + v.code, regs + [v.reg], Args(v.ctx, args[1..], pos + 1))
  {
    var v := Expr(c, args[0]).value;
    match Args(v.ctx, args[1..], pos + 1)
    case Err(_) =>
    case Ok(w) =>
      assert code + (v.code + w.code) == code + v.code + w.code;
      assert regs + ([v.reg] + w.regs) == regs + [v.reg] + w.regs;
  }

  /** Filling the next free slot of the argument array. */
  lemma ArgArraySnoc(regs: seq<nat>, r: nat)
    requires |regs| < MaxArgs
    ensures ArgArray(regs)[|regs| := r] == ArgArray(regs + [r])
  {
    var a := ArgArray(regs)[|regs| := r];
    var b := ArgArray(regs + [r]);
    forall k | 0 <= k < MaxArgs ensures a[k] == b[k] {
      if k < |regs| {
        assert a[k] == regs[k] && b[k] == (regs + [r])[k];
      }
    }
  }

  lemma {:induction false} KillAllSnoc(regs: seq<nat>, j: nat)
    requires j < |regs|
    ensures KillAll(regs[..j + 1]) == KillAll(regs[..j]) + [IR(Kill, Some(regs[j]), None)]
    decreases j
  {
    if j == 0 {
      assert regs[..1] == [regs[0]];
      assert regs[..1][1..] == [];
    } else {
      KillAllSnoc(regs[1..], j - 1);
      assert regs[..j + 1][1..] == regs[1..][..j];
      assert regs[..j][1..] == regs[1..][..j - 1];
    }
  }

  /** An if without else, laid out as GenIf appends it after `pre`. */
  lemma IfThenCode(pre: seq<IR>, c: Ctx, n: Ast.Node, v: ExprOut, t: StmtOut)
    requires n.If? && n.elseBranch.None? && Expr(c, n.cond) == Ok(v)
    requires Stmt(v.ctx.(nextLabel := v.ctx.nextLabel + 1), n.thenBranch) == Ok(t)
    ensures StmtIf(c, n).Ok? && StmtIf(c, n).value.ctx == t.ctx
    ensures var x := v.ctx.nextLabel;
      pre + StmtIf(c, n).value.code
      == pre + v.code + [IR(Unless, Some(v.reg), Some(x))] + [IR(Kill, Some(v.reg), None)] + t.code
         + [IR(Label, Some(x), None)]
  {
  }

  /** An if with else, laid out as GenIf appends it after `pre`. */
  lemma IfElseCode(pre: seq<IR>, c: Ctx, n: Ast.Node, v: ExprOut, t: StmtOut, e: StmtOut)
    requires n.If? && n.elseBranch.Some? && Expr(c, n.cond) == Ok(v)
    requires Stmt(v.ctx.(nextLabel := v.ctx.nextLabel + 1), n.thenBranch) == Ok(t)
    requires Stmt(t.ctx.(nextLabel := t.ctx.nextLabel + 1), n.elseBranch.value) == Ok(e)
    ensures StmtIf(c, n).Ok? && StmtIf(c, n).value.ctx == e.ctx
    ensures var x := v.ctx.nextLabel; var y := t.ctx.nextLabel;
      pre + StmtIf(c, n).value.code
      == pre + v.code + [IR(Unless, Some(v.reg), Some(x))] + [IR(Kill, Some(v.reg), None)] + t.code
         + [IR(Jmp, Some(y), None)] + [IR(Label, Some(x), None)] + e.code + [IR(Label, Some(y), None)]
  {
  }

  /** The state gen_ir and its helpers share: the instruction buffer of the
      function being lowered, the variable-to-offset map, the next virtual
      register, the stack-size accumulator and the program-wide label counter. */
  class Lowering {
    var code: seq<IR>
    var vars: map<string, nat>
    var regno: nat
    var stackSize: nat
    var nextLabel: nat

    /** The counters and the map as a lowering context. */
    function State(): Ctx
      reads this
    {
      Ctx(vars, regno, stackSize, nextLabel)
    }

    /** The initial values: no variables, register 1, empty frame, label 0. */
    constructor ()
      ensures code == [] && State() == Fresh(0)
    {
      code := [];
      vars := map[];
      regno := 1;
      stackSize := 0;
      nextLabel := 0;
    }

    /** gen_lval. */
    method GenLval(n: Ast.Node) returns (res: Result<nat>)
      modifies this
      ensures ExprDone(Lval(old(State()), n), res, old(code), State(), code)
    {
      match n
      case Ident(name) =>
        if name !in vars {
          vars := vars[name := stackSize];
          stackSize := stackSize + 8;
        }
        var r := regno;
        regno := regno + 1;
        var off := vars[name];
        code := code + [IR(Mov, Some(r), Some(0))];
        code := code + [IR(SubImm, Some(r), Some(off))];
        assert code == old(code) + [IR(Mov, Some(r), Some(0)), IR(SubImm, Some(r), Some(off))];
        res := Ok(r);
      case _ =>
        res := Err(NotAnLvalue);
    }

    /** gen_expr. */
    method GenExpr(n: Ast.Node) returns (res: Result<nat>)
      modifies this
      ensures ExprDone(Expr(old(State()), n), res, old(code), State(), code)
      decreases n, 1
    {
      match n
      case Num(val) =>
        var r := regno;
        regno := regno + 1;
        code := code + [IR(Imm, Some(r), Some(ToUsize(val)))];
        res := Ok(r);
      case Ident(_) =>
        res := GenLval(n);
        if res.Ok? {
          code := code + [IR(Load, Some(res.value), Some(res.value))];
        }
      case Call(_, _) =>
        res := GenCall(n);
      case BinOp(op, _, _) =>
        if op == Ast.Equal {
          res := GenAssign(n);
        } else {
          res := GenArith(n);
        }
      case _ =>
        res := Err(Unreachable);
    }

    /** The call case of gen_expr: arguments into a six-slot array, the
      Call, then a Kill per argument. */
    method GenCall(n: Ast.Node) returns (res: Result<nat>)
      requires n.Call?
      modifies this
      ensures ExprDone(ExprCall(old(State()), n), res, old(code), State(), code)
      decreases n, 0
    {
      var argsIr := new nat[MaxArgs](_ => 0);
      var lowered := GenCallArgs(n.args, argsIr);
      if lowered.Err? {
        res := Err(lowered.fault);
        return;
      }
      ghost var w := Args(old(State()), n.args, 0).value;
      ghost var regs := w.regs;
      assert argsIr[..|n.args|] == regs by {
        assert argsIr[..] == regs + seq(MaxArgs - |regs|, _ => 0);
        assert argsIr[..|n.args|] == argsIr[..][..|regs|];
      }
      var r := regno;
      regno := regno + 1;
      ghost var callIr := IR(Call(n.callee, |n.args|, argsIr[..]), Some(r), None);
      code := code + [IR(Call(n.callee, |n.args|, argsIr[..]), Some(r), None)];
      ghost var called := code;
      EmitKills(argsIr, |n.args|);
      assert code == old(code) + (w.code + [callIr] + KillAll(regs));
      assert ExprCall(old(State()), n) == Ok(ExprOut(State(), w.code + [callIr] + KillAll(regs), r));
      res := Ok(r);
    }

    /** The Kill loop of the call case: one Kill per filled argument slot, in slot order. */
    method EmitKills(argsIr: array<nat>, nargs: nat)
      requires nargs <= argsIr.Length
      modifies this
      ensures code == old(code) + KillAll(argsIr[..nargs]) && State() == old(State())
    {
      ghost var regs := argsIr[..nargs];
      var j := 0;
      while j < nargs
        invariant j <= nargs && code == old(code) + KillAll(regs[..j]) && State() == old(State())
      {
        KillAllSnoc(regs, j);
        code := code + [IR(Kill, Some(argsIr[j]), None)];
        j := j + 1;
      }
      assert regs[..nargs] == regs;
    }

    /** The argument loop of the call case: each argument is lowered, and
        only then is its slot checked against the six the array has. */
    method GenCallArgs(args: seq<Ast.Node>, argsIr: array<nat>) returns (res: Result<()>)
      requires argsIr.Length == MaxArgs && forall k :: 0 <= k < MaxArgs ==> argsIr[k] == 0
      modifies this, argsIr
      ensures match Args(old(State()), args, 0)
              case Ok(w) => res == Ok(()) && State() == w.ctx && code == old(code) + w.code &&
                            argsIr[..] == ArgArray(w.regs)
              case Err(f) => res == Err(f)
      decreases args, 2
    {
      ghost var c0 := State();
      ghost var done: seq<IR> := [];
      ghost var regs: seq<nat> := [];
      assert args[0..] == args;
      JoinArgsNil(Args(c0, args, 0));
      assert argsIr[..] == ArgArray(regs);
      var i := 0;
      while i < |args|
        invariant i <= |args| && i <= MaxArgs && |regs| == i && argsIr[..] == ArgArray(regs)
        invariant code == old(code) + done
        invariant Args(c0, args, 0) == JoinArgs(done, regs, Args(State(), args[i..], i))
        decreases |args| - i
      {
        ghost var ci := State();
        assert args[i..][0] == args[i] && args[i..][1..] == args[i + 1..];
        var a := GenExpr(args[i]);
        if a.Err? {
          res := Err(a.fault);
          return;
        }
        if i >= MaxArgs {
          res := Err(TooManyArgs);
          return;
        }
        ArgsStep(ci, args[i..], i, done, regs);
        ArgArraySnoc(regs, a.value);
        done := done + Expr(ci, args[i]).value.code;
        regs := regs + [a.value];
        argsIr[i] := a.value;
        i := i + 1;
      }
      assert args[|args|..] == [] && done + [] == done && regs + [] == regs;
      res := Ok(());
    }

    /** The assignment case of gen_expr: value first, then address. */
    method GenAssign(n: Ast.Node) returns (res: Result<nat>)
      requires n.BinOp?
      modifies this
      ensures ExprDone(ExprAssign(old(State()), n), res, old(code), State(), code)
      decreases n, 0
    {
      var rhs := GenExpr(n.rhs);
      if rhs.Err? {
        res := Err(rhs.fault);
        return;
      }
      ghost var mid := code;
      var lhs := GenLval(n.lhs);
      if lhs.Err? {
        res := Err(lhs.fault);
        return;
      }
      ghost var before := code;
      code := code + [IR(Store, Some(lhs.value), Some(rhs.value))];
      code := code + [IR(Kill, Some(rhs.value), None)];
      assert code == before + [IR(Store, Some(lhs.value), Some(rhs.value)), IR(Kill, Some(rhs.value), None)];
      res := lhs;
    }

    /** The arithmetic case of gen_expr: left, right, the operation, Kill right. */
    method GenArith(n: Ast.Node) returns (res: Result<nat>)
      requires n.BinOp?
      modifies this
      ensures ExprDone(ExprArith(old(State()), n), res, old(code), State(), code)
      decreases n, 0
    {
      var lhs := GenExpr(n.lhs);
      if lhs.Err? {
        res := Err(lhs.fault);
        return;
      }
      var rhs := GenExpr(n.rhs);
      if rhs.Err? {
        res := Err(rhs.fault);
        return;
      }
      var op := FromToken(n.op);
      if op.Err? {
        res := Err(op.fault);
        return;
      }
      ghost var before := code;
      code := code + [IR(op.value, Some(lhs.value), Some(rhs.value))];
      code := code + [IR(Kill, Some(rhs.value), None)];
      assert code == before + [IR(op.value, Some(lhs.value), Some(rhs.value)), IR(Kill, Some(rhs.value), None)];
      res := lhs;
    }

    /** gen_stmt. */
    method GenStmt(n: Ast.Node) returns (res: Result<()>)
      modifies this
      ensures StmtDone(Stmt(old(State()), n), res, old(code), State(), code)
      decreases n, 1
    {
      match n
      case If(_, _, _) =>
        res := GenIf(n);
      case Return(expr) =>
        var r := GenExpr(expr);
        if r.Err? {
          res := Err(r.fault);
          return;
        }
        ghost var before := code;
        code := code + [IR(Return, Some(r.value), None)];
        code := code + [IR(Kill, Some(r.value), None)];
        assert code == before + [IR(Return, Some(r.value), None), IR(Kill, Some(r.value), None)];
        res := Ok(());
      case ExprStmt(expr) =>
        var r := GenExpr(expr);
        if r.Err? {
          res := Err(r.fault);
          return;
        }
        code := code + [IR(Kill, Some(r.value), None)];
        res := Ok(());
      case CompStmt(stmts) =>
        ghost var done: seq<IR> := [];
        assert stmts[0..] == stmts;
        JoinStmtsNil(Stmts(State(), stmts));
        var i := 0;
        while i < |stmts|
          invariant i <= |stmts| && code == old(code) + done
          invariant Stmts(old(State()), stmts) == JoinStmts(done, Stmts(State(), stmts[i..]))
        {
          ghost var ci := State();
          assert stmts[i..][0] == stmts[i] && stmts[i..][1..] == stmts[i + 1..];
          var r := GenStmt(stmts[i]);
          if r.Err? {
            res := Err(r.fault);
            return;
          }
          ghost var s := Stmt(ci, stmts[i]).value;
          match Stmts(State(), stmts[i + 1..]) {
            case Err(_) =>
            case Ok(w) => assert done + (s.code + w.code) == done + s.code + w.code;
          }
          done := done + s.code;
          i := i + 1;
        }
        res := Ok(());
      case _ =>
        res := Err(UnknownNode);
    }

    /** The if case of gen_stmt. */
    method GenIf(n: Ast.Node) returns (res: Result<()>)
      requires n.If?
      modifies this
      ensures StmtDone(StmtIf(old(State()), n), res, old(code), State(), code)
      decreases n, 0
    {
      ghost var c0 := State();
      var r := GenExpr(n.cond);
      if r.Err? {
        res := Err(r.fault);
        return;
      }
      ghost var v := Expr(c0, n.cond).value;
      var x := nextLabel;
      nextLabel := nextLabel + 1;
      code := code + [IR(Unless, Some(r.value), Some(x))];
      code := code + [IR(Kill, Some(r.value), None)];
      ghost var head := code;
      var t := GenStmt(n.thenBranch);
      if t.Err? {
        res := Err(t.fault);
        return;
      }
      ghost var th := Stmt(v.ctx.(nextLabel := x + 1), n.thenBranch).value;
      assert code == head + th.code;
      if n.elseBranch.Some? {
        var y := nextLabel;
        nextLabel := nextLabel + 1;
        code := code + [IR(Jmp, Some(y), None)];
        code := code + [IR(Label, Some(x), None)];
        ghost var mid := code;
        var e := GenStmt(n.elseBranch.value);
        if e.Err? {
          res := Err(e.fault);
          return;
        }
        ghost var el := Stmt(th.ctx.(nextLabel := y + 1), n.elseBranch.value).value;
        assert code == mid + el.code;
        code := code + [IR(Label, Some(y), None)];
        IfElseCode(old(code), c0, n, v, th, el);
      } else {
        code := code + [IR(Label, Some(x), None)];
        IfThenCode(old(code), c0, n, v, th);
      }
      res := Ok(());
    }

    /** gen_args. */
    method GenArgs(params: seq<Ast.Node>) returns (res: Result<()>)
      modifies this
      ensures StmtDone(Params(old(State()), params), res, old(code), State(), code)
    {
      if |params| == 0 {
        res := Ok(());
        return;
      }
      code := code + [IR(SaveArgs, Some(|params|), None)];
      assert params[0..] == params;
      var i := 0;
      while i < |params|
        invariant i <= |params| && code == old(code) + [IR(SaveArgs, Some(|params|), None)]
        invariant Bind(old(State()), params) == Bind(State(), params[i..])
      {
        assert params[i..][0] == params[i] && params[i..][1..] == params[i + 1..];
        match params[i] {
          case Ident(name) =>
            stackSize := stackSize + 8;
            vars := vars[name := stackSize];
          case _ =>
            res := Err(BadParameter);
            return;
        }
        i := i + 1;
      }
      res := Ok(());
    }

    /** gen_ir: one Function per definition; everything but the label
        counter starts afresh for each. */
    method GenIr(nodes: seq<Ast.Node>) returns (res: Result<seq<Function>>)
      modifies this
      ensures match Program(old(nextLabel), nodes)
              case Ok(r) => res == Ok(r.1) && nextLabel == r.0
              case Err(f) => res == Err(f)
    {
      var v: seq<Function> := [];
      assert nodes[0..] == nodes;
      JoinFuncsNil(Program(nextLabel, nodes));
      var i := 0;
      while i < |nodes|
        invariant i <= |nodes|
        invariant Program(old(nextLabel), nodes) == JoinFuncs(v, Program(nextLabel, nodes[i..]))
      {
        assert nodes[i..][0] == nodes[i] && nodes[i..][1..] == nodes[i + 1..];
        match nodes[i] {
          case Func(name, params, body) =>
            ghost var start := nextLabel;
            code := [];
            vars := map[];
            regno := 1;
            stackSize := 0;
            assert State() == Fresh(start);
            var a := GenArgs(params);
            if a.Err? {
              res := Err(a.fault);
              return;
            }
            ghost var p := Params(Fresh(start), params).value;
            assert code == p.code && State() == p.ctx;
            var b := GenStmt(body);
            if b.Err? {
              res := Err(b.fault);
              return;
            }
            ghost var f := Function(name, code, stackSize);
            assert LowerFunc(start, nodes[i]) == Ok((nextLabel, f));
            match Program(nextLabel, nodes[i + 1..]) {
              case Err(_) =>
              case Ok(p) => assert v + ([f] + p.1) == v + [f] + p.1;
            }
            v := v + [Function(name, code, stackSize)];
          case _ =>
            res := Err(ParseError);
            return;
        }
        i := i + 1;
      }
      assert nodes[|nodes|..] == [] && v + [] == v;
      res := Ok(v);
    }
  }
}
