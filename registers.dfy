/** Register discipline of the lowering: every expression leaves exactly its
    result register live, every statement leaves nothing live, and the code
    passes the liveness checker. */
module RegisterProofs {
  import opened Outcome
  import Ast
  import opened Ir
  import opened Lower
  import opened Liveness

  predicate Below(live: set<nat>, n: nat) {
    forall r :: r in live ==> r < n
  }

  function Elems(s: seq<nat>): set<nat> {
    set x | x in s
  }

  predicate Increasing(s: seq<nat>) {
    forall i, j :: 0 <= i < j < |s| ==> s[i] < s[j]
  }

  lemma CheckOne(s: RegState, ir: IR)
    ensures Check(s, [ir]) == Step(s, ir)
  {
    assert [ir][1..] == [];
  }

  /** Check of a fragment followed by one instruction. */
  lemma CheckSnoc(s: RegState, a: seq<IR>, ir: IR, t: RegState)
    requires Check(s, a) == Some(t)
    ensures Check(s, a + [ir]) == Step(t, ir)
  {
    CheckAppend(s, a, [ir]);
    CheckOne(t, ir);
  }

  /** Two checked fragments in a row. */
  lemma CheckSeq(s: RegState, a: seq<IR>, b: seq<IR>, mid: RegState)
    requires Check(s, a) == Some(mid)
    ensures Check(s, a + b) == Check(mid, b)
  {
    CheckAppend(s, a, b);
  }

  /** Killing registers that are live, in order, leaves the rest live. */
  lemma {:induction false} KillAllRegs(S: set<nat>, regs: seq<nat>, next: nat)
    requires Increasing(regs) && forall x :: x in regs ==> x !in S
    ensures Check(RegState(S + Elems(regs), next), KillAll(regs)) == Some(RegState(S, next))
    decreases |regs|
  {
    if regs == [] {
      assert S + Elems(regs) == S;
    } else {
      var x, rest := regs[0], regs[1..];
      assert Increasing(rest);
      assert x !in rest by {
        forall i | 0 <= i < |rest| ensures rest[i] != x { assert regs[i + 1] == rest[i]; }
      }
      assert Elems(regs) == {x} + Elems(rest) by {
        assert regs == [x] + rest;
      }
      assert (S + Elems(regs)) - {x} == S + Elems(rest);
      var s := RegState(S + Elems(regs), next);
      var k := IR(Kill, Some(x), None);
      assert KillAll(regs) == [k] + KillAll(rest);
      assert Step(s, k) == Some(RegState(S + Elems(rest), next));
      CheckOne(s, k);
      CheckSeq(s, [k], KillAll(rest), RegState(S + Elems(rest), next));
      KillAllRegs(S, rest, next);
    }
  }

  /** An lvalue allocates the next register, which holds the address. */
  lemma LvalRegs(c: Ctx, n: Ast.Node, L: set<nat>)
    requires Lval(c, n).Ok? && Below(L, c.regno)
    ensures var v := Lval(c, n).value;
      v.reg == c.regno && v.ctx.regno == c.regno + 1 &&
      Check(RegState(L, c.regno), v.code) == Some(RegState(L + {v.reg}, v.ctx.regno))
  {
    var v := Lval(c, n).value;
    var s := RegState(L, c.regno);
    var t := RegState(L + {c.regno}, c.regno + 1);
    assert v.code == [v.code[0]] + [v.code[1]];
    CheckOne(s, v.code[0]);
    CheckSnoc(s, [v.code[0]], v.code[1], t);
  }

  /** The expression postcondition, as one predicate. */
  predicate ExprOk(c: Ctx, r: Result<ExprOut>, L: set<nat>) {
    r.Ok? &&
    c.regno <= r.value.reg < r.value.ctx.regno &&
    Check(RegState(L, c.regno), r.value.code) == Some(RegState(L + {r.value.reg}, r.value.ctx.regno))
  }

  /** The argument-list postcondition, as one predicate. */
  predicate ArgsOk(c: Ctx, r: Result<ArgsOut>, L: set<nat>) {
    r.Ok? &&
    c.regno <= r.value.ctx.regno && Increasing(r.value.regs) &&
    (forall i :: 0 <= i < |r.value.regs| ==> c.regno <= r.value.regs[i] < r.value.ctx.regno) &&
    Check(RegState(L, c.regno), r.value.code) == Some(RegState(L + Elems(r.value.regs), r.value.ctx.regno))
  }

  /** An expression allocates registers from the counter, reads only live
      ones, kills every temporary and leaves its result live. */
  lemma {:induction false} ExprRegs(c: Ctx, n: Ast.Node, L: set<nat>)
    requires Expr(c, n).Ok? && Below(L, c.regno)
    ensures var v := Expr(c, n).value;
      c.regno <= v.reg < v.ctx.regno &&
      Check(RegState(L, c.regno), v.code) == Some(RegState(L + {v.reg}, v.ctx.regno))
    decreases n
  {
    var s := RegState(L, c.regno);
    var v := Expr(c, n).value;
    match n
    case Num(_) =>
      CheckOne(s, v.code[0]);
    case Ident(_) =>
      LvalRegs(c, n, L);
      var a := Lval(c, n).value;
      CheckSnoc(s, a.code, IR(Load, Some(a.reg), Some(a.reg)), RegState(L + {a.reg}, a.ctx.regno));
    case Call(name, args) =>
      ArgsRegs(c, args, 0, L);
      CallRegs(c, n, L);
    case BinOp(op, lhs, rhs) =>
      if op == Ast.Equal {
        ExprRegs(c, rhs, L);
        var e := Expr(c, rhs).value;
        LvalRegs(e.ctx, lhs, L + {e.reg});
        AssignRegs(c, n, L);
      } else {
        ExprRegs(c, lhs, L);
        var l := Expr(c, lhs).value;
        ExprRegs(l.ctx, rhs, L + {l.reg});
        ArithRegs(c, n, L);
      }
  }

  lemma CallRegs(c: Ctx, n: Ast.Node, L: set<nat>)
    requires n.Call? && Below(L, c.regno) && ArgsOk(c, Args(c, n.args, 0), L)
    ensures ExprOk(c, ExprCall(c, n), L)
  {
    var w := Args(c, n.args, 0).value;
    var r := w.ctx.regno;
    forall x | x in w.regs ensures x !in L && x < r {
      var i :| 0 <= i < |w.regs| && w.regs[i] == x;
    }
    CallCodeRegs(RegState(L, c.regno), w.code, w.regs, L, r, n.callee);
    assert ExprCall(c, n).value
           == ExprOut(w.ctx.(regno := r + 1),
                      w.code + [IR(Call(n.callee, |n.args|, ArgArray(w.regs)), Some(r), None)] + KillAll(w.regs), r);
  }

  /** The register checker over a call's layout: with the argument
      registers live on top of L, the Call reads them and allocates r, and
      the Kills retire the arguments, leaving r live. */
  lemma CallCodeRegs(s: RegState, code: seq<IR>, regs: seq<nat>, L: set<nat>, r: nat, callee: string)
    requires |regs| <= MaxArgs && Increasing(regs) && r !in L
    requires forall x :: x in regs ==> x !in L && x < r
    requires Check(s, code) == Some(RegState(L + Elems(regs), r))
    ensures Check(s, code + [IR(Call(callee, |regs|, ArgArray(regs)), Some(r), None)] + KillAll(regs))
            == Some(RegState(L + {r}, r + 1))
  {
    var callIr := IR(Call(callee, |regs|, ArgArray(regs)), Some(r), None);
    var live := L + Elems(regs);
    assert forall i :: 0 <= i < |regs| ==> ArgArray(regs)[i] == regs[i];
    assert Step(RegState(live, r), callIr) == Some(RegState(live + {r}, r + 1));
    CheckSnoc(s, code, callIr, RegState(live, r));
    assert live + {r} == (L + {r}) + Elems(regs);
    KillAllRegs(L + {r}, regs, r + 1);
    CheckSeq(s, code + [callIr], KillAll(regs), RegState(live + {r}, r + 1));
  }

  lemma AssignRegs(c: Ctx, n: Ast.Node, L: set<nat>)
    requires n.BinOp? && Below(L, c.regno) && ExprAssign(c, n).Ok?
    requires ExprOk(c, Expr(c, n.rhs), L)
    requires var e := Expr(c, n.rhs).value;
      Lval(e.ctx, n.lhs).Ok? &&
      var a := Lval(e.ctx, n.lhs).value;
      a.reg == e.ctx.regno && a.ctx.regno == e.ctx.regno + 1 &&
      Check(RegState(L + {e.reg}, e.ctx.regno), a.code) == Some(RegState(L + {e.reg} + {a.reg}, a.ctx.regno))
    ensures ExprOk(c, ExprAssign(c, n), L)
  {
    var s := RegState(L, c.regno);
    var e := Expr(c, n.rhs).value;
    var a := Lval(e.ctx, n.lhs).value;
    var mid := RegState(L + {e.reg} + {a.reg}, a.ctx.regno);
    CheckSeq(s, e.code, a.code, RegState(L + {e.reg}, e.ctx.regno));
    var st := IR(Store, Some(a.reg), Some(e.reg));
    CheckSnoc(s, e.code + a.code, st, mid);
    var kl := IR(Kill, Some(e.reg), None);
    assert (L + {e.reg} + {a.reg}) - {e.reg} == L + {a.reg};
    CheckSnoc(s, e.code + a.code + [st], kl, mid);
    assert ExprAssign(c, n).value.code == e.code + a.code + [st] + [kl];
  }

  lemma ArithRegs(c: Ctx, n: Ast.Node, L: set<nat>)
    requires n.BinOp? && Below(L, c.regno) && ExprArith(c, n).Ok?
    requires ExprOk(c, Expr(c, n.lhs), L)
    requires var l := Expr(c, n.lhs).value; ExprOk(l.ctx, Expr(l.ctx, n.rhs), L + {l.reg})
    ensures ExprOk(c, ExprArith(c, n), L)
  {
    var s := RegState(L, c.regno);
    var l := Expr(c, n.lhs).value;
    var r := Expr(l.ctx, n.rhs).value;
    var aop := FromToken(n.op).value;
    var mid := RegState(L + {l.reg} + {r.reg}, r.ctx.regno);
    CheckSeq(s, l.code, r.code, RegState(L + {l.reg}, l.ctx.regno));
    var ar := IR(aop, Some(l.reg), Some(r.reg));
    assert Step(mid, ar) == Some(mid);
    CheckSnoc(s, l.code + r.code, ar, mid);
    var kl := IR(Kill, Some(r.reg), None);
    assert (L + {l.reg} + {r.reg}) - {r.reg} == L + {l.reg};
    CheckSnoc(s, l.code + r.code + [ar], kl, mid);
    assert ExprArith(c, n).value.code == l.code + r.code + [ar] + [kl];
  }

  /** Call arguments are lowered left to right: their result registers are
      increasing, lie in the block allocated meanwhile, and stay live. */
  lemma {:induction false} ArgsRegs(c: Ctx, args: seq<Ast.Node>, pos: nat, L: set<nat>)
    requires pos <= MaxArgs && Args(c, args, pos).Ok? && Below(L, c.regno)
    ensures var w := Args(c, args, pos).value;
      c.regno <= w.ctx.regno && Increasing(w.regs) &&
      (forall i :: 0 <= i < |w.regs| ==> c.regno <= w.regs[i] < w.ctx.regno) &&
      Check(RegState(L, c.regno), w.code) == Some(RegState(L + Elems(w.regs), w.ctx.regno))
    decreases args
  {
    if args == [] {
      assert L + Elems([]) == L;
    } else {
      ExprRegs(c, args[0], L);
      var v := Expr(c, args[0]).value;
      ArgsRegs(v.ctx, args[1..], pos + 1, L + {v.reg});
      ArgsCons(c, args, pos, L);
    }
  }

  lemma ArgsCons(c: Ctx, args: seq<Ast.Node>, pos: nat, L: set<nat>)
    requires pos <= MaxArgs && args != [] && Args(c, args, pos).Ok? && Below(L, c.regno)
    requires ExprOk(c, Expr(c, args[0]), L)
    requires var v := Expr(c, args[0]).value; ArgsOk(v.ctx, Args(v.ctx, args[1..], pos + 1), L + {v.reg})
    ensures ArgsOk(c, Args(c, args, pos), L)
  {
    var v := Expr(c, args[0]).value;
    var w := Args(v.ctx, args[1..], pos + 1).value;
    var all := Args(c, args, pos).value;
    assert all == ArgsOut(w.ctx, v.code + w.code, [v.reg] + w.regs);
    CheckSeq(RegState(L, c.regno), v.code, w.code, RegState(L + {v.reg}, v.ctx.regno));
    assert Elems(all.regs) == {v.reg} + Elems(w.regs);
    assert L + {v.reg} + Elems(w.regs) == L + Elems(all.regs);
    forall i, j | 0 <= i < j < |all.regs| ensures all.regs[i] < all.regs[j] {
      if i > 0 { assert all.regs[i] == w.regs[i - 1]; }
      assert all.regs[j] == w.regs[j - 1];
    }
    forall i | 0 <= i < |all.regs| ensures c.regno <= all.regs[i] < all.ctx.regno {
      if i > 0 { assert all.regs[i] == w.regs[i - 1]; }
    }
  }

  /** A statement allocates registers from the counter and kills each one:
      the live set is the same before and after it. */
  lemma {:induction false} StmtRegs(c: Ctx, n: Ast.Node, L: set<nat>)
    requires Stmt(c, n).Ok? && Below(L, c.regno)
    ensures var e := Stmt(c, n).value;
      c.regno <= e.ctx.regno &&
      Check(RegState(L, c.regno), e.code) == Some(RegState(L, e.ctx.regno))
    decreases n
  {
    match n
    case If(_, _, _) =>
      ExprRegs(c, n.cond, L);
      var v := Expr(c, n.cond).value;
      var x := v.ctx.nextLabel;
      var c1 := v.ctx.(nextLabel := x + 1);
      StmtRegs(c1, n.thenBranch, L);
      var t := Stmt(c1, n.thenBranch).value;
      if n.elseBranch.None? {
        IfCodeRegs(RegState(L, c.regno), v.code, v.reg, x, t.code, None, [], L, v.ctx.regno, t.ctx.regno, t.ctx.regno);
      } else {
        var y := t.ctx.nextLabel;
        var c2 := t.ctx.(nextLabel := y + 1);
        StmtRegs(c2, n.elseBranch.value, L);
        var el := Stmt(c2, n.elseBranch.value).value;
        IfCodeRegs(RegState(L, c.regno), v.code, v.reg, x, t.code, Some(y), el.code, L, v.ctx.regno, t.ctx.regno, el.ctx.regno);
      }
    case Return(expr) =>
      ExprRegs(c, expr, L);
      var v := Expr(c, expr).value;
      KillTail(RegState(L, c.regno), v.code, [IR(Return, Some(v.reg), None)], v.reg, L, v.ctx.regno);
      assert Stmt(c, n).value.code == v.code + [IR(Return, Some(v.reg), None)] + [IR(Kill, Some(v.reg), None)];
    case ExprStmt(expr) =>
      ExprRegs(c, expr, L);
      var v := Expr(c, expr).value;
      KillTail(RegState(L, c.regno), v.code, [], v.reg, L, v.ctx.regno);
      assert v.code + [] == v.code;
    case CompStmt(stmts) =>
      StmtsRegs(c, stmts, L);
  }

  /** An expression statement's tail: uses of its live register that leave
      the state alone, then the Kill that retires it. */
  lemma KillTail(s: RegState, code: seq<IR>, uses: seq<IR>, r: nat, L: set<nat>, next: nat)
    requires r !in L && Check(s, code) == Some(RegState(L + {r}, next))
    requires Check(RegState(L + {r}, next), uses) == Some(RegState(L + {r}, next))
    ensures Check(s, code + uses + [IR(Kill, Some(r), None)]) == Some(RegState(L, next))
  {
    CheckSeq(s, code, uses, RegState(L + {r}, next));
    assert (L + {r}) - {r} == L;
    CheckSnoc(s, code + uses, IR(Kill, Some(r), None), RegState(L + {r}, next));
  }

  /** The register checker over the layout of an if: the condition leaves
      its register live on top of L, `Unless; Kill` retires it, and each
      branch leaves L as it found it; labels and jumps change nothing. */
  lemma IfCodeRegs(s: RegState, cond: seq<IR>, r: nat, x: nat, th: seq<IR>, y: Option<nat>, el: seq<IR>,
                   L: set<nat>, n1: nat, n2: nat, n3: nat)
    requires r !in L && Check(s, cond) == Some(RegState(L + {r}, n1))
    requires Check(RegState(L, n1), th) == Some(RegState(L, n2))
    requires y.Some? ==> Check(RegState(L, n2), el) == Some(RegState(L, n3))
    requires y.None? ==> n3 == n2
    ensures var head := cond + [IR(Unless, Some(r), Some(x)), IR(Kill, Some(r), None)];
      Check(s, if y.None? then head + th + [IR(Label, Some(x), None)]
               else head + th + [IR(Jmp, Some(y.value), None), IR(Label, Some(x), None)]
                    + el + [IR(Label, Some(y.value), None)]) == Some(RegState(L, n3))
  {
    var un := IR(Unless, Some(r), Some(x));
    var kl := IR(Kill, Some(r), None);
    var lv := RegState(L + {r}, n1);
    assert (L + {r}) - {r} == L;
    CheckSnoc(s, cond, un, lv);
    CheckSnoc(s, cond + [un], kl, lv);
    var head := cond + [un, kl];
    assert head == cond + [un] + [kl];
    CheckSeq(s, head, th, RegState(L, n1));
    var mid := RegState(L, n2);
    var lx := IR(Label, Some(x), None);
    if y.None? {
      CheckSnoc(s, head + th, lx, mid);
    } else {
      var jp := IR(Jmp, Some(y.value), None);
      var ly := IR(Label, Some(y.value), None);
      ElseTail(s, head + th, mid, jp, lx, el, ly, RegState(L, n3));
      assert head + th + [jp, lx] + el + [ly] == head + th + [jp] + [lx] + el + [ly];
    }
  }

  /** The register checker passes over `Jmp; Label; <else>; Label` unchanged except for <else>. */
  lemma ElseTail(s: RegState, pre: seq<IR>, mid: RegState, jp: IR, lx: IR, el: seq<IR>, ly: IR, fin: RegState)
    requires Check(s, pre) == Some(mid) && Step(mid, jp) == Some(mid) && Step(mid, lx) == Some(mid)
    requires Check(mid, el) == Some(fin) && Step(fin, ly) == Some(fin)
    ensures Check(s, pre + [jp] + [lx] + el + [ly]) == Some(fin)
  {
    CheckSnoc(s, pre, jp, mid);
    CheckSnoc(s, pre + [jp], lx, mid);
    CheckSeq(s, pre + [jp] + [lx], el, mid);
    CheckSnoc(s, pre + [jp] + [lx] + el, ly, fin);
  }

  lemma {:induction false} StmtsRegs(c: Ctx, stmts: seq<Ast.Node>, L: set<nat>)
    requires Stmts(c, stmts).Ok? && Below(L, c.regno)
    ensures var e := Stmts(c, stmts).value;
      c.regno <= e.ctx.regno &&
      Check(RegState(L, c.regno), e.code) == Some(RegState(L, e.ctx.regno))
    decreases stmts
  {
    if stmts != [] {
      var a := Stmt(c, stmts[0]).value;
      StmtRegs(c, stmts[0], L);
      StmtsRegs(a.ctx, stmts[1..], L);
      CheckSeq(RegState(L, c.regno), a.code, Stmts(a.ctx, stmts[1..]).value.code, RegState(L, a.ctx.regno));
    }
  }
}
