/** Branch discipline of the lowering: expressions emit no labels or jumps,
    and a statement defines exactly the labels it allocates, each once,
    with every jump resolved by a later label. */
module LabelProofs {
  import opened Outcome
  import Ast
  import opened Ir
  import opened Lower
  import opened Labels

  /** Labels before `n` are the only ones already defined or pending. */
  predicate Before(s: LabelState, n: nat) {
    (forall x :: x in s.defined ==> x < n) && (forall x :: x in s.pending ==> x < n)
  }

  /** Code with no label definitions and no branches. */
  predicate Plain(code: seq<IR>) {
    forall k :: 0 <= k < |code| ==> !code[k].op.Label? && !IsJump(code[k])
  }

  /** How many labels a statement needs: one per if, two per if-else. */
  function LabelCount(n: Ast.Node): nat
    decreases n
  {
    match n
    case If(_, t, e) =>
      (if e.None? then 1 + LabelCount(t) else 2 + LabelCount(t) + LabelCount(e.value))
    case CompStmt(ss) => LabelCountAll(ss)
    case _ => 0
  }

  function LabelCountAll(ss: seq<Ast.Node>): nat
    decreases ss
  {
    if ss == [] then 0 else LabelCount(ss[0]) + LabelCountAll(ss[1..])
  }

  lemma LCheckOne(s: LabelState, ir: IR)
    ensures LCheck(s, [ir]) == LStep(s, ir)
  {
    assert [ir][1..] == [];
  }

  lemma LCheckSeq(s: LabelState, a: seq<IR>, b: seq<IR>, mid: LabelState)
    requires LCheck(s, a) == Some(mid)
    ensures LCheck(s, a + b) == LCheck(mid, b)
  {
    LCheckAppend(s, a, b);
  }

  lemma LCheckSnoc(s: LabelState, a: seq<IR>, ir: IR, mid: LabelState)
    requires LCheck(s, a) == Some(mid)
    ensures LCheck(s, a + [ir]) == LStep(mid, ir)
  {
    LCheckAppend(s, a, [ir]);
    LCheckOne(mid, ir);
  }

  /** Plain code leaves the label state as it is. */
  lemma {:induction false} PlainCheck(s: LabelState, code: seq<IR>)
    requires Plain(code)
    ensures LCheck(s, code) == Some(s)
    decreases |code|
  {
    if code != [] {
      assert Plain(code[1..]) by {
        forall k | 0 <= k < |code[1..]| ensures !code[1..][k].op.Label? && !IsJump(code[1..][k]) {
          assert code[1..][k] == code[k + 1];
        }
      }
      PlainCheck(s, code[1..]);
    }
  }

  lemma PlainAppend(a: seq<IR>, b: seq<IR>)
    requires Plain(a) && Plain(b)
    ensures Plain(a + b)
  {
    forall k | 0 <= k < |a + b| ensures !(a + b)[k].op.Label? && !IsJump((a + b)[k]) {
      if k >= |a| { assert (a + b)[k] == b[k - |a|]; }
    }
  }

  lemma {:induction false} KillAllPlain(regs: seq<nat>)
    ensures Plain(KillAll(regs))
    decreases |regs|
  {
    if regs != [] {
      KillAllPlain(regs[1..]);
      PlainAppend([IR(Kill, Some(regs[0]), None)], KillAll(regs[1..]));
    }
  }

  /** Expressions neither define labels nor branch, nor touch the label counter. */
  lemma {:induction false} ExprPlain(c: Ctx, n: Ast.Node)
    requires Expr(c, n).Ok?
    ensures Plain(Expr(c, n).value.code) && Expr(c, n).value.ctx.nextLabel == c.nextLabel
    decreases n
  {
    var v := Expr(c, n).value;
    match n
    case Num(_) =>
    case Ident(_) =>
      var a := Lval(c, n).value;
      PlainAppend(a.code, [IR(Load, Some(a.reg), Some(a.reg))]);
    case Call(name, args) =>
      ArgsPlain(c, args, 0);
      var w := Args(c, args, 0).value;
      KillAllPlain(w.regs);
      PlainAppend(w.code, [IR(Call(name, |args|, ArgArray(w.regs)), Some(w.ctx.regno), None)]);
      PlainAppend(w.code + [IR(Call(name, |args|, ArgArray(w.regs)), Some(w.ctx.regno), None)], KillAll(w.regs));
    case BinOp(op, lhs, rhs) =>
      if op == Ast.Equal {
        ExprPlain(c, rhs);
        var e := Expr(c, rhs).value;
        var a := Lval(e.ctx, lhs).value;
        var tail := [IR(Store, Some(a.reg), Some(e.reg)), IR(Kill, Some(e.reg), None)];
        PlainAppend(e.code, a.code);
        PlainAppend(e.code + a.code, tail);
        assert v.code == e.code + a.code + tail;
      } else {
        ExprPlain(c, lhs);
        var l := Expr(c, lhs).value;
        ExprPlain(l.ctx, rhs);
        var r := Expr(l.ctx, rhs).value;
        var tail := [IR(FromToken(op).value, Some(l.reg), Some(r.reg)), IR(Kill, Some(r.reg), None)];
        PlainAppend(l.code, r.code);
        PlainAppend(l.code + r.code, tail);
        assert v.code == l.code + r.code + tail;
      }
  }

  lemma {:induction false} ArgsPlain(c: Ctx, args: seq<Ast.Node>, pos: nat)
    requires pos <= MaxArgs && Args(c, args, pos).Ok?
    ensures Plain(Args(c, args, pos).value.code) && Args(c, args, pos).value.ctx.nextLabel == c.nextLabel
    decreases args
  {
    if args != [] {
      ExprPlain(c, args[0]);
      var v := Expr(c, args[0]).value;
      ArgsPlain(v.ctx, args[1..], pos + 1);
      PlainAppend(v.code, Args(v.ctx, args[1..], pos + 1).value.code);
    }
  }

  /** The statement postcondition for a lowered fragment `e` that started
      from context `c`, took `count` labels and is checked from state `s`. */
  predicate LabelsOk(c: Ctx, e: StmtOut, count: nat, s: LabelState) {
    e.ctx.nextLabel == c.nextLabel + count &&
    LCheck(s, e.code) == Some(LabelState(s.defined + Range(c.nextLabel, e.ctx.nextLabel), s.pending))
  }

  /** Plain code followed by one plain instruction, or two. */
  lemma PlainTail(s: LabelState, c: Ctx, e: StmtOut, code: seq<IR>, tail: seq<IR>)
    requires Plain(code) && Plain(tail) && e.code == code + tail && e.ctx.nextLabel == c.nextLabel
    ensures LabelsOk(c, e, 0, s)
  {
    PlainAppend(code, tail);
    PlainCheck(s, e.code);
    assert Range(c.nextLabel, c.nextLabel) == {};
    assert s.defined + {} == s.defined;
  }

  /** A statement defines exactly the labels it allocates from the counter,
      as many as the statement's ifs need, and resolves every jump it makes
      by a later label of its own. */
  lemma {:induction false} StmtLabels(c: Ctx, n: Ast.Node, s: LabelState)
    requires Stmt(c, n).Ok? && Before(s, c.nextLabel)
    ensures LabelsOk(c, Stmt(c, n).value, LabelCount(n), s)
    decreases n
  {
    match n
    case If(_, _, _) =>
      ExprPlain(c, n.cond);
      var v := Expr(c, n.cond).value;
      var x := v.ctx.nextLabel;
      var s1 := LabelState(s.defined, s.pending + {x});
      var c1 := v.ctx.(nextLabel := x + 1);
      StmtLabels(c1, n.thenBranch, s1);
      var t := Stmt(c1, n.thenBranch).value;
      var y := t.ctx.nextLabel;
      if n.elseBranch.None? {
        IfCodeLabels(s, v.code, v.reg, x, t.code, None, [], y, y);
      } else {
        var s2 := LabelState(s.defined + Range(x, y), s.pending + {y});
        var c2 := t.ctx.(nextLabel := y + 1);
        StmtLabels(c2, n.elseBranch.value, s2);
        var el := Stmt(c2, n.elseBranch.value).value;
        IfCodeLabels(s, v.code, v.reg, x, t.code, Some(y), el.code, y, el.ctx.nextLabel);
      }
    case Return(expr) =>
      ExprPlain(c, expr);
      var v := Expr(c, expr).value;
      PlainTail(s, c, Stmt(c, n).value, v.code, [IR(Return, Some(v.reg), None), IR(Kill, Some(v.reg), None)]);
    case ExprStmt(expr) =>
      ExprPlain(c, expr);
      var v := Expr(c, expr).value;
      PlainTail(s, c, Stmt(c, n).value, v.code, [IR(Kill, Some(v.reg), None)]);
    case CompStmt(stmts) =>
      StmtsLabels(c, stmts, s);
  }

  /** The branch checker over the layout of an if: plain condition code,
      `Unless r, x; Kill r`, a then branch defining (x, y), and either
      `Label x`, or `Jmp y; Label x`, an else branch defining (y, hi) and
      `Label y`; together they define exactly [x, hi). */
  lemma IfCodeLabels(s: LabelState, cond: seq<IR>, r: nat, x: nat, th: seq<IR>, y: Option<nat>, el: seq<IR>,
                     mid: nat, hi: nat)
    requires Before(s, x) && Plain(cond) && x < mid <= hi
    requires LCheck(LabelState(s.defined, s.pending + {x}), th)
             == Some(LabelState(s.defined + Range(x + 1, mid), s.pending + {x}))
    requires y.None? ==> hi == mid
    requires y.Some? ==> y.value == mid && mid < hi
    requires y.Some? ==> LCheck(LabelState(s.defined + Range(x, mid), s.pending + {mid}), el)
                         == Some(LabelState(s.defined + Range(x, mid) + Range(mid + 1, hi), s.pending + {mid}))
    ensures var head := cond + [IR(Unless, Some(r), Some(x)), IR(Kill, Some(r), None)];
      LCheck(s, if y.None? then head + th + [IR(Label, Some(x), None)]
                else head + th + [IR(Jmp, Some(mid), None), IR(Label, Some(x), None)]
                     + el + [IR(Label, Some(mid), None)]) == Some(LabelState(s.defined + Range(x, hi), s.pending))
  {
    var un := IR(Unless, Some(r), Some(x));
    var kl := IR(Kill, Some(r), None);
    var s1 := LabelState(s.defined, s.pending + {x});
    PlainCheck(s, cond);
    LCheckSnoc(s, cond, un, s);
    LCheckSnoc(s, cond + [un], kl, s1);
    var head := cond + [un, kl];
    assert head == cond + [un] + [kl];
    LCheckSeq(s, head, th, s1);
    var afterThen := LabelState(s.defined + Range(x + 1, mid), s.pending + {x});
    var lx := IR(Label, Some(x), None);
    if y.None? {
      LCheckSnoc(s, head + th, lx, afterThen);
      assert x !in afterThen.defined;
      assert afterThen.defined + {x} == s.defined + Range(x, mid);
      assert afterThen.pending - {x} == s.pending;
    } else {
      var jp := IR(Jmp, Some(mid), None);
      ElseLabels(s, head + th, x, mid, el, hi);
      assert head + th + [jp, lx] + el + [IR(Label, Some(mid), None)]
             == head + th + [jp] + [lx] + el + [IR(Label, Some(mid), None)];
    }
  }

  /** `Jmp y; Label x; <else>; Label y` after the then branch. */
  lemma ElseLabels(s: LabelState, pre: seq<IR>, x: nat, y: nat, el: seq<IR>, hi: nat)
    requires Before(s, x) && x < y < hi
    requires LCheck(s, pre) == Some(LabelState(s.defined + Range(x + 1, y), s.pending + {x}))
    requires LCheck(LabelState(s.defined + Range(x, y), s.pending + {y}), el)
             == Some(LabelState(s.defined + Range(x, y) + Range(y + 1, hi), s.pending + {y}))
    ensures LCheck(s, pre + [IR(Jmp, Some(y), None)] + [IR(Label, Some(x), None)] + el + [IR(Label, Some(y), None)])
            == Some(LabelState(s.defined + Range(x, hi), s.pending))
  {
    var jp := IR(Jmp, Some(y), None);
    var lx := IR(Label, Some(x), None);
    var ly := IR(Label, Some(y), None);
    var a := LabelState(s.defined + Range(x + 1, y), s.pending + {x});
    var b := LabelState(s.defined + Range(x + 1, y), s.pending + {x} + {y});
    var m := LabelState(s.defined + Range(x, y), s.pending + {y});
    var f := LabelState(s.defined + Range(x, y) + Range(y + 1, hi), s.pending + {y});
    assert y !in a.defined;
    assert LStep(a, jp) == Some(b);
    LCheckSnoc(s, pre, jp, a);
    assert x !in b.defined;
    assert b.defined + {x} == m.defined;
    assert b.pending - {x} == m.pending;
    assert LStep(b, lx) == Some(m);
    LCheckSnoc(s, pre + [jp], lx, b);
    LCheckSeq(s, pre + [jp] + [lx], el, m);
    assert y !in f.defined;
    assert f.defined + {y} == s.defined + Range(x, hi);
    assert f.pending - {y} == s.pending;
    LCheckSnoc(s, pre + [jp] + [lx] + el, ly, f);
  }

  lemma {:induction false} StmtsLabels(c: Ctx, stmts: seq<Ast.Node>, s: LabelState)
    requires Stmts(c, stmts).Ok? && Before(s, c.nextLabel)
    ensures var e := Stmts(c, stmts).value;
      e.ctx.nextLabel == c.nextLabel + LabelCountAll(stmts) &&
      LCheck(s, e.code) == Some(LabelState(s.defined + Range(c.nextLabel, e.ctx.nextLabel), s.pending))
    decreases stmts
  {
    if stmts == [] {
      assert Range(c.nextLabel, c.nextLabel) == {};
      assert s.defined + {} == s.defined;
    } else {
      var a := Stmt(c, stmts[0]).value;
      StmtLabels(c, stmts[0], s);
      var mid := LabelState(s.defined + Range(c.nextLabel, a.ctx.nextLabel), s.pending);
      StmtsLabels(a.ctx, stmts[1..], mid);
      var rest := Stmts(a.ctx, stmts[1..]).value;
      assert Stmts(c, stmts).value.code == a.code + rest.code;
      LCheckSeq(s, a.code, rest.code, mid);
      assert mid.defined + Range(a.ctx.nextLabel, rest.ctx.nextLabel)
             == s.defined + Range(c.nextLabel, rest.ctx.nextLabel);
    }
  }
}
