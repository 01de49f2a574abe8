/** Stack-frame discipline: lowering only ever adds variables, never moves
    an existing one, and gives every new name its own 8-byte slot just
    above the old frame, so the frame grows by 8 per new name. */
module FrameProofs {
  import opened Outcome
  import Ast
  import opened Ir
  import opened Lower

  /** Slots in use are 8-aligned and inside the frame. */
  predicate FrameOk(c: Ctx) {
    c.stackSize % 8 == 0 &&
    forall x :: x in c.vars ==> c.vars[x] % 8 == 0 && c.vars[x] <= c.stackSize
  }

  /** The part of the context that describes the stack frame. */
  datatype Frame = Frame(vars: map<string, nat>, size: nat)

  function FrameOf(c: Ctx): Frame {
    Frame(c.vars, c.stackSize)
  }

  /** Old names keep their offsets. */
  predicate Keeps(c: Frame, d: Frame) {
    c.vars.Keys <= d.vars.Keys && forall x :: x in c.vars ==> d.vars[x] == c.vars[x]
  }

  /** Each name in `d` but not in `c` sits in [c.size, d.size),
      on the 8-byte grid from c.size. */
  predicate NewSlots(c: Frame, d: Frame) {
    forall x :: x in d.vars && x !in c.vars ==>
      c.size <= d.vars[x] < d.size && (d.vars[x] - c.size) % 8 == 0
  }

  /** Distinct new names get distinct slots. */
  predicate NewDistinct(c: Frame, d: Frame) {
    forall x, y :: x in d.vars && y in d.vars && x !in c.vars && y !in c.vars && x != y ==>
      d.vars[x] != d.vars[y]
  }

  /** The frame grows by 8 per new name (old names are kept, so the new
      names are the |d.vars| - |c.vars| extra keys). */
  predicate Counted(c: Frame, d: Frame) {
    |c.vars| <= |d.vars| && d.size == c.size + 8 * (|d.vars| - |c.vars|)
  }

  /** Frame `d` extends frame `c`. */
  predicate Extends(c: Frame, d: Frame) {
    Keeps(c, d) && NewSlots(c, d) && NewDistinct(c, d) && Counted(c, d)
  }

  lemma ExtendsRefl(c: Frame)
    ensures Extends(c, c)
  {
  }

  lemma CountedTrans(c: Frame, d: Frame, e: Frame)
    requires Counted(c, d) && Counted(d, e)
    ensures Counted(c, e) && d.size >= c.size
  {
  }

  lemma NewSlotsTrans(c: Frame, d: Frame, e: Frame, k: nat)
    requires Keeps(c, d) && Keeps(d, e) && NewSlots(c, d) && NewSlots(d, e)
    requires d.size == c.size + 8 * k && d.size <= e.size
    ensures NewSlots(c, e)
  {
    forall x | x in e.vars && x !in c.vars
      ensures c.size <= e.vars[x] < e.size && (e.vars[x] - c.size) % 8 == 0
    {
      if x in d.vars {
        assert e.vars[x] == d.vars[x];
      } else {
        var p := e.vars[x] - d.size;
        EightMul(k);
        ModSum(p, 8 * k);
        assert e.vars[x] - c.size == p + 8 * k;
      }
    }
  }

  lemma ModSum(p: int, q: int)
    requires p % 8 == 0 && q % 8 == 0
    ensures (p + q) % 8 == 0
  {
    assert p == 8 * (p / 8) && q == 8 * (q / 8);
    assert p + q == 8 * (p / 8 + q / 8);
  }

  lemma EightMul(k: int)
    ensures (8 * k) % 8 == 0
  {
  }

  lemma NewDistinctTrans(c: Frame, d: Frame, e: Frame)
    requires Keeps(c, d) && Keeps(d, e) && NewSlots(c, d) && NewSlots(d, e)
    requires NewDistinct(c, d) && NewDistinct(d, e)
    ensures NewDistinct(c, e)
  {
    forall x, y | x in e.vars && y in e.vars && x !in c.vars && y !in c.vars && x != y
      ensures e.vars[x] != e.vars[y]
    {
      if x in d.vars && y in d.vars {
        assert e.vars[x] == d.vars[x] && e.vars[y] == d.vars[y];
      } else if x in d.vars {
        assert e.vars[x] == d.vars[x] < d.size <= e.vars[y];
      } else if y in d.vars {
        assert e.vars[y] == d.vars[y] < d.size <= e.vars[x];
      }
    }
  }

  lemma KeepsTrans(c: Frame, d: Frame, e: Frame)
    requires Keeps(c, d) && Keeps(d, e)
    ensures Keeps(c, e)
  {
  }

  lemma ExtendsTrans(c: Frame, d: Frame, e: Frame)
    requires Extends(c, d) && Extends(d, e)
    ensures Extends(c, e)
  {
    KeepsTrans(c, d, e);
    assert Keeps(c, e);
    CountedTrans(c, d, e);
    assert Counted(c, e);
    NewSlotsTrans(c, d, e, |d.vars| - |c.vars|);
    assert NewSlots(c, e);
    NewDistinctTrans(c, d, e);
    assert NewDistinct(c, e);
  }

  /** Lowering from `c` to `d` only extends the frame. */
  predicate Grows(c: Ctx, d: Ctx) {
    Extends(FrameOf(c), FrameOf(d))
  }

  lemma GrowsRefl(c: Ctx, d: Ctx)
    requires d.vars == c.vars && d.stackSize == c.stackSize
    ensures Grows(c, d)
  {
    ExtendsRefl(FrameOf(c));
  }

  lemma GrowsTrans(c: Ctx, d: Ctx, e: Ctx)
    requires Grows(c, d) && Grows(d, e)
    ensures Grows(c, e)
  {
    ExtendsTrans(FrameOf(c), FrameOf(d), FrameOf(e));
  }

  /** Growth preserves a well-formed frame. */
  lemma GrowsFrame(c: Ctx, d: Ctx)
    requires Grows(c, d) && FrameOk(c)
    ensures FrameOk(d)
  {
    var k := |d.vars| - |c.vars|;
    EightMul(k);
    ModSum(c.stackSize, 8 * k);
    forall x | x in d.vars ensures d.vars[x] % 8 == 0 && d.vars[x] <= d.stackSize {
      if x !in c.vars {
        ModSum(c.stackSize, d.vars[x] - c.stackSize);
      } else {
        assert d.vars[x] == c.vars[x];
      }
    }
  }

  /** gen_lval: an unseen name takes the offset equal to the frame size
      before the 8-byte increment; a known name reuses its offset and the
      frame is untouched. Either way the address is `Mov r, 0; SubImm r, off`
      into the freshly allocated r. */
  lemma LvalOffsets(c: Ctx, name: string)
    ensures var a := Lval(c, Ast.Ident(name));
      a.Ok? &&
      var off := if name in c.vars then c.vars[name] else c.stackSize;
      a.value.reg == c.regno && a.value.ctx.regno == c.regno + 1 &&
      a.value.code == [IR(Mov, Some(c.regno), Some(0)), IR(SubImm, Some(c.regno), Some(off))] &&
      a.value.ctx.vars == c.vars[name := off] &&
      a.value.ctx.stackSize == (if name in c.vars then c.stackSize else c.stackSize + 8) &&
      a.value.ctx.nextLabel == c.nextLabel
  {
  }

  /** Anything but an identifier is not an lvalue. */
  lemma LvalRejects(c: Ctx, n: Ast.Node)
    ensures Lval(c, n).Err? <==> !n.Ident?
    ensures Lval(c, n).Err? ==> Lval(c, n).fault == NotAnLvalue
  {
  }

  /** Taking the address of a name twice gives the same offset. */
  lemma LvalStableOffset(c: Ctx, name: string)
    ensures var a := Lval(c, Ast.Ident(name)).value;
      var b := Lval(a.ctx, Ast.Ident(name)).value;
      b.code[1] == IR(SubImm, Some(b.reg), a.code[1].rhs) &&
      b.ctx.stackSize == a.ctx.stackSize && b.ctx.vars == a.ctx.vars
  {
    LvalOffsets(c, name);
    var a := Lval(c, Ast.Ident(name)).value;
    LvalOffsets(a.ctx, name);
    assert a.ctx.vars[name := a.ctx.vars[name]] == a.ctx.vars;
  }

  lemma LvalFrame(c: Ctx, n: Ast.Node)
    requires Lval(c, n).Ok?
    ensures Grows(c, Lval(c, n).value.ctx)
  {
    var d := Lval(c, n).value.ctx;
    var name := n.name;
    if name in c.vars {
      assert c.vars[name := c.vars[name]] == c.vars;
      GrowsRefl(c, d);
    }
  }

  /** Expressions only grow the frame (assignment to, or use of, an unseen name). */
  lemma {:induction false} ExprFrame(c: Ctx, n: Ast.Node)
    requires Expr(c, n).Ok?
    ensures Grows(c, Expr(c, n).value.ctx)
    decreases n
  {
    match n
    case Num(_) => GrowsRefl(c, Expr(c, n).value.ctx);
    case Ident(_) => LvalFrame(c, n);
    case Call(name, args) =>
      ArgsFrame(c, args, 0);
      var w := Args(c, args, 0).value;
      GrowsRefl(w.ctx, Expr(c, n).value.ctx);
      GrowsTrans(c, w.ctx, Expr(c, n).value.ctx);
    case BinOp(op, lhs, rhs) =>
      if op == Ast.Equal {
        ExprFrame(c, rhs);
        var v := Expr(c, rhs).value;
        LvalFrame(v.ctx, lhs);
        GrowsTrans(c, v.ctx, Lval(v.ctx, lhs).value.ctx);
      } else {
        ExprFrame(c, lhs);
        var l := Expr(c, lhs).value;
        ExprFrame(l.ctx, rhs);
        GrowsTrans(c, l.ctx, Expr(l.ctx, rhs).value.ctx);
      }
  }

  lemma {:induction false} ArgsFrame(c: Ctx, args: seq<Ast.Node>, pos: nat)
    requires pos <= MaxArgs && Args(c, args, pos).Ok?
    ensures Grows(c, Args(c, args, pos).value.ctx)
    decreases args
  {
    if args == [] {
      GrowsRefl(c, c);
    } else {
      ExprFrame(c, args[0]);
      var v := Expr(c, args[0]).value;
      ArgsFrame(v.ctx, args[1..], pos + 1);
      GrowsTrans(c, v.ctx, Args(v.ctx, args[1..], pos + 1).value.ctx);
    }
  }

  /** Statements only grow the frame. */
  lemma {:induction false} StmtFrame(c: Ctx, n: Ast.Node)
    requires Stmt(c, n).Ok?
    ensures Grows(c, Stmt(c, n).value.ctx)
    decreases n
  {
    match n
    case If(cond, thenBranch, elseBranch) =>
      ExprFrame(c, cond);
      var v := Expr(c, cond).value;
      var c1 := v.ctx.(nextLabel := v.ctx.nextLabel + 1);
      IfCtx(c, n);
      StmtFrame(c1, thenBranch);
      var t := Stmt(c1, thenBranch).value;
      assert FrameOf(c1) == FrameOf(v.ctx);
      ExtendsTrans(FrameOf(c), FrameOf(v.ctx), FrameOf(t.ctx));
      if elseBranch.Some? {
        var c2 := t.ctx.(nextLabel := t.ctx.nextLabel + 1);
        StmtFrame(c2, elseBranch.value);
        assert FrameOf(c2) == FrameOf(t.ctx);
        ExtendsTrans(FrameOf(c), FrameOf(t.ctx), FrameOf(Stmt(c2, elseBranch.value).value.ctx));
      }
    case Return(expr) =>
      ExprFrame(c, expr);
    case ExprStmt(expr) =>
      ExprFrame(c, expr);
    case CompStmt(stmts) =>
      StmtsFrame(c, stmts);
  }

  /** Where an if statement leaves the context: after its last branch. */
  lemma IfCtx(c: Ctx, n: Ast.Node)
    requires n.If? && StmtIf(c, n).Ok?
    ensures var v := Expr(c, n.cond).value;
      var c1 := v.ctx.(nextLabel := v.ctx.nextLabel + 1);
      Stmt(c1, n.thenBranch).Ok? &&
      var t := Stmt(c1, n.thenBranch).value;
      var c2 := t.ctx.(nextLabel := t.ctx.nextLabel + 1);
      (n.elseBranch.None? ==> StmtIf(c, n).value.ctx == t.ctx) &&
      (n.elseBranch.Some? ==> Stmt(c2, n.elseBranch.value).Ok? &&
                              StmtIf(c, n).value.ctx == Stmt(c2, n.elseBranch.value).value.ctx)
  {
  }

  lemma {:induction false} StmtsFrame(c: Ctx, stmts: seq<Ast.Node>)
    requires Stmts(c, stmts).Ok?
    ensures Grows(c, Stmts(c, stmts).value.ctx)
    decreases stmts
  {
    if stmts == [] {
      GrowsRefl(c, c);
    } else {
      StmtFrame(c, stmts[0]);
      var a := Stmt(c, stmts[0]).value;
      StmtsFrame(a.ctx, stmts[1..]);
      GrowsTrans(c, a.ctx, Stmts(a.ctx, stmts[1..]).value.ctx);
    }
  }
}
