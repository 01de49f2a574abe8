/** The lowering pass as pure functions: each threads the per-function
    context explicitly and returns the instructions it appends. */
module Lower {
  import opened Outcome
  import Ast
  import opened Ir

  /** Lowering state: the name-to-offset map, the next virtual register,
      the stack-size accumulator, and the program-wide next label. */
  datatype Ctx = Ctx(vars: map<string, nat>, regno: nat, stackSize: nat, nextLabel: nat)

  /** An expression's lowering: state afterwards, appended code, result register. */
  datatype ExprOut = ExprOut(ctx: Ctx, code: seq<IR>, reg: nat)
  /** The lowering of call arguments: one result register per argument. */
  datatype ArgsOut = ArgsOut(ctx: Ctx, code: seq<IR>, regs: seq<nat>)
  /** A statement's lowering: state afterwards and appended code. */
  datatype StmtOut = StmtOut(ctx: Ctx, code: seq<IR>)

  /** `val as usize` on a 64-bit target. */
  function ToUsize(v: int): nat {
    v % 0x1_0000_0000_0000_0000
  }

  /** The six-slot argument array of a call: the argument registers, then zeros. */
  function ArgArray(regs: seq<nat>): seq<nat>
    requires |regs| <= MaxArgs
  {
    regs + seq(MaxArgs - |regs|, _ => 0)
  }

  /** One Kill per register, in order. */
  function KillAll(regs: seq<nat>): seq<IR> {
    if regs == [] then [] else [IR(Kill, Some(regs[0]), None)] + KillAll(regs[1..])
  }

  /** gen_lval: the address of a variable, binding an unseen name to the
      current stack size and then growing the stack by 8. */
  function Lval(c: Ctx, n: Ast.Node): Result<ExprOut> {
    match n
    case Ident(name) =>
      var c1 := if name in c.vars then c
                else c.(vars := c.vars[name := c.stackSize], stackSize := c.stackSize + 8);
      var r := c1.regno;
      Ok(ExprOut(c1.(regno := r + 1),
                 [IR(Mov, Some(r), Some(0)), IR(SubImm, Some(r), Some(c1.vars[name]))],
                 r))
    case _ => Err(NotAnLvalue)
  }

  /** gen_expr: lowers an expression into a register. */
  function Expr(c: Ctx, n: Ast.Node): Result<ExprOut>
    decreases n, 1
  {
    match n
    case Num(v) =>
      var r := c.regno;
      Ok(ExprOut(c.(regno := r + 1), [IR(Imm, Some(r), Some(ToUsize(v)))], r))
    case Ident(_) =>
      (match Lval(c, n)
       case Err(f) => Err(f)
       case Ok(a) => Ok(ExprOut(a.ctx, a.code + [IR(Load, Some(a.reg), Some(a.reg))], a.reg)))
    case Call(name, args) => ExprCall(c, n)
    case BinOp(op, _, _) => if op == Ast.Equal then ExprAssign(c, n) else ExprArith(c, n)
    case _ => Err(Unreachable)
  }

  /** A call: the arguments, one Call into a fresh result register, then a
      Kill for each argument register. */
  function ExprCall(c: Ctx, n: Ast.Node): Result<ExprOut>
    requires n.Call?
    decreases n, 0
  {
    match Args(c, n.args, 0)
    case Err(f) => Err(f)
    case Ok(w) =>
      var r := w.ctx.regno;
      Ok(ExprOut(w.ctx.(regno := r + 1),
                 w.code + [IR(Call(n.callee, |n.args|, ArgArray(w.regs)), Some(r), None)] + KillAll(w.regs),
                 r))
  }

  /** An assignment: the value first, then the address; the result is the address register. */
  function ExprAssign(c: Ctx, n: Ast.Node): Result<ExprOut>
    requires n.BinOp?
    decreases n, 0
  {
    match Expr(c, n.rhs)
    case Err(f) => Err(f)
    case Ok(v) =>
      match Lval(v.ctx, n.lhs)
      case Err(f) => Err(f)
      case Ok(a) =>
        Ok(ExprOut(a.ctx,
                   v.code + a.code + [IR(Store, Some(a.reg), Some(v.reg)), IR(Kill, Some(v.reg), None)],
                   a.reg))
  }

  /** Arithmetic: left operand, right operand, the operation in place on the
      left register, then a Kill of the right register. */
  function ExprArith(c: Ctx, n: Ast.Node): Result<ExprOut>
    requires n.BinOp?
    decreases n, 0
  {
    match Expr(c, n.lhs)
    case Err(f) => Err(f)
    case Ok(l) =>
      match Expr(l.ctx, n.rhs)
      case Err(f) => Err(f)
      case Ok(r) =>
        match FromToken(n.op)
        case Err(f) => Err(f)
        case Ok(aop) =>
          Ok(ExprOut(r.ctx,
                     l.code + r.code + [IR(aop, Some(l.reg), Some(r.reg)), IR(Kill, Some(r.reg), None)],
                     l.reg))
  }

  /** The argument loop of a call: lowers the arguments left to right; the
      argument at position `pos` is lowered before its slot in the six-slot
      array is found to be missing. */
  function Args(c: Ctx, args: seq<Ast.Node>, pos: nat): (r: Result<ArgsOut>)
    requires pos <= MaxArgs
    decreases args, 2
    ensures r.Ok? ==> |r.value.regs| == |args| && pos + |args| <= MaxArgs
  {
    if args == [] then Ok(ArgsOut(c, [], [])) else
    match Expr(c, args[0])
    case Err(f) => Err(f)
    case Ok(v) =>
      if pos >= MaxArgs then Err(TooManyArgs) else
      match Args(v.ctx, args[1..], pos + 1)
      case Err(f) => Err(f)
      case Ok(w) => Ok(ArgsOut(w.ctx, v.code + w.code, [v.reg] + w.regs))
  }

  /** gen_stmt: lowers a statement. */
  function Stmt(c: Ctx, n: Ast.Node): Result<StmtOut>
    decreases n, 1
  {
    match n
    case If(_, _, _) => StmtIf(c, n)
    case Return(expr) =>
      (match Expr(c, expr)
       case Err(f) => Err(f)
       case Ok(v) => Ok(StmtOut(v.ctx, v.code + [IR(Return, Some(v.reg), None), IR(Kill, Some(v.reg), None)])))
    case ExprStmt(expr) =>
      (match Expr(c, expr)
       case Err(f) => Err(f)
       case Ok(v) => Ok(StmtOut(v.ctx, v.code + [IR(Kill, Some(v.reg), None)])))
    case CompStmt(stmts) => Stmts(c, stmts)
    case _ => Err(UnknownNode)
  }

  /** The condition, `Unless r, x; Kill r`, the then branch, and either
      `Label x` or `Jmp y; Label x; <else>; Label y`. */
  function StmtIf(c: Ctx, n: Ast.Node): Result<StmtOut>
    requires n.If?
    decreases n, 0
  {
    match Expr(c, n.cond)
    case Err(f) => Err(f)
    case Ok(v) =>
      var x := v.ctx.nextLabel;
      var head := v.code + [IR(Unless, Some(v.reg), Some(x)), IR(Kill, Some(v.reg), None)];
      match Stmt(v.ctx.(nextLabel := x + 1), n.thenBranch)
      case Err(f) => Err(f)
      case Ok(t) =>
        if n.elseBranch.None? then
          Ok(StmtOut(t.ctx, head + t.code + [IR(Label, Some(x), None)]))
        else
          var y := t.ctx.nextLabel;
          match Stmt(t.ctx.(nextLabel := y + 1), n.elseBranch.value)
          case Err(f) => Err(f)
          case Ok(e) =>
            Ok(StmtOut(e.ctx, head + t.code + [IR(Jmp, Some(y), None), IR(Label, Some(x), None)]
                              + e.code + [IR(Label, Some(y), None)]))
  }

  /** The statements of a block, in order. */
  function Stmts(c: Ctx, stmts: seq<Ast.Node>): Result<StmtOut>
    decreases stmts, 2
  {
    if stmts == [] then Ok(StmtOut(c, [])) else
    match Stmt(c, stmts[0])
    case Err(f) => Err(f)
    case Ok(s) =>
      match Stmts(s.ctx, stmts[1..])
      case Err(f) => Err(f)
      case Ok(t) => Ok(StmtOut(t.ctx, s.code + t.code))
  }

  /** The parameter loop of gen_args: each parameter grows the stack by 8
      and is bound to the grown size. */
  function Bind(c: Ctx, params: seq<Ast.Node>): Result<Ctx>
    decreases params
  {
    if params == [] then Ok(c) else
    match params[0]
    case Ident(name) =>
      var s := c.stackSize + 8;
      Bind(c.(vars := c.vars[name := s], stackSize := s), params[1..])
    case _ => Err(BadParameter)
  }

  /** gen_args: nothing for no parameters, otherwise one SaveArgs and the bindings. */
  function Params(c: Ctx, params: seq<Ast.Node>): Result<StmtOut> {
    if params == [] then Ok(StmtOut(c, [])) else
    match Bind(c, params)
    case Err(f) => Err(f)
    case Ok(c1) => Ok(StmtOut(c1, [IR(SaveArgs, Some(|params|), None)]))
  }

  /** The context a function starts from: only the label counter carries over. */
  function Fresh(nextLabel: nat): Ctx {
    Ctx(map[], 1, 0, nextLabel)
  }

  /** One iteration of gen_ir: a function definition becomes a Function;
      returns the label counter afterwards. */
  function LowerFunc(nextLabel: nat, n: Ast.Node): Result<(nat, Function)> {
    match n
    case Func(name, params, body) =>
      (match Params(Fresh(nextLabel), params)
       case Err(f) => Err(f)
       case Ok(p) =>
         match Stmt(p.ctx, body)
         case Err(f) => Err(f)
         case Ok(b) => Ok((b.ctx.nextLabel, Function(name, p.code + b.code, b.ctx.stackSize))))
    case _ => Err(ParseError)
  }

  /** gen_ir: lowers every top-level node in order, threading the label counter. */
  function Program(nextLabel: nat, nodes: seq<Ast.Node>): Result<(nat, seq<Function>)>
    decreases nodes
  {
    if nodes == [] then Ok((nextLabel, [])) else
    match LowerFunc(nextLabel, nodes[0])
    case Err(f) => Err(f)
    case Ok((l1, f)) =>
      match Program(l1, nodes[1..])
      case Err(g) => Err(g)
      case Ok((l2, fs)) => Ok((l2, [f] + fs))
  }
}
