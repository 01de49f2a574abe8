/** Instructions over virtual registers, the opcode metadata table and the
    token-to-opcode conversion (src/ir.rs). */
module Ir {
  import opened Outcome
  import Ast

  /** Operand shape of an opcode; it chooses how an instruction is rendered. */
  datatype IRType = TyNoarg | TyReg | TyImm | TyLabel | TyRegReg | TyRegImm | TyRegLabel | TyCall

  /** Opcodes; only Call carries data: callee, argument count and a fixed array of six argument registers. */
  datatype IROp =
    | Imm | Mov | Add | SubImm | Sub | Mul | Div | Return
    | Call(callee: string, nargs: nat, args: seq<nat>)
    | Label | Jmp | Unless | Load | Store | Kill | SaveArgs | Nop

  /** Capacity of the argument array of a Call. */
  const MaxArgs: nat := 6

  datatype IR = IR(op: IROp, lhs: Option<nat>, rhs: Option<nat>)

  datatype IRInfo = IRInfo(op: IROp, name: string, ty: IRType)

  /** One lowered function: name, instructions and the size of its stack frame in bytes. */
  datatype Function = Function(name: string, ir: seq<IR>, stackSize: nat)

  /** Opcodes that stand for the same instruction family: equal, or both calls. */
  predicate SameFamily(a: IROp, b: IROp) {
    a == b || (a.Call? && b.Call?)
  }

  /** The metadata table, in the order of the source. */
  const IrInfoTable: seq<IRInfo> := [
    IRInfo(Add, "ADD", TyRegReg),
    IRInfo(Sub, "SUB", TyRegReg),
    IRInfo(Mul, "MUL", TyRegReg),
    IRInfo(Div, "DIV", TyRegReg),
    IRInfo(Imm, "MOV", TyRegImm),
    IRInfo(SubImm, "SUB", TyRegImm),
    IRInfo(Mov, "MOV", TyRegReg),
    IRInfo(Label, "", TyLabel),
    IRInfo(Jmp, "", TyLabel),
    IRInfo(Unless, "UNLESS", TyRegLabel),
    IRInfo(Call("", 0, [0, 0, 0, 0, 0, 0]), "CALL", TyCall),
    IRInfo(Return, "RET", TyReg),
    IRInfo(Load, "LOAD", TyRegReg),
    IRInfo(Store, "STORE", TyRegReg),
    IRInfo(Kill, "KILL", TyReg),
    IRInfo(SaveArgs, "SAVE_ARGS", TyImm),
    IRInfo(Nop, "NOP", TyNoarg)
  ]

  /** Reference definition of the mnemonic of each opcode. */
  function Mnemonic(op: IROp): string {
    match op
    case Add => "ADD"
    case Sub => "SUB"
    case Mul => "MUL"
    case Div => "DIV"
    case Imm => "MOV"
    case SubImm => "SUB"
    case Mov => "MOV"
    case Label => ""
    case Jmp => ""
    case Unless => "UNLESS"
    case Call(_, _, _) => "CALL"
    case Return => "RET"
    case Load => "LOAD"
    case Store => "STORE"
    case Kill => "KILL"
    case SaveArgs => "SAVE_ARGS"
    case Nop => "NOP"
  }

  /** Reference definition of the operand shape of each opcode. */
  function Shape(op: IROp): IRType {
    match op
    case Add | Sub | Mul | Div | Mov | Load | Store => TyRegReg
    case Imm | SubImm => TyRegImm
    case Label | Jmp => TyLabel
    case Unless => TyRegLabel
    case Call(_, _, _) => TyCall
    case Return | Kill => TyReg
    case SaveArgs => TyImm
    case Nop => TyNoarg
  }

  /** Position of an opcode's row in the table (every call opcode maps to the call row). */
  function TableIndex(op: IROp): (i: nat)
    ensures i < |IrInfoTable|
    ensures SameFamily(IrInfoTable[i].op, op)
  {
    match op
    case Add => 0
    case Sub => 1
    case Mul => 2
    case Div => 3
    case Imm => 4
    case SubImm => 5
    case Mov => 6
    case Label => 7
    case Jmp => 8
    case Unless => 9
    case Call(_, _, _) => 10
    case Return => 11
    case Load => 12
    case Store => 13
    case Kill => 14
    case SaveArgs => 15
    case Nop => 16
  }

  /** Every row of the table agrees with the reference mnemonic and shape. */
  lemma TableAgrees(i: nat)
    requires i < |IrInfoTable|
    ensures IrInfoTable[i].name == Mnemonic(IrInfoTable[i].op)
    ensures IrInfoTable[i].ty == Shape(IrInfoTable[i].op)
    ensures TableIndex(IrInfoTable[i].op) == i
  {
    if i < 9 {
      TableAgreesLow(i);
    } else {
      TableAgreesHigh(i);
    }
  }

  lemma TableAgreesLow(i: nat)
    requires i < 9
    ensures IrInfoTable[i].name == Mnemonic(IrInfoTable[i].op)
    ensures IrInfoTable[i].ty == Shape(IrInfoTable[i].op)
    ensures TableIndex(IrInfoTable[i].op) == i
  {
    if i == 0 {
      assert IrInfoTable[0] == IRInfo(Add, "ADD", TyRegReg);
    } else if i == 1 {
      assert IrInfoTable[1] == IRInfo(Sub, "SUB", TyRegReg);
    } else if i == 2 {
      assert IrInfoTable[2] == IRInfo(Mul, "MUL", TyRegReg);
    } else if i == 3 {
      assert IrInfoTable[3] == IRInfo(Div, "DIV", TyRegReg);
    } else if i == 4 {
      assert IrInfoTable[4] == IRInfo(Imm, "MOV", TyRegImm);
    } else if i == 5 {
      assert IrInfoTable[5] == IRInfo(SubImm, "SUB", TyRegImm);
    } else if i == 6 {
      assert IrInfoTable[6] == IRInfo(Mov, "MOV", TyRegReg);
    } else if i == 7 {
      assert IrInfoTable[7] == IRInfo(Label, "", TyLabel);
    } else {
      assert IrInfoTable[8] == IRInfo(Jmp, "", TyLabel);
    }
  }

  lemma TableAgreesHigh(i: nat)
    requires 9 <= i < |IrInfoTable|
    ensures IrInfoTable[i].name == Mnemonic(IrInfoTable[i].op)
    ensures IrInfoTable[i].ty == Shape(IrInfoTable[i].op)
    ensures TableIndex(IrInfoTable[i].op) == i
  {
    if i == 9 {
      assert IrInfoTable[9] == IRInfo(Unless, "UNLESS", TyRegLabel);
    } else if i == 10 {
      assert IrInfoTable[10] == IRInfo(Call("", 0, [0, 0, 0, 0, 0, 0]), "CALL", TyCall);
    } else if i == 11 {
      assert IrInfoTable[11] == IRInfo(Return, "RET", TyReg);
    } else if i == 12 {
      assert IrInfoTable[12] == IRInfo(Load, "LOAD", TyRegReg);
    } else if i == 13 {
      assert IrInfoTable[13] == IRInfo(Store, "STORE", TyRegReg);
    } else if i == 14 {
      assert IrInfoTable[14] == IRInfo(Kill, "KILL", TyReg);
    } else if i == 15 {
      assert IrInfoTable[15] == IRInfo(SaveArgs, "SAVE_ARGS", TyImm);
    } else {
      assert IrInfoTable[16] == IRInfo(Nop, "NOP", TyNoarg);
    }
  }

  /** Looks up the metadata of an instruction by scanning the table; a call
      answers on the first row with its own opcode. Every opcode is in the
      table, so the lookup never fails. */
  method GetIrInfo(ir: IR) returns (info: IRInfo)
    ensures info == IRInfo(ir.op, Mnemonic(ir.op), Shape(ir.op))
  {
    ghost var k := TableIndex(ir.op);
    var i := 0;
    while i < |IrInfoTable|
      invariant i <= k
      invariant ir.op.Call? ==> i == 0
      invariant forall j :: 0 <= j < i ==> IrInfoTable[j].op != ir.op
      decreases |IrInfoTable| - i
    {
      if ir.op.Call? {
        return IRInfo(ir.op, "CALL", TyCall);
      }
      if IrInfoTable[i].op == ir.op {
        TableAgrees(i);
        return IrInfoTable[i];
      }
      assert i != k by { assert SameFamily(IrInfoTable[k].op, ir.op); }
      i := i + 1;
    }
    assert false;
  }

  /** The pair (mnemonic, operand shape) identifies the opcode family, except
      that a jump and a label definition share both. */
  lemma InfoIdentifiesFamily(a: IROp, b: IROp)
    ensures (Mnemonic(a) == Mnemonic(b) && Shape(a) == Shape(b))
            <==> (SameFamily(a, b) || {a, b} == {Label, Jmp})
  {
  }

  /** The arithmetic opcode of a binary operator token; assignment has none. */
  function FromToken(t: Ast.TokenType): (r: Result<IROp>)
    ensures r.Ok? <==> t != Ast.Equal
    ensures r.Ok? ==> Shape(r.value) == TyRegReg && r.value in {Add, Sub, Mul, Div}
    ensures r.Err? ==> r.fault == CannotConvert
    ensures t == Ast.Plus ==> r.Ok? && Mnemonic(r.value) == "ADD"
    ensures t == Ast.Minus ==> r.Ok? && Mnemonic(r.value) == "SUB"
    ensures t == Ast.Mul ==> r.Ok? && Mnemonic(r.value) == "MUL"
    ensures t == Ast.Div ==> r.Ok? && Mnemonic(r.value) == "DIV"
  {
    match t
    case Plus => Ok(Add)
    case Minus => Ok(Sub)
    case Mul => Ok(Mul)
    case Div => Ok(Div)
    case Equal => Err(CannotConvert)
  }

  /** Distinct operator tokens convert to distinct opcodes. */
  lemma FromTokenInjective(t: Ast.TokenType, u: Ast.TokenType)
    requires FromToken(t).Ok? && FromToken(u).Ok?
    ensures FromToken(t) == FromToken(u) ==> t == u
  {
  }
}
