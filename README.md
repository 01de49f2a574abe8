# r9cc IR lowering, modelled and proved in Dafny

This project models the lowering pass of the r9cc C compiler (`src/ir.rs`).
The pass turns the parsed program into a list of `Function`s. Each holds
instructions over an unbounded supply of virtual registers, plus the size of
its stack frame. Register 0 is the frame base. The pass keeps four pieces of
global state, and each becomes explicit here:

- the variable-to-offset map `VARS`;
- the register counter `REGNO`, reset to 1 for each function;
- the stack-size accumulator `STACKSIZE`, reset to 0 for each function;
- the program-wide label counter `LABEL`, which is never reset.

The model has two layers:

- `Lower` (lower.dfy) gives the pass as pure functions. They thread a
  context `Ctx(vars, regno, stackSize, nextLabel)` and return the state
  afterwards with the instructions appended. `Lval`, `Expr`, `Args`, `Stmt`,
  `Stmts`, `Bind`, `Params`, `LowerFunc` and `Program` follow `gen_lval`,
  `gen_expr`, `gen_stmt`, `gen_args` and `gen_ir` case by case. A panic is an
  `Err` carrying a `Fault`.
- `Context.Lowering` (context.dfy) is the pass as the source runs it: an
  object whose fields are the global state and the instruction buffer. Its
  methods append to the buffer and bump the counters in place. The call case
  keeps the six-slot argument array as an `array`. Each method has a loop
  where the source does and is proved to end exactly as the matching
  function of `Lower` says. The call, assignment, arithmetic and if cases,
  which the source writes inline in `gen_expr` and `gen_stmt`, are
  separate methods here, as are the argument loop and the Kill loop of a
  call.

The properties are stated about the functions and checked against
independent reference definitions:

- `Liveness` is a register checker. Registers are allocated in order from
  the counter, only live registers are read or killed, and register 0
  appears only as the frame base of `Mov`.
- `Labels` is a branch checker. Each label is defined once, every `Jmp` and
  `Unless` targets a label defined later, and nothing is left unresolved.
- `Ir.Mnemonic` and `Ir.Shape` are per-opcode reference definitions for the
  metadata table.

Behaviour kept exactly as the source has it:

- **Local and parameter offsets.** An unseen name in an lvalue gets the
  frame size *before* its 8-byte increment. A parameter gets the size
  *after* its increment. So in a function with parameters, the first local
  gets offset 8n, which is also the slot of the last parameter
  (`ProgramProofs.FirstLocalSharesLastParamSlot`). The model keeps this.
  Without parameters every local has its own slot
  (`ProgramProofs.LocalsDistinct`).
- **Too many arguments.** The i-th argument of a call is lowered before it is
  stored into the six-slot array. A seventh argument is therefore lowered
  first, and only then does the call fail with `TooManyArgs`.
- **Assignment result.** An assignment returns the *address* register, not
  the value register.
- **Immediates.** A literal's immediate is `val as usize`, that is the value
  modulo 2^64 (`Lower.ToUsize`).
- **Label and Jmp metadata.** `Label` and `Jmp` share the metadata pair
  ("", Label). `Ir.InfoIdentifiesFamily` proves this is the only clash.

## Model

| member | source | states |
|---|---|---|
| Ir.TableIndex | src/ir.rs:17-35 | every opcode has a row in the 17-entry table whose opcode is its own (any call opcode maps to the call row) |
| Ir.TableAgrees | src/ir.rs:17-35 | each table row carries the reference mnemonic and operand shape of its opcode, and the row is the one `TableIndex` assigns to it |
| Ir.GetIrInfo | src/ir.rs:106-120 | the table scan returns the instruction's own opcode (a call keeps its callee and arguments) with the reference mnemonic and shape of that opcode; every opcode is found, so the "invalid instruction" panic is unreachable |
| Ir.InfoIdentifiesFamily | src/ir.rs:17-35 | two opcodes have the same mnemonic and shape exactly when they are the same (calls counting as one) or are Label and Jmp |
| Ir.FromToken | src/ir.rs:170-180 | a token converts exactly when it is not `=`; the result is one of ADD/SUB/MUL/DIV with register-register shape, and its table mnemonic is ADD for `+`, SUB for `-`, MUL for `*` and DIV for `/` (which, with the shape, fixes the opcode); `=` fails with "cannot convert" |
| Ir.FromTokenInjective | src/ir.rs:170-180 | distinct operator tokens give distinct opcodes |
| Ir.IrInfoTable | src/ir.rs:17-35 | definition, no contract: the 17 rows in source order; properties in `Ir.TableIndex`, `Ir.TableAgrees`, `Ir.InfoIdentifiesFamily` |
| Ir.Mnemonic | src/ir.rs:17-35 | definition, no contract: reference mnemonic per opcode, written per opcode rather than per row; tied to the table by `Ir.TableAgrees` and `Ir.GetIrInfo` |
| Ir.Shape | src/ir.rs:17-35 | definition, no contract: reference operand shape per opcode; tied to the table by `Ir.TableAgrees` and `Ir.GetIrInfo` |
| Lower.ToUsize | src/ir.rs:225 | definition, no contract: `val as usize` as the value modulo 2^64; used by `Lower.Expr` for literals |
| Lower.ArgArray | src/ir.rs:234-237 | definition, no contract: the six-slot `args_ir` array after the argument loop, the argument registers followed by zeros; properties in `ShapeProofs.CallShape`, `Context.Lowering.GenCallArgs`, `Context.ArgArraySnoc` |
| Lower.KillAll | src/ir.rs:244-246 | definition, no contract: the Kill loop of a call, one Kill per argument register in order; properties in `ShapeProofs.CallShape`, `RegisterProofs.KillAllRegs`, `Context.Lowering.EmitKills` |
| Lower.Fresh | src/ir.rs:339-343 | definition, no contract: the per-function reset (empty map, register 1, frame 0, label counter carried over); properties in `ProgramProofs.ParamsCtx`, `ProgramProofs.FuncSound`, `Context.Lowering.GenIr` |
| Lower.Lval | src/ir.rs:199-218 | definition, no contract: gen_lval; properties in `FrameProofs.LvalOffsets`, `FrameProofs.LvalRejects`, `FrameProofs.LvalStableOffset`, `FrameProofs.LvalFrame`, `RegisterProofs.LvalRegs` |
| Lower.Expr | src/ir.rs:220-270 | definition, no contract: gen_expr, dispatching to the cases below; properties in `FrameProofs.ExprFrame`, `RegisterProofs.ExprRegs`, `LabelProofs.ExprPlain` |
| Lower.ExprCall | src/ir.rs:233-248 | definition, no contract: the call case; properties in `ShapeProofs.CallShape`, `ShapeProofs.CallTooMany` |
| Lower.ExprAssign | src/ir.rs:251-257 | definition, no contract: the assignment case; properties in `ShapeProofs.AssignShape` |
| Lower.ExprArith | src/ir.rs:258-266 | definition, no contract: the arithmetic case; properties in `ShapeProofs.ArithShape` |
| Lower.Stmt | src/ir.rs:272-311 | definition, no contract: gen_stmt; properties in `FrameProofs.StmtFrame`, `RegisterProofs.StmtRegs`, `LabelProofs.StmtLabels` |
| Lower.StmtIf | src/ir.rs:274-293 | definition, no contract: the if case; properties in `ShapeProofs.IfShape` and the If cases of `RegisterProofs.StmtRegs` and `LabelProofs.StmtLabels` |
| Lower.Stmts | src/ir.rs:304-307 | definition, no contract: the block loop; properties in `FrameProofs.StmtsFrame`, `RegisterProofs.StmtsRegs`, `LabelProofs.StmtsLabels` |
| Lower.Bind | src/ir.rs:320-331 | definition, no contract: the parameter-binding loop; properties in `ParamProofs.BindFails`, `ParamProofs.BindLayout`, `ParamProofs.BindFrame` |
| Lower.Params | src/ir.rs:313-332 | definition, no contract: gen_args; properties in `ParamProofs.ParamsShape`, `ProgramProofs.ParamsCtx` |
| Lower.LowerFunc | src/ir.rs:338-349 | definition, no contract: one iteration of gen_ir; properties in `ProgramProofs.FuncSound` |
| Lower.Program | src/ir.rs:334-354 | definition, no contract: gen_ir; properties in `ProgramProofs.ProgramSound`, `ProgramProofs.ProgramLabels`, `ProgramProofs.ProgramRejects`, `ProgramProofs.ProgramPrefix` |
| Lower.Args | src/ir.rs:233-237 | an argument list that lowers has one register per argument and at most six arguments |
| FrameProofs.LvalOffsets | src/ir.rs:199-218 | an lvalue allocates the current register, emits `Mov r, 0; SubImm r, off` and returns r; an unseen name gets off = the frame size before the +8, a known name reuses its offset and the frame does not grow |
| FrameProofs.LvalRejects | src/ir.rs:199-218 | an lvalue fails exactly on a non-identifier, with "not an lvalue" |
| FrameProofs.LvalStableOffset | src/ir.rs:199-218 | taking the same name's address twice yields the same offset and leaves the frame and map unchanged the second time |
| FrameProofs.LvalFrame | src/ir.rs:202-208 | an lvalue only extends the frame: old offsets kept, a new name gets its own 8-aligned slot above the old frame, 8 bytes per new name |
| FrameProofs.ExprFrame | src/ir.rs:220-270 | expressions only extend the frame in that sense |
| FrameProofs.ArgsFrame | src/ir.rs:233-237 | call arguments only extend the frame |
| FrameProofs.StmtFrame | src/ir.rs:272-311 | statements only extend the frame |
| FrameProofs.StmtsFrame | src/ir.rs:304-307 | block statements only extend the frame |
| FrameProofs.GrowsTrans | src/ir.rs:202-208 | extending the frame twice is extending it once |
| FrameProofs.GrowsFrame | src/ir.rs:202-208 | extending a frame whose size and offsets are multiples of 8, with every offset within the size, keeps it so |
| RegisterProofs.LvalRegs | src/ir.rs:209-214 | an lvalue allocates exactly the current register and passes the register checker leaving that register live |
| RegisterProofs.ExprRegs | src/ir.rs:220-270 | an expression's result register is allocated from the counter during it; its code passes the register checker from any live set below the counter and leaves exactly that set plus its result live |
| RegisterProofs.ArgsRegs | src/ir.rs:233-237 | argument registers are increasing (lowered left to right), allocated during the arguments, and all stay live |
| RegisterProofs.StmtRegs | src/ir.rs:272-311 | a statement's code passes the register checker and leaves the live set as it found it (every temporary killed); the counter never decreases |
| RegisterProofs.StmtsRegs | src/ir.rs:304-307 | the same for a block |
| Liveness.AllocsInOrder | src/ir.rs:209-212 | the registers code allocates while passing the checker are exactly the consecutive counter values, so none is reused |
| Liveness.UsesAllocatedEarlier | src/ir.rs:209-212 | in register-sound code every register named is at least 1 and allocated by an earlier instruction (or is the instruction's own destination), every Kill names an earlier allocation, and every Mov reads register 0 |
| Liveness.NoUseAfterKill | src/ir.rs:245 | in register-sound code a killed register is never named again |
| LabelProofs.ExprPlain | src/ir.rs:220-270 | expressions emit no labels or jumps and leave the label counter alone |
| LabelProofs.ArgsPlain | src/ir.rs:233-237 | the same for call arguments |
| LabelProofs.StmtLabels | src/ir.rs:272-311 | a statement takes one label per if and two per if-else from the counter, defines exactly those labels (each once, none defined before) and resolves every jump it makes by a later label of its own |
| LabelProofs.StmtsLabels | src/ir.rs:304-307 | the same for a block, the labels of consecutive statements adjoining |
| Labels.DefinedAreLabelIds | src/ir.rs:274-293 | code passing the branch checker defines exactly its Label ids, none twice and none defined before |
| Labels.JumpsGoForward | src/ir.rs:274-293 | in branch-sound code every Jmp and Unless targets a Label emitted later in the same code |
| ShapeProofs.CallShape | src/ir.rs:233-248 | a call has at most six arguments, lowered first into increasing registers; the result register is allocated after them all; then one Call whose slots are the argument registers (zero beyond), one Kill per argument register in argument order, and the result register is never killed |
| ShapeProofs.CallTooMany | src/ir.rs:234-236 | a call with more than six arguments never lowers |
| ShapeProofs.AssignShape | src/ir.rs:251-257 | an assignment lowers the value before the address (its code first, its register lower), ends with `Store addr, val; Kill val` and returns the address register; it fails exactly on a non-identifier target, with "not an lvalue" |
| ShapeProofs.ArithShape | src/ir.rs:258-266 | arithmetic lowers left then right, ends with the opcode from the token on (left, right) and `Kill right`, and returns the left register, allocated before the right |
| ShapeProofs.IfShape | src/ir.rs:274-293 | an if takes label x = the counter on entry; without else the code is condition, `Unless r, x; Kill r`, then-branch, `Label x`; with else y is the first label after the then-branch's, and the code is `... then; Jmp y; Label x; else; Label y` |
| ParamProofs.BindFails | src/ir.rs:320-331 | parameter binding fails exactly when some parameter is not an identifier, with "bad parameter" |
| ParamProofs.BindLayout | src/ir.rs:320-331 | binding grows the frame by 8 per parameter; the last parameter of each name sits at the frame size after its own increment (8·i for the i-th from an empty frame); names not among the parameters keep their offsets; registers and labels are untouched |
| ParamProofs.BindFrame | src/ir.rs:320-331 | binding keeps frame sizes and offsets multiples of 8 within the frame |
| ParamProofs.ParamsShape | src/ir.rs:313-332 | zero parameters emit nothing and change nothing; otherwise exactly one `SaveArgs n` is emitted; failure is "bad parameter" |
| ProgramProofs.ParamsCtx | src/ir.rs:338-346 | after the parameters of a fresh function the register counter is 1, the label counter unchanged and the frame 8 bytes per parameter |
| ProgramProofs.FuncSound | src/ir.rs:338-348 | a lowered function has its definition's name; its code is register-sound, allocating 1, 2, 3, ... in order; it is branch-sound, defining exactly the labels it took from the counter, one per if and two per if-else; its frame is a multiple of 8 holding all parameters; with parameters it starts with the SaveArgs |
| ProgramProofs.ProgramSound | src/ir.rs:334-354 | one Function per node in input order, each lowered from a function definition of the same name, register-sound and branch-sound, with a frame size that is a multiple of 8 |
| ProgramProofs.ProgramLabels | src/ir.rs:336-348 | the label counter is never reset between functions, so every function's labels lie in the range the whole program consumed and no two functions share a label |
| ProgramProofs.ProgramRejects | src/ir.rs:350 | a top-level node that is not a function definition makes lowering fail |
| ProgramProofs.ProgramPrefix | src/ir.rs:334-354 | lowering more definitions leaves the Functions of the earlier ones unchanged |
| ProgramProofs.FirstLocalSharesLastParamSlot | src/ir.rs:202-206 | in a function with n parameters the first unseen local gets offset 8n, the offset of the last parameter |
| ProgramProofs.LocalsDistinct | src/ir.rs:202-206 | in a function without parameters distinct names get distinct offsets |
| Context.Lowering.constructor | src/ir.rs:11-16 | the initial state: no variables, register 1, frame 0, label 0, empty buffer |
| Context.Lowering.GenLval | src/ir.rs:199-218 | appends exactly `Lval`'s code, leaves `Lval`'s state and returns its register, or reports its fault |
| Context.Lowering.GenExpr | src/ir.rs:220-270 | appends exactly `Expr`'s code, leaves `Expr`'s state and returns its register, or reports its fault |
| Context.Lowering.GenCall | src/ir.rs:233-248 | the call case with the six-slot array: appends exactly `ExprCall`'s code and leaves its state, or reports its fault |
| Context.Lowering.EmitKills | src/ir.rs:244-246 | the Kill loop appends one Kill per filled argument slot, in slot order, and changes no counter |
| Context.Lowering.GenCallArgs | src/ir.rs:234-237 | the argument loop: matches `Args`, and the array ends as the argument registers followed by zeros |
| Context.Lowering.GenAssign | src/ir.rs:251-257 | the assignment case, as `ExprAssign` |
| Context.Lowering.GenArith | src/ir.rs:258-266 | the arithmetic case, as `ExprArith` |
| Context.Lowering.GenStmt | src/ir.rs:272-311 | appends exactly `Stmt`'s code and leaves `Stmt`'s state, or reports its fault; the block loop matches `Stmts` |
| Context.Lowering.GenIf | src/ir.rs:274-293 | the if case, as `StmtIf` |
| Context.Lowering.GenArgs | src/ir.rs:313-332 | the parameter loop, as `Params` |
| Context.Lowering.GenIr | src/ir.rs:334-354 | the per-function loop resets everything but the label counter and returns exactly `Program`'s functions, leaving the label counter where `Program` does, or reports its fault |

## Left out

- `dump_ir` (src/ir.rs:97-104): it only prints, which is I/O.
- The text produced by `impl fmt::Display for IR` (src/ir.rs:67-94) is not modelled. Only the operand shape it chooses is, through `Ir.Shape`. Because a Jmp shares the Label row, that rendering prints a jump like a label definition.
- `From<NodeType> for IROp` (src/ir.rs:161-168) is not modelled: the lowering never calls it.
- The `Mutex`/`lazy_static` mechanism: the global state is plain fields and context values, with no locking.
- `usize` overflow of the counters is not modelled: registers, labels and stack sizes are unbounded naturals. Only the literal cast `val as usize` is reduced modulo 2^64.
- Node, NodeType and TokenType come from the parser and tokenizer modules, which are not part of this model. `Ast` defines only the node kinds and tokens the lowering matches.
- Panics end the pass. In the model they become an `Err` result, and the state the source would leave behind (for instance the SaveArgs already pushed before a bad parameter) is not specified.
