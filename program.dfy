/** Whole-function and whole-program properties of the lowering (gen_ir). */
module ProgramProofs {
  import opened Outcome
  import Ast
  import opened Ir
  import opened Lower
  import opened Liveness
  import opened Labels
  import RegisterProofs
  import LabelProofs
  import FrameProofs
  import ParamProofs

  /** Parameters emit at most a SaveArgs, which neither checker objects to. */
  lemma ParamsNeutral(c: Ctx, ps: seq<Ast.Node>, s: RegState, t: LabelState)
    requires Params(c, ps).Ok?
    ensures Check(s, Params(c, ps).value.code) == Some(s)
    ensures LCheck(t, Params(c, ps).value.code) == Some(t)
  {
    if ps != [] {
      RegisterProofs.CheckOne(s, IR(SaveArgs, Some(|ps|), None));
      LabelProofs.LCheckOne(t, IR(SaveArgs, Some(|ps|), None));
    }
  }

  /** Where parameters leave the context: registers and labels untouched,
      a frame of 8 bytes per parameter, well formed. */
  lemma ParamsCtx(start: nat, ps: seq<Ast.Node>)
    requires Params(Fresh(start), ps).Ok?
    ensures var p := Params(Fresh(start), ps).value.ctx;
      p.regno == 1 && p.nextLabel == start && p.stackSize == 8 * |ps| && FrameProofs.FrameOk(p)
  {
    if ps != [] {
      ParamProofs.BindLayout(Fresh(start), ps);
      ParamProofs.BindFrame(Fresh(start), ps);
    }
  }

  /** One lowered function: its name is the definition's; its code is
      register-sound, allocating registers 1, 2, 3, ... in order, and
      branch-sound; it defines exactly the labels
      [start, end) that it took from the program-wide counter, one per
      if and two per if-else; its frame is a multiple of 8 holding at
      least the parameters; and with parameters its first instruction is
      the single SaveArgs. */
  lemma FuncSound(start: nat, n: Ast.Node)
    requires LowerFunc(start, n).Ok?
    ensures n.Func?
    ensures var r := LowerFunc(start, n).value;
      r.1.name == n.name &&
      RegistersSound(r.1.ir) &&
      Allocs(r.1.ir) == Iota(1, 1 + |Allocs(r.1.ir)|) &&
      LabelsSound(r.1.ir) &&
      r.0 == start + LabelProofs.LabelCount(n.body) &&
      LabelIds(r.1.ir) == Range(start, r.0) &&
      r.1.stackSize % 8 == 0 && r.1.stackSize >= 8 * |n.params| &&
      (n.params != [] ==> r.1.ir[0] == IR(SaveArgs, Some(|n.params|), None))
  {
    var p := Params(Fresh(start), n.params).value;
    var b := Stmt(p.ctx, n.body).value;
    var code := p.code + b.code;
    ParamsCtx(start, n.params);
    // registers
    ParamsNeutral(Fresh(start), n.params, RegState({}, 1), LabelState({}, {}));
    RegisterProofs.StmtRegs(p.ctx, n.body, {});
    RegisterProofs.CheckSeq(RegState({}, 1), p.code, b.code, RegState({}, 1));
    AllocsInOrder(RegState({}, 1), code);
    // labels
    LabelProofs.StmtLabels(p.ctx, n.body, LabelState({}, {}));
    LabelProofs.LCheckSeq(LabelState({}, {}), p.code, b.code, LabelState({}, {}));
    assert {} + Range(start, b.ctx.nextLabel) == Range(start, b.ctx.nextLabel);
    DefinedAreLabelIds(LabelState({}, {}), code);
    // frame
    FrameProofs.StmtFrame(p.ctx, n.body);
    FrameProofs.GrowsFrame(p.ctx, b.ctx);
    ParamProofs.ParamsShape(Fresh(start), n.params);
  }

  /** gen_ir: one Function per definition, in input order, each lowered
      from a function definition of the same name and sound. */
  lemma {:induction false} ProgramSound(start: nat, nodes: seq<Ast.Node>)
    requires Program(start, nodes).Ok?
    ensures var r := Program(start, nodes).value;
      |r.1| == |nodes| && start <= r.0 &&
      (forall i :: 0 <= i < |nodes| ==> nodes[i].Func? && r.1[i].name == nodes[i].name) &&
      (forall i :: 0 <= i < |nodes| ==>
         RegistersSound(r.1[i].ir) && LabelsSound(r.1[i].ir) && r.1[i].stackSize % 8 == 0)
    decreases nodes
  {
    if nodes != [] {
      var h := LowerFunc(start, nodes[0]).value;
      assert nodes[0].Func? && h.1.name == nodes[0].name &&
             RegistersSound(h.1.ir) && LabelsSound(h.1.ir) && h.1.stackSize % 8 == 0 &&
             start <= h.0 by {
        FuncSound(start, nodes[0]);
      }
      ProgramSound(h.0, nodes[1..]);
      var t := Program(h.0, nodes[1..]).value;
      var r := Program(start, nodes).value;
      assert r.1 == [h.1] + t.1;
      forall i | 0 <= i < |nodes|
        ensures nodes[i].Func? && r.1[i].name == nodes[i].name
        ensures RegistersSound(r.1[i].ir) && LabelsSound(r.1[i].ir) && r.1[i].stackSize % 8 == 0
      {
        if i > 0 { assert nodes[i] == nodes[1..][i - 1] && r.1[i] == t.1[i - 1]; }
      }
    }
  }

  /** Because the label counter is never reset between functions, each
      function's labels lie in the range the program consumed and no two
      functions share one. */
  lemma {:induction false} ProgramLabels(start: nat, nodes: seq<Ast.Node>)
    requires Program(start, nodes).Ok?
    ensures var r := Program(start, nodes).value;
      |r.1| == |nodes| && start <= r.0 &&
      (forall i :: 0 <= i < |r.1| ==> LabelIds(r.1[i].ir) <= Range(start, r.0)) &&
      (forall i, j :: 0 <= i < j < |r.1| ==> LabelIds(r.1[i].ir) !! LabelIds(r.1[j].ir))
    decreases nodes
  {
    if nodes != [] {
      var h := LowerFunc(start, nodes[0]).value;
      assert start <= h.0 && LabelIds(h.1.ir) == Range(start, h.0) by {
        FuncSound(start, nodes[0]);
      }
      ProgramLabels(h.0, nodes[1..]);
      var t := Program(h.0, nodes[1..]).value;
      var r := Program(start, nodes).value;
      assert r.1 == [h.1] + t.1;
      forall i | 0 <= i < |r.1| ensures LabelIds(r.1[i].ir) <= Range(start, r.0) {
        if i > 0 { assert r.1[i] == t.1[i - 1]; }
      }
      forall i, j | 0 <= i < j < |r.1| ensures LabelIds(r.1[i].ir) !! LabelIds(r.1[j].ir) {
        assert r.1[j] == t.1[j - 1];
        if i > 0 { assert r.1[i] == t.1[i - 1]; }
      }
    }
  }

  /** Any top-level node that is not a function definition makes the whole
      program fail. */
  lemma ProgramRejects(start: nat, nodes: seq<Ast.Node>, i: nat)
    requires i < |nodes| && !nodes[i].Func?
    ensures Program(start, nodes).Err?
  {
    if Program(start, nodes).Ok? {
      ProgramSound(start, nodes);
    }
  }

  /** Every instruction of an earlier function reappears unchanged when
      more definitions follow: lowering only appends. */
  lemma {:induction false} ProgramPrefix(start: nat, nodes: seq<Ast.Node>, more: seq<Ast.Node>)
    requires Program(start, nodes + more).Ok?
    ensures Program(start, nodes).Ok? && |nodes| <= |Program(start, nodes + more).value.1|
    ensures Program(start, nodes).value.1 == Program(start, nodes + more).value.1[..|nodes|]
    decreases nodes
  {
    ProgramSound(start, nodes + more);
    if nodes != [] {
      assert (nodes + more)[0] == nodes[0];
      assert (nodes + more)[1..] == nodes[1..] + more;
      var h := LowerFunc(start, nodes[0]).value;
      ProgramPrefix(h.0, nodes[1..], more);
      var tail := Program(h.0, nodes[1..] + more).value.1;
      assert ([h.1] + tail)[..|nodes|] == [h.1] + tail[..|nodes| - 1];
    }
  }

  /** The first local of a function with parameters is placed at the frame
      size the parameters left, 8n, which is also the offset of the last
      parameter: the two share a slot. */
  lemma FirstLocalSharesLastParamSlot(start: nat, ps: seq<Ast.Node>, name: string)
    requires ps != [] && (forall k :: 0 <= k < |ps| ==> ps[k].Ident?) && name !in ParamProofs.Names(ps)
    ensures Params(Fresh(start), ps).Ok?
    ensures var p := Params(Fresh(start), ps).value.ctx;
      var a := Lval(p, Ast.Ident(name)).value;
      a.code[1] == IR(SubImm, Some(a.reg), Some(8 * |ps|)) &&
      ps[|ps| - 1].name in p.vars && p.vars[ps[|ps| - 1].name] == 8 * |ps|
  {
    ParamProofs.ParamsShape(Fresh(start), ps);
    var p := Params(Fresh(start), ps).value.ctx;
    ParamProofs.BindLayout(Fresh(start), ps);
    assert ParamProofs.LastWithName(ps, |ps| - 1);
    FrameProofs.LvalOffsets(p, name);
    assert name !in p.vars;
  }

  /** Without parameters, distinct names get distinct slots in the frame
      left after the body. */
  lemma LocalsDistinct(start: nat, body: Ast.Node)
    requires Stmt(Fresh(start), body).Ok?
    ensures var d := Stmt(Fresh(start), body).value.ctx;
      forall x, y :: x in d.vars && y in d.vars && x != y ==> d.vars[x] != d.vars[y]
  {
    FrameProofs.StmtFrame(Fresh(start), body);
  }
}
