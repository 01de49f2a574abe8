/** Parameter binding (gen_args): the i-th parameter (counting from 1)
    gets the frame size after its own 8-byte increment, so parameters
    occupy offsets 8, 16, ..., 8n above a fresh frame. */
module ParamProofs {
  import opened Outcome
  import Ast
  import opened Ir
  import opened Lower
  import FrameProofs

  /** The names a parameter list binds. */
  function Names(ps: seq<Ast.Node>): set<string>
    decreases ps
  {
    if ps == [] then {} else
    (if ps[0].Ident? then {ps[0].name} else {}) + Names(ps[1..])
  }

  /** Parameter i is the last one with its name (later ones would win). */
  predicate LastWithName(ps: seq<Ast.Node>, i: nat)
    requires i < |ps| && forall k :: 0 <= k < |ps| ==> ps[k].Ident?
  {
    forall j :: i < j < |ps| ==> ps[j].name != ps[i].name
  }

  /** Binding fails exactly when some parameter is not an identifier, and
      then with "bad parameter". */
  lemma {:induction false} BindFails(c: Ctx, ps: seq<Ast.Node>)
    ensures Bind(c, ps).Err? <==> exists i :: 0 <= i < |ps| && !ps[i].Ident?
    ensures Bind(c, ps).Err? ==> Bind(c, ps).fault == BadParameter
    decreases ps
  {
    if ps != [] && ps[0].Ident? {
      var s := c.stackSize + 8;
      BindFails(c.(vars := c.vars[ps[0].name := s], stackSize := s), ps[1..]);
      if exists i :: 0 <= i < |ps| && !ps[i].Ident? {
        var i :| 0 <= i < |ps| && !ps[i].Ident?;
        assert ps[1..][i - 1] == ps[i];
      }
      if exists i :: 0 <= i < |ps[1..]| && !ps[1..][i].Ident? {
        var i :| 0 <= i < |ps[1..]| && !ps[1..][i].Ident?;
        assert ps[i + 1] == ps[1..][i];
      }
    }
  }

  /** The layout binding leaves: the frame grows by 8 per parameter, the
      last parameter of each name sits at the frame size after its own
      increment, other names are unchanged, and nothing else moves. */
  lemma {:induction false} BindLayout(c: Ctx, ps: seq<Ast.Node>)
    requires Bind(c, ps).Ok?
    ensures forall k :: 0 <= k < |ps| ==> ps[k].Ident?
    ensures var d := Bind(c, ps).value;
      d.stackSize == c.stackSize + 8 * |ps| &&
      d.regno == c.regno && d.nextLabel == c.nextLabel &&
      d.vars.Keys == c.vars.Keys + Names(ps) &&
      (forall x :: x in c.vars && x !in Names(ps) ==> d.vars[x] == c.vars[x]) &&
      (forall i :: 0 <= i < |ps| ==> ps[i].name in d.vars) &&
      (forall i :: 0 <= i < |ps| && LastWithName(ps, i) ==> d.vars[ps[i].name] == c.stackSize + 8 * (i + 1))
    decreases ps
  {
    if ps != [] {
      var name := ps[0].name;
      var s := c.stackSize + 8;
      var c1 := c.(vars := c.vars[name := s], stackSize := s);
      var rest := ps[1..];
      BindLayout(c1, rest);
      var d := Bind(c, ps).value;
      assert d == Bind(c1, rest).value;
      assert forall k :: 0 <= k < |ps| ==> ps[k].Ident? by { BindFails(c, ps); }
      assert Names(ps) == {name} + Names(rest);
      assert c1.vars.Keys == c.vars.Keys + {name};
      assert d.vars.Keys == c.vars.Keys + Names(ps);
      forall x | x in c.vars && x !in Names(ps) ensures d.vars[x] == c.vars[x] {
        assert x != name && x !in Names(rest);
      }
      forall i | 0 <= i < |ps| ensures ps[i].name in d.vars {
        InNames(ps, i);
      }
      forall i | 0 <= i < |ps| && LastWithName(ps, i)
        ensures d.vars[ps[i].name] == c.stackSize + 8 * (i + 1)
      {
        if i == 0 {
          assert name !in Names(rest) by { NotInNames(rest, name); }
        } else {
          assert rest[i - 1] == ps[i];
          assert LastWithName(rest, i - 1) by {
            forall j | i - 1 < j < |rest| ensures rest[j].name != rest[i - 1].name {
              assert rest[j] == ps[j + 1];
            }
          }
        }
      }
    }
  }

  lemma {:induction false} InNames(ps: seq<Ast.Node>, i: nat)
    requires i < |ps| && ps[i].Ident?
    ensures ps[i].name in Names(ps)
    decreases ps
  {
    if i > 0 {
      assert ps[1..][i - 1] == ps[i];
      InNames(ps[1..], i - 1);
    }
  }

  /** A name no later parameter carries is not among their names. */
  lemma {:induction false} NotInNames(ps: seq<Ast.Node>, name: string)
    requires forall k :: 0 <= k < |ps| ==> ps[k].Ident? && ps[k].name != name
    ensures name !in Names(ps)
    decreases ps
  {
    if ps != [] {
      NotInNames(ps[1..], name);
    }
  }

  /** Binding keeps the frame well formed. */
  lemma {:induction false} BindFrame(c: Ctx, ps: seq<Ast.Node>)
    requires Bind(c, ps).Ok? && FrameProofs.FrameOk(c)
    ensures FrameProofs.FrameOk(Bind(c, ps).value)
    decreases ps
  {
    if ps != [] {
      var s := c.stackSize + 8;
      var c1 := c.(vars := c.vars[ps[0].name := s], stackSize := s);
      FrameProofs.ModSum(c.stackSize, 8);
      BindFrame(c1, ps[1..]);
    }
  }

  /** gen_args: no parameters emit nothing and change nothing; otherwise
      exactly one SaveArgs carrying the count is emitted, and binding
      decides the rest. */
  lemma ParamsShape(c: Ctx, ps: seq<Ast.Node>)
    ensures ps == [] ==> Params(c, ps) == Ok(StmtOut(c, []))
    ensures ps != [] ==> (Params(c, ps).Ok? <==> forall k :: 0 <= k < |ps| ==> ps[k].Ident?)
    ensures ps != [] && Params(c, ps).Ok? ==>
      Params(c, ps).value.code == [IR(SaveArgs, Some(|ps|), None)] &&
      Params(c, ps).value.ctx == Bind(c, ps).value
    ensures Params(c, ps).Err? ==> Params(c, ps).fault == BadParameter
  {
    BindFails(c, ps);
  }
}
