/** The statement and declaration level of tppgencode.py as functions from
    the generator's state to the next state: declarations, function
    headers and parameters, bodies, assignments, the runtime calls of leia,
    escreva and retorna, and the block layout of repita and se. The class
    in generator.dfy runs the same steps imperatively and is proved to
    reach the states computed here. */
module CodeGen {
  import opened Cst
  import opened Ir
  import opened Lower

  // ---------------------------------------------------------------------
  // Expressions in statement position.

  /** self.expression(t): the lowered code is appended at the builder. */
  function Eval(g: Gen, t: Node): (r: (Gen, Value))
    ensures Extends(g, r.0) && r.0.cur == g.cur
    ensures r.0.locals == g.locals && r.0.globals == g.globals
    ensures !r.0.failed ==> |CurBlocks(r.0)| == |CurBlocks(g)|
  {
    if g.failed then (g, NoneV)
    else
      match Expression(g, t)
      case Failed => (Fail(g), NoneV)
      case Lowered(code, v) => (EmitAll(g, code), v)
  }

  /** The expression at child i of t; a missing child fails. */
  function EvalAt(g: Gen, t: Node, i: nat): (r: (Gen, Value))
    ensures Extends(g, r.0) && r.0.cur == g.cur
    ensures r.0.locals == g.locals && r.0.globals == g.globals
    ensures !r.0.failed ==> |CurBlocks(r.0)| == |CurBlocks(g)|
  {
    if i < |t.children| then Eval(g, t.children[i]) else (Fail(g), NoneV)
  }

  /** The chamada_funcao branch of body, which hands the whole body node to
      callFunction rather than the item. */
  function CallStatement(g: Gen, body: Node): (r: Gen)
    ensures Extends(g, r) && r.cur == g.cur
  {
    if g.failed then g
    else
      match CallFunction(g, body)
      case Failed => Fail(g)
      case Lowered(code, _) => EmitAll(g, code)
  }

  /** assignment: the target (through a gep on the first index when
      indexed), the value, then the store. */
  function Assignment(g: Gen, t: Node): (r: Gen)
    ensures Extends(g, r) && r.cur == g.cur
  {
    if g.failed then g
    else if |t.children| == 0 || |t.children[0].children| == 0 then Fail(g)
    else
      var v := t.children[0];
      var target := GetVar(g, Child(v, 0).name);
      var indexed := |v.children| > 1;
      var at := if indexed then EvalAt(g, v.children[1], 1) else (g, NoneV);
      var ptr := if indexed then GepV(target, at.1) else target;
      var g1 := if indexed then Emit1(at.0, Emit(ptr)) else g;
      var e := EvalAt(g1, t, 2);
      var r := Emit1(e.0, Store(e.1, ptr));
      assert Extends(g, r) by {
        ExtendsTrans(g, at.0, g1);
        ExtendsTrans(g, g1, e.0);
        ExtendsTrans(g, e.0, r);
      }
      r
  }

  // ---------------------------------------------------------------------
  // Variable declarations.

  /** The storage of one declared variable: a new global (its name taken
      in the module) or a stack slot at the builder. */
  function Place(g: Gen, name: string, ty: Ty, isGlobal: bool): (r: (Gen, Value))
    ensures Extends(g, r.0) && r.0.cur == g.cur
    ensures r.0.locals == g.locals && r.0.globals == g.globals
    ensures !r.0.failed && isGlobal ==>
              r.1 == GlobalV(name, ty) && name !in g.symbols && r.0.symbols == g.symbols + [name]
    ensures !r.0.failed && !isGlobal ==> r.1 == AllocaV(name, ty) && r.0.symbols == g.symbols
    ensures !r.0.failed && !isGlobal ==> g.cur < |CurBlocks(r.0)| && EndsWith(CurBlocks(r.0)[g.cur], Emit(r.1))
    ensures r.0.failed <== !g.failed && isGlobal && name in g.symbols
  {
    if g.failed then (g, NoneV)
    else if isGlobal then
      if name in g.symbols then (Fail(g), NoneV)
      else (g.(symbols := g.symbols + [name]), GlobalV(name, ty))
    else
      var a := AllocaV(name, ty);
      (Emit1(g, Emit(a)), a)
  }

  /** The type of an array: i32[1000] for one index and a ten-element
      array of those for two, whatever sizes and element type were
      declared. */
  function ArrayType(dims: nat): (r: Ty)
    ensures r.ArrTy? && (r.elem == IntTy || r.elem == ArrTy(IntTy, 1000))
    ensures r.elem == IntTy <==> dims <= 3
    ensures r.count == (if dims <= 3 then 1000 else 10)
  {
    if dims > 3 then ArrTy(ArrTy(IntTy, 1000), 10) else ArrTy(IntTy, 1000)
  }

  /** The type a declared variable gets: the declared type for a scalar,
      the array type for the pieces of its pruned index otherwise. */
  function DeclaredType(v: Node, ty: Ty): Ty
  {
    if |v.children| <= 1 then ty else ArrayType(|v.children[1].children|)
  }

  /** x is the storage variableDeclaration makes for the pruned variable v
      declared with type ty: a global or a stack slot named after v. */
  predicate Declares(v: Node, ty: Ty, isGlobal: bool, x: Value)
  {
    |v.children| > 0
    && x == (if isGlobal then GlobalV(v.children[0].name, DeclaredType(v, ty))
             else AllocaV(v.children[0].name, DeclaredType(v, ty)))
  }

  /** One variable of a declaration. The index expressions of an array are
      still evaluated (their code is emitted) but their values are unused. */
  function DeclareOne(g: Gen, v: Node, ty: Ty, isGlobal: bool): (r: (Gen, Value))
    ensures Extends(g, r.0) && r.0.cur == g.cur
    ensures r.0.locals == g.locals && r.0.globals == g.globals
    ensures !r.0.failed ==> Declares(v, ty, isGlobal, r.1)
    ensures !r.0.failed && !isGlobal ==> g.cur < |CurBlocks(r.0)| && EndsWith(CurBlocks(r.0)[g.cur], Emit(r.1))
    ensures !r.0.failed && isGlobal ==> r.0.symbols == g.symbols + [v.children[0].name]
                                        && v.children[0].name !in g.symbols
  {
    if g.failed then (g, NoneV)
    else if |v.children| == 0 then (Fail(g), NoneV)
    else
      var name := v.children[0].name;
      if |v.children| == 1 then Place(g, name, ty, isGlobal)
      else
        var index := v.children[1];
        var e1 := EvalAt(g, index, 1);
        var e2 := if |index.children| > 3 then EvalAt(e1.0, index, 4) else e1;
        var r := Place(e2.0, name, ArrayType(|index.children|), isGlobal);
        assert Extends(g, r.0) by {
          ExtendsTrans(g, e1.0, e2.0);
          ExtendsTrans(g, e2.0, r.0);
        }
        r
  }

  /** The loop of variableDeclaration, with the values made so far in acc. */
  function VarDecls(g: Gen, vars: seq<Node>, ty: Ty, isGlobal: bool, acc: seq<Value>): (r: (Gen, seq<Value>))
    ensures Extends(g, r.0) && r.0.cur == g.cur
    ensures r.0.locals == g.locals && r.0.globals == g.globals
    decreases |vars|
  {
    if vars == [] then (g, acc)
    else
      var d := DeclareOne(g, vars[0], ty, isGlobal);
      var r := VarDecls(d.0, vars[1..], ty, isGlobal, acc + [d.1]);
      assert Extends(g, r.0) by { ExtendsTrans(g, d.0, r.0); }
      r
  }

  /** The values of xs from index start on are the storage declared for
      the variables vs, one by one. */
  predicate DeclaresAll(vs: seq<Node>, ty: Ty, isGlobal: bool, xs: seq<Value>, start: nat)
  {
    start + |vs| <= |xs| && forall k :: 0 <= k < |vs| ==> Declares(vs[k], ty, isGlobal, xs[start + k])
  }

  /** The loop of variableDeclaration, when it succeeds, adds one value
      per variable after those in acc: the storage declared for it. */
  lemma {:induction false} VarDeclsDeclare(g: Gen, vars: seq<Node>, ty: Ty, isGlobal: bool, acc: seq<Value>)
    requires !VarDecls(g, vars, ty, isGlobal, acc).0.failed
    ensures var r := VarDecls(g, vars, ty, isGlobal, acc);
            |r.1| == |acc| + |vars| && r.1[..|acc|] == acc && DeclaresAll(vars, ty, isGlobal, r.1, |acc|)
    decreases |vars|
  {
    if vars != [] {
      var d := DeclareOne(g, vars[0], ty, isGlobal);
      var acc' := acc + [d.1];
      var r := VarDecls(d.0, vars[1..], ty, isGlobal, acc');
      assert r == VarDecls(g, vars, ty, isGlobal, acc);
      assert !d.0.failed;
      VarDeclsDeclare(d.0, vars[1..], ty, isGlobal, acc');
      DeclaresShift(vars, ty, isGlobal, acc, d.1, r.1);
    }
  }

  /** The step of VarDeclsDeclare: the value for the first variable, then
      those for the rest. */
  lemma DeclaresShift(vars: seq<Node>, ty: Ty, isGlobal: bool, acc: seq<Value>, x: Value, xs: seq<Value>)
    requires |vars| > 0 && Declares(vars[0], ty, isGlobal, x)
    requires |xs| == |acc + [x]| + |vars[1..]| && xs[..|acc + [x]|] == acc + [x]
    requires DeclaresAll(vars[1..], ty, isGlobal, xs, |acc + [x]|)
    ensures |xs| == |acc| + |vars| && xs[..|acc|] == acc
    ensures DeclaresAll(vars, ty, isGlobal, xs, |acc|)
  {
    assert xs[..|acc|] == xs[..|acc| + 1][..|acc|];
    assert xs[|acc|] == xs[..|acc| + 1][|acc|];
    forall k | 1 <= k < |vars| ensures Declares(vars[k], ty, isGlobal, xs[|acc| + k])
    {
      assert vars[k] == vars[1..][k - 1];
      assert Declares(vars[1..][k - 1], ty, isGlobal, xs[|acc + [x]| + (k - 1)]);
    }
  }

  /** An instruction in the builder's block stays there in any extension. */
  lemma InstKept(a: Gen, b: Gen, i: Inst)
    requires Extends(a, b) && !b.failed && a.cur < |CurBlocks(a)| && i in CurBlocks(a)[a.cur].insts
    ensures a.cur < |CurBlocks(b)| && i in CurBlocks(b)[a.cur].insts
  {
    var n := |CurBlocks(a)[a.cur].insts|;
    assert CurBlocks(b)[a.cur].insts[..n] == CurBlocks(a)[a.cur].insts;
  }

  /** A local declaration: every stack slot the loop makes is allocated in
      the block the builder sat on. */
  lemma {:induction false} VarDeclsAllocate(g: Gen, vars: seq<Node>, ty: Ty, acc: seq<Value>)
    requires vars != [] && !VarDecls(g, vars, ty, false, acc).0.failed
    ensures var r := VarDecls(g, vars, ty, false, acc);
            g.cur < |CurBlocks(r.0)| && |acc| <= |r.1|
            && forall k :: |acc| <= k < |r.1| ==> Emit(r.1[k]) in CurBlocks(r.0)[g.cur].insts
    decreases |vars|
  {
    var d := DeclareOne(g, vars[0], ty, false);
    var acc' := acc + [d.1];
    var r := VarDecls(d.0, vars[1..], ty, false, acc');
    assert r == VarDecls(g, vars, ty, false, acc);
    assert !d.0.failed;
    assert EndsWith(CurBlocks(d.0)[g.cur], Emit(d.1));
    assert Emit(d.1) in CurBlocks(d.0)[g.cur].insts;
    InstKept(d.0, r.0, Emit(d.1));
    VarDeclsDeclare(d.0, vars[1..], ty, false, acc');
    assert r.1[|acc|] == r.1[..|acc'|][|acc|] == d.1;
    if vars[1..] != [] {
      VarDeclsAllocate(d.0, vars[1..], ty, acc');
    }
    forall k | |acc| <= k < |r.1| ensures Emit(r.1[k]) in CurBlocks(r.0)[g.cur].insts
    {
      if k > |acc| {
        assert |acc'| <= k && d.0.cur == g.cur;
      }
    }
  }

  /** Appending the values after pre moves them to index |pre|. */
  lemma DeclaresAppend(vs: seq<Node>, ty: Ty, isGlobal: bool, pre: seq<Value>, xs: seq<Value>)
    requires DeclaresAll(vs, ty, isGlobal, xs, 0)
    ensures DeclaresAll(vs, ty, isGlobal, pre + xs, |pre|)
  {
    forall k | 0 <= k < |vs| ensures Declares(vs[k], ty, isGlobal, (pre + xs)[|pre| + k])
    {
      assert (pre + xs)[|pre| + k] == xs[0 + k];
    }
  }

  /** variableDeclaration: the new variables, in order. */
  function VariableDeclaration(g: Gen, t: Node, isGlobal: bool): (r: (Gen, seq<Value>))
    ensures Extends(g, r.0) && r.0.cur == g.cur
    ensures !r.0.failed ==>
              |t.children| >= 3 && |r.1| == |t.children[2].children|
              && DeclaresAll(t.children[2].children, GetType(t.children[0].name), isGlobal, r.1, 0)
  {
    if g.failed then (g, [])
    else if |t.children| < 3 then (Fail(g), [])
    else
      var r := VarDecls(g, t.children[2].children, GetType(t.children[0].name), isGlobal, []);
      if r.0.failed then r
      else
        VarDeclsDeclare(g, t.children[2].children, GetType(t.children[0].name), isGlobal, []);
        r
  }

  // ---------------------------------------------------------------------
  // leia, escreva, retorna.

  /** externalFunctions. escreva calls escrevaInteiro for an i32 value and
      escrevaFlutuante otherwise; leia calls leiaInteiro or leiaFlutuante
      by the variable's type and stores the result; retorna branches into a
      new block bloco_saida, moves there and returns the value. */
  function External(g: Gen, t: Node): (r: Gen)
    ensures Extends(g, r)
  {
    if g.failed then g
    else if t.name == "escreva" then Escreva(g, t)
    else if t.name == "leia" then Leia(g, t)
    else if t.name == "retorna" then Retorna(g, t)
    else g
  }

  /** escreva: the value, then the call of the writer for its type. */
  function Escreva(g: Gen, t: Node): (r: Gen)
    ensures Extends(g, r)
  {
    var e := EvalAt(g, t, 2);
    match TypeOf(e.1)
    case None => Fail(e.0)
    case Some(ty) =>
      var r := Emit1(e.0, Emit(CallV(if ty == IntTy then EscrevaInteiro else EscrevaFlutuante, [e.1])));
      assert Extends(g, r) by { ExtendsTrans(g, e.0, r); }
      r
  }

  /** leia: the call of the reader for the variable's type, then the store
      of its result into the variable. */
  function Leia(g: Gen, t: Node): (r: Gen)
    ensures Extends(g, r)
  {
    if g.failed || |t.children| < 3 || |t.children[2].children| == 0 then Fail(g)
    else
      var target := GetVar(g, t.children[2].children[0].name);
      if target == NoneV then Fail(g)
      else
        var pointee := match TypeOf(target) case Some(PtrTy(p)) => p case _ => VoidTy;
        var call := CallV(if pointee == IntTy then LeiaInteiro else LeiaFlutuante, []);
        var g1 := Emit1(g, Emit(call));
        var r := Emit1(g1, Store(call, target));
        assert Extends(g, r) by { ExtendsTrans(g, g1, r); }
        r
  }

  /** retorna: the value, a branch into a new block bloco_saida, which
      becomes the exit block and the builder's block, and the return. */
  function Retorna(g: Gen, t: Node): (r: Gen)
    ensures Extends(g, r)
  {
    var e := EvalAt(g, t, 2);
    var a := AppendBlock(e.0, "bloco_saida");
    var g1 := if a.0.failed then a.0 else a.0.(exit := Some(a.1));
    var g2 := Terminate(g1, Br(a.1));
    var r := Terminate(MoveTo(g2, a.1), Ret(e.1));
    assert Extends(e.0, g2) by {
      assert Extends(a.0, g1);
      ExtendsTrans(e.0, a.0, g1);
      ExtendsTrans(e.0, g1, g2);
    }
    assert Extends(g, r) by {
      ExtendsTrans(g, e.0, g2);
      MoveFresh(g, g2, a.1);
      ExtendsTrans(g, MoveTo(g2, a.1), r);
    }
    r
  }

  // ---------------------------------------------------------------------
  // Bodies, repita and se.

  /** Whether some direct child is a retorna (body's hasReturn). */
  function HasDirectReturn(items: seq<Node>): (r: bool)
    ensures r <==> exists k :: 0 <= k < |items| && items[k].name == "retorna"
  {
    if items == [] then false
    else
      var rest := HasDirectReturn(items[1..]);
      assert forall k :: 1 <= k < |items| ==> items[k] == items[1..][k - 1];
      items[0].name == "retorna" || rest
  }

  /** body: the items in order, and whether one of them is a retorna. */
  function Body(g: Gen, t: Node): (r: (Gen, bool))
    decreases t, 4, 0
  {
    (BodyFold(g, t, 0), HasDirectReturn(t.children))
  }

  /** The loop of body from item i on. */
  function BodyFold(g: Gen, t: Node, i: nat): Gen
    decreases t, 3, |t.children| - i
  {
    if i >= |t.children| then g
    else BodyFold(Item(g, t, t.children[i]), t, i + 1)
  }

  /** One item of a body. Items of other kinds (an expression standing
      alone, among them a call) produce nothing. */
  function Item(g: Gen, body: Node, item: Node): Gen
    decreases item, 2, 0
  {
    if g.failed then g
    else if item.name == "declaracao_variaveis" then
      var d := VariableDeclaration(g, item, false);
      if d.0.failed then d.0 else d.0.(locals := d.0.locals + d.1)
    else if item.name == "chamada_funcao" then CallStatement(g, body)
    else if item.name == "atribuicao" then Assignment(g, item)
    else if item.name == "escreva" || item.name == "leia" || item.name == "retorna" then External(g, item)
    else if item.name == "se" then If(g, item)
    else if item.name == "repita" then Repeat(g, item)
    else g
  }

  /** repeat: blocks loop, loop_val and loop_end are appended; the current
      block branches to loop, the body is generated there and branches to
      loop_val, which evaluates the condition and branches to loop_end when
      it holds and back to loop otherwise; the builder ends on loop_end. */
  function Repeat(g: Gen, t: Node): Gen
    decreases t, 1, 0
  {
    if g.failed then g
    else
      var o := RepeatOpen(g);
      var g6 := if |t.children| > 1 then Body(o.0, t.children[1]).0 else Fail(o.0);
      RepeatClose(g6, t, o.1)
  }

  /** The start of repeat: the three blocks from index n on, the branch
      into the first, and the builder moved there. */
  function RepeatOpen(g: Gen): (r: (Gen, nat))
    ensures r.1 == |CurBlocks(g)|
    ensures Extends(g, r.0)
  {
    if !HasBuilder(g) then (Fail(g), |CurBlocks(g)|)
    else
    var loop := AppendBlock(g, "loop");
    var val := AppendBlock(loop.0, "loop_val");
    var end := AppendBlock(val.0, "loop_end");
    var g4 := Terminate(end.0, Br(loop.1));
    var r := MoveTo(g4, loop.1);
    assert Extends(g, r) by {
      ExtendsTrans(g, loop.0, val.0);
      ExtendsTrans(g, val.0, end.0);
      ExtendsTrans(g, end.0, g4);
      MoveFresh(g, g4, loop.1);
    }
    (r, loop.1)
  }

  /** The end of repeat, with the loop's blocks at n, n + 1 and n + 2. */
  function RepeatClose(g: Gen, t: Node, n: nat): (r: Gen)
    ensures !r.failed ==> !g.failed && r.cur == n + 2 && HasBuilder(g) && n + 1 < |CurBlocks(g)|
  {
    var g7 := Terminate(g, Br(n + 1));
    var g8 := MoveTo(g7, n + 1);
    var e := EvalAt(g8, t, 3);
    var g10 := Terminate(e.0, CondBr(e.1, n + 2, n));
    MoveTo(g10, n + 2)
  }

  /** Appends a fresh ifend block and branches to it, unless the arm
      returned. */
  function CloseArm(g: Gen, returned: bool, prev: Option<nat>): (r: (Gen, Option<nat>))
    ensures Extends(g, r.0) && r.0.cur == g.cur
    ensures !r.0.failed ==> !g.failed
    ensures returned ==> r == (g, prev)
    ensures !returned ==> r.1 == Some(|CurBlocks(g)|) && (!r.0.failed ==> |CurBlocks(g)| < |CurBlocks(r.0)|)
  {
    if returned then (g, prev)
    else
      var a := AppendBlock(g, "ifend");
      var r := Terminate(a.0, Br(a.1));
      assert Extends(g, r) by { ExtendsTrans(g, a.0, r); }
      (r, Some(a.1))
  }

  /** ifExpression. Without senao: blocks iftrue and ifend; the condition
      branches to iftrue or ifend, the arm branches to ifend unless its
      body has a direct retorna, and the builder ends on ifend. With senao:
      blocks iftrue and iffalse; each arm without a direct retorna appends
      its own ifend and branches to it; the builder ends on the last ifend
      appended, or stays where the else arm left it when both return. */
  function If(g: Gen, t: Node): Gen
    decreases t, 1, 1
  {
    if g.failed then g
    else if |t.children| == 5 then OneArmed(g, t)
    else if |t.children| < 6 then Fail(g)
    else TwoArmed(g, t)
  }

  /** The start of ifExpression: blocks iftrue and `second` at indices n
      and n + 1, the condition, the conditional branch to them, and the
      builder moved to iftrue. */
  function IfOpen(g: Gen, cond: Node, second: string): (r: (Gen, nat))
    ensures r.1 == |CurBlocks(g)|
    ensures Extends(g, r.0)
  {
    if !HasBuilder(g) then (Fail(g), |CurBlocks(g)|)
    else
    var iftrue := AppendBlock(g, "iftrue");
    var ifend := AppendBlock(iftrue.0, second);
    var c := Eval(ifend.0, cond);
    var g4 := Terminate(c.0, CondBr(c.1, iftrue.1, ifend.1));
    var r := MoveTo(g4, iftrue.1);
    assert Extends(g, r) by {
      ExtendsTrans(g, iftrue.0, ifend.0);
      ExtendsTrans(g, ifend.0, c.0);
      ExtendsTrans(g, c.0, g4);
      MoveFresh(g, g4, iftrue.1);
    }
    (r, iftrue.1)
  }

  /** ifExpression without senao. */
  function OneArmed(g: Gen, t: Node): Gen
    requires |t.children| >= 5
    decreases t, 1, 0
  {
    var o := IfOpen(g, t.children[1], "ifend");
    var arm := Body(o.0, t.children[3]);
    var g6 := if arm.1 then arm.0 else Terminate(arm.0, Br(o.1 + 1));
    MoveTo(g6, o.1 + 1)
  }

  /** ifExpression with senao. */
  function TwoArmed(g: Gen, t: Node): Gen
    requires |t.children| >= 6
    decreases t, 1, 0
  {
    var o := IfOpen(g, t.children[1], "iffalse");
    var arm1 := Body(o.0, t.children[3]);
    var end1 := CloseArm(arm1.0, arm1.1, None);
    var arm2 := Body(MoveTo(end1.0, o.1 + 1), t.children[5]);
    var end2 := CloseArm(arm2.0, arm2.1, end1.1);
    if end2.1.Some? then MoveTo(end2.0, end2.1.value) else end2.0
  }

  // ---------------------------------------------------------------------
  // Functions and the module.

  /** The children that are not vazio, in order. */
  function NonVazio(cs: seq<Node>): (r: seq<Node>)
    ensures |r| <= |cs|
    ensures forall k :: 0 <= k < |r| ==> r[k].name != "vazio" && r[k] in cs
    ensures forall k :: 0 <= k < |cs| && cs[k].name != "vazio" ==> cs[k] in r
  {
    if cs == [] then []
    else (if cs[0].name == "vazio" then [] else [cs[0]]) + NonVazio(cs[1..])
  }

  /** A parameter that is not vazio but lacks its third piece. */
  predicate Malformed(n: Node)
  {
    n.name != "vazio" && |n.children| < 3
  }

  /** parameters: the names and types of the parameters that are not vazio,
      in source order; a parameter without a third piece fails. */
  function Params(cs: seq<Node>): (r: Option<(seq<string>, seq<Ty>)>)
    ensures r.Some? ==> |r.value.0| == |NonVazio(cs)| && |r.value.1| == |NonVazio(cs)|
  {
    if cs == [] then Some(([], []))
    else if cs[0].name == "vazio" then Params(cs[1..])
    else if |cs[0].children| < 3 then None
    else
      match Params(cs[1..])
      case None => None
      case Some(p) => Some(([cs[0].children[2].name] + p.0, [GetType(cs[0].children[0].name)] + p.1))
  }

  /** The k-th name and type come from the k-th parameter that is not
      vazio: its third piece and the type of its first. */
  lemma {:induction false} ParamsContents(cs: seq<Node>, k: nat)
    requires Params(cs).Some? && k < |NonVazio(cs)|
    ensures |NonVazio(cs)[k].children| >= 3
    ensures Params(cs).value.0[k] == NonVazio(cs)[k].children[2].name
    ensures Params(cs).value.1[k] == GetType(NonVazio(cs)[k].children[0].name)
  {
    if cs[0].name == "vazio" {
      assert NonVazio(cs) == NonVazio(cs[1..]);
      ParamsContents(cs[1..], k);
    } else {
      assert NonVazio(cs) == [cs[0]] + NonVazio(cs[1..]);
      if k > 0 {
        ParamsContents(cs[1..], k - 1);
      }
    }
  }

  /** parameters fails exactly when some parameter is malformed. */
  lemma {:induction false} ParamsFailIff(cs: seq<Node>)
    ensures Params(cs).None? <==> exists k :: 0 <= k < |cs| && Malformed(cs[k])
  {
    if cs != [] {
      ParamsFailIff(cs[1..]);
      assert forall k :: 1 <= k < |cs| ==> cs[k] == cs[1..][k - 1];
      if exists k :: 0 <= k < |cs[1..]| && Malformed(cs[1..][k]) {
        var k :| 0 <= k < |cs[1..]| && Malformed(cs[1..][k]);
        assert Malformed(cs[k + 1]);
      }
    }
  }

  /** The arguments of a new function. */
  function ArgValues(names: seq<string>, types: seq<Ty>): (r: seq<Value>)
    requires |names| == |types|
    ensures |r| == |names|
    ensures forall k :: 0 <= k < |r| ==> r[k] == ArgV(names[k], types[k])
  {
    if names == [] then [] else [ArgV(names[0], types[0])] + ArgValues(names[1..], types[1..])
  }

  /** The name a function is built under: principal becomes main. */
  function LinkName(name: string): (r: string)
    ensures r == "main" <==> name == "principal" || name == "main"
    ensures name != "principal" ==> r == name
  {
    if name == "principal" then "main" else name
  }

  /** functionDeclaration: the locals and arguments are reset; a typed
      function reads its name, parameters and body at children 1, 3 and 5,
      one without a type at 0, 2 and 4 and returns void; the function gets
      an entry block bloco_entrada, the builder moves there, and the body is
      generated. */
  function FunctionDeclaration(g: Gen, t: Node): Gen
  {
    if g.failed then g
    else
      var g0 := g.(locals := [], args := []);
      var typed := Child(t, 0).name == "inteiro" || Child(t, 0).name == "flutuante";
      if (typed && |t.children| < 6) || (!typed && |t.children| < 5) then Fail(g0)
      else
        var name := LinkName(if typed then t.children[1].name else t.children[0].name);
        var params := if typed then t.children[3] else t.children[2];
        var body := if typed then t.children[5] else t.children[4];
        var ret := if typed then GetType(t.children[0].name) else VoidTy;
        match Params(params.children)
        case None => Fail(g0)
        case Some(p) =>
          if name in g0.symbols then Fail(g0)
          else Body(Start(g0, name, ret, ArgValues(p.0, p.1)), body).0
  }

  /** The state right before a function's body: the function is declared
      with its arguments and one empty entry block, the builder on it. */
  function Start(g: Gen, name: string, ret: Ty, argv: seq<Value>): Gen
  {
    g.(symbols := g.symbols + [name], funcs := g.funcs + [Func(name, ret, argv, [Block("bloco_entrada", [])])],
       args := argv, cur := 0)
  }

  /** One top-level declaration; an initialisation generates nothing. */
  function DeclStep(g: Gen, d: Node): (r: Gen)
    ensures g.failed ==> r == g
    ensures d.name != "declaracao_funcao" && d.name != "declaracao_variaveis" ==> r == g
  {
    if d.name == "declaracao_funcao" then FunctionDeclaration(g, d)
    else if d.name == "declaracao_variaveis" then
      var v := VariableDeclaration(g, d, true);
      if v.0.failed then v.0 else v.0.(globals := v.0.globals + v.1)
    else g
  }

  /** The declaration loop from the given declarations on. */
  function Decls(g: Gen, ds: seq<Node>): (r: Gen)
    ensures g.failed ==> r == g
    ensures (forall k :: 0 <= k < |ds| ==> ds[k].name != "declaracao_funcao" && ds[k].name != "declaracao_variaveis")
            ==> r == g
    decreases |ds|
  {
    if ds == [] then g else Decls(DeclStep(g, ds[0]), ds[1..])
  }

  /** declaration: every child of the pruned lista_declaracoes in turn. */
  function Declaration(g: Gen, root: Node): (r: Gen)
    ensures |root.children| == 0 ==> r.failed
    ensures g.failed ==> r == g
  {
    if |root.children| == 0 then Fail(g) else Decls(g, root.children[0].children)
  }

  /** What saveCode writes: the globals and the functions, unless the
      generation stopped. */
  datatype Module = Module(globals: seq<Value>, funcs: seq<Func>)

  function Compile(root: Node): (r: Option<Module>)
    ensures |root.children| == 0 ==> r.None?
    ensures |root.children| > 0 && root.children[0].children == [] ==> r == Some(Module([], []))
  {
    var g := Declaration(Initial, root);
    if g.failed then None else Some(Module(g.globals, g.funcs))
  }

  /** The number of function declarations in ds. */
  function FunctionCount(ds: seq<Node>): nat
  {
    if ds == [] then 0 else (if ds[0].name == "declaracao_funcao" then 1 else 0) + FunctionCount(ds[1..])
  }

  /** The declaration loop, when it succeeds, declares one LLVM function
      per declaracao_funcao; a variable declaration adds none. */
  lemma {:induction false} DeclsFunctionCount(g: Gen, ds: seq<Node>)
    requires !Decls(g, ds).failed
    ensures |Decls(g, ds).funcs| == |g.funcs| + FunctionCount(ds)
    decreases |ds|
  {
    if ds != [] {
      var g1 := DeclStep(g, ds[0]);
      assert Decls(g, ds) == Decls(g1, ds[1..]);
      assert !g1.failed;
      DeclsFunctionCount(g1, ds[1..]);
      DeclStepFunctionCount(g, ds[0]);
    }
  }

  lemma DeclStepFunctionCount(g: Gen, d: Node)
    requires !DeclStep(g, d).failed
    ensures |DeclStep(g, d).funcs| == |g.funcs| + (if d.name == "declaracao_funcao" then 1 else 0)
  {
    if d.name == "declaracao_funcao" {
      FunctionDeclarationHeader(g, d);
    } else if d.name == "declaracao_variaveis" {
      var v := VariableDeclaration(g, d, true);
      assert DeclStep(g, d) == v.0.(globals := v.0.globals + v.1);
    }
  }

  /** The module holds exactly one function per declaracao_funcao of the
      program, when generation succeeds. */
  lemma CompileFunctionCount(root: Node)
    requires Compile(root).Some?
    ensures |root.children| > 0
    ensures |Compile(root).value.funcs| == FunctionCount(root.children[0].children)
  {
    DeclsFunctionCount(Initial, root.children[0].children);
  }

  // ---------------------------------------------------------------------
  // Generation only ever appends.

  /** A statement leaves the functions built before alone, keeps the
      current function's header, and only appends: instructions at the end
      of the block the builder was on, and new blocks. */
  lemma {:induction false} ItemExtends(g: Gen, body: Node, item: Node)
    ensures Extends(g, Item(g, body, item))
    decreases item, 2, 0
  {
    if !g.failed {
      if item.name == "declaracao_variaveis" {
        var d := VariableDeclaration(g, item, false);
        if !d.0.failed {
          LocalsExtends(g, d.0, d.0.locals + d.1);
        }
      } else if item.name == "se" {
        IfExtends(g, item);
      } else if item.name == "repita" {
        RepeatExtends(g, item);
      }
    }
  }

  /** A declaration inside a body, when it succeeds: one stack slot per
      variable, named after it and of its declared type (the array type
      for an indexed one), allocated in the builder's block and appended
      to the locals. */
  lemma LocalDeclaration(g: Gen, body: Node, item: Node)
    requires item.name == "declaracao_variaveis" && !Item(g, body, item).failed
    ensures var r := Item(g, body, item);
            |item.children| >= 3 && |r.locals| == |g.locals| + |item.children[2].children|
            && r.locals[..|g.locals|] == g.locals
            && DeclaresAll(item.children[2].children, GetType(item.children[0].name), false, r.locals, |g.locals|)
            && forall k :: |g.locals| <= k < |r.locals| ==>
                 g.cur < |CurBlocks(r)| && Emit(r.locals[k]) in CurBlocks(r)[g.cur].insts
  {
    var d := VariableDeclaration(g, item, false);
    var vars := item.children[2].children;
    var ty := GetType(item.children[0].name);
    var r := d.0.(locals := d.0.locals + d.1);
    assert Item(g, body, item) == r;
    DeclaresAppend(vars, ty, false, g.locals, d.1);
    assert r.locals[..|g.locals|] == g.locals;
    if vars != [] {
      VarDeclsAllocate(g, vars, ty, []);
      forall k | |g.locals| <= k < |r.locals|
        ensures g.cur < |CurBlocks(r)| && Emit(r.locals[k]) in CurBlocks(r)[g.cur].insts
      {
        assert r.locals[k] == d.1[k - |g.locals|];
      }
    }
  }

  /** A top-level variable declaration, when it succeeds: one global per
      variable, named after it and of its declared type, appended to the
      module's globals. */
  lemma GlobalDeclaration(g: Gen, d: Node)
    requires d.name == "declaracao_variaveis" && !DeclStep(g, d).failed
    ensures var r := DeclStep(g, d);
            |d.children| >= 3 && |r.globals| == |g.globals| + |d.children[2].children|
            && r.globals[..|g.globals|] == g.globals
            && DeclaresAll(d.children[2].children, GetType(d.children[0].name), true, r.globals, |g.globals|)
  {
    var v := VariableDeclaration(g, d, true);
    var vars := d.children[2].children;
    var ty := GetType(d.children[0].name);
    DeclaresAppend(vars, ty, true, g.globals, v.1);
    assert (g.globals + v.1)[..|g.globals|] == g.globals;
  }

  /** assignment, when it succeeds: the variable was found among the
      globals and locals, and the builder's block ends with a store of a
      value into it, or into a gep on it for an indexed target; the value
      of an unindexed assignment is that of the expression. */
  lemma AssignmentStores(g: Gen, t: Node)
    requires !Assignment(g, t).failed
    ensures |t.children| > 2 && |t.children[0].children| > 0
    ensures var r := Assignment(g, t);
            var target := GetVar(g, Child(t.children[0], 0).name);
            target != NoneV && g.cur < |CurBlocks(r)| && |CurBlocks(r)[g.cur].insts| > 0
            && var last := CurBlocks(r)[g.cur].insts[|CurBlocks(r)[g.cur].insts| - 1];
               last.Store? && last.val != NoneV
               && (if |t.children[0].children| > 1 then last.ptr.GepV? && last.ptr.ptr == target
                   else last.ptr == target && last.val == Eval(g, t.children[2]).1)
  {
    var v := t.children[0];
    var target := GetVar(g, Child(v, 0).name);
    var indexed := |v.children| > 1;
    var at := if indexed then EvalAt(g, v.children[1], 1) else (g, NoneV);
    var ptr := if indexed then GepV(target, at.1) else target;
    var g1 := if indexed then Emit1(at.0, Emit(ptr)) else g;
    var e := EvalAt(g1, t, 2);
    var r := Emit1(e.0, Store(e.1, ptr));
    assert r == Assignment(g, t);
    assert !e.0.failed && !HasNone(Store(e.1, ptr));
    if indexed {
      assert !g1.failed;
      assert !HasNone(Emit(ptr));
    }
    assert e.0.cur == g.cur;
    assert CurBlocks(r)[g.cur].insts == CurBlocks(e.0)[g.cur].insts + [Store(e.1, ptr)];
  }

  lemma LocalsExtends(g: Gen, g': Gen, vs: seq<Value>)
    requires Extends(g, g')
    ensures Extends(g, g'.(locals := vs))
  {
  }

  lemma {:induction false} BodyFoldExtends(g: Gen, t: Node, i: nat)
    ensures Extends(g, BodyFold(g, t, i))
    decreases t, 3, |t.children| - i
  {
    if i < |t.children| {
      var g1 := Item(g, t, t.children[i]);
      ItemExtends(g, t, t.children[i]);
      BodyFoldExtends(g1, t, i + 1);
      ExtendsTrans(g, g1, BodyFold(g1, t, i + 1));
    }
  }

  lemma {:induction false} BodyExtends(g: Gen, t: Node)
    ensures Extends(g, Body(g, t).0)
    decreases t, 4, 0
  {
    BodyFoldExtends(g, t, 0);
  }

  lemma {:induction false} RepeatExtends(g: Gen, t: Node)
    ensures Extends(g, Repeat(g, t))
    decreases t, 1, 0
  {
    if !g.failed {
      var o := RepeatOpen(g);
      var g6 := if |t.children| > 1 then Body(o.0, t.children[1]).0 else Fail(o.0);
      if |t.children| > 1 {
        BodyExtends(o.0, t.children[1]);
      }
      if !o.0.failed {
        RepeatOpened(g);
      }
      LoopExtends(g, o.0, g6, t, o.1);
    }
  }

  /** The loop's body and its end keep the extension, from the state o
      after RepeatOpen and g6 after the body. */
  lemma LoopExtends(g: Gen, o: Gen, g6: Gen, t: Node, n: nat)
    requires Extends(g, o) && Extends(o, g6) && (o.failed || LoopOpened(g, o)) && n == |CurBlocks(g)|
    ensures Extends(g, RepeatClose(g6, t, n))
  {
    ExtendsTrans(g, o, g6);
    if !g6.failed {
      ExtendsLen(o, g6);
    }
    CloseExtends(g, g6, t, n);
  }

  /** The end of repeat keeps the extension when its blocks are new. */
  lemma CloseExtends(g0: Gen, g: Gen, t: Node, n: nat)
    requires Extends(g0, g)
    requires g.failed || (|CurBlocks(g0)| <= n && n + 2 < |CurBlocks(g)|)
    ensures Extends(g0, RepeatClose(g, t, n))
  {
    var g7 := Terminate(g, Br(n + 1));
    var g8 := MoveTo(g7, n + 1);
    var e := EvalAt(g8, t, 3);
    var g10 := Terminate(e.0, CondBr(e.1, n + 2, n));
    ExtendsTrans(g0, g, g7);
    MoveFresh(g0, g7, n + 1);
    ExtendsTrans(g0, g8, e.0);
    ExtendsTrans(g0, e.0, g10);
    MoveFresh(g0, g10, n + 2);
  }

  lemma {:induction false} IfExtends(g: Gen, t: Node)
    ensures Extends(g, If(g, t))
    decreases t, 1, 1
  {
    if !g.failed && |t.children| == 5 {
      OneArmedExtends(g, t);
    } else if !g.failed && |t.children| >= 6 {
      TwoArmedExtends(g, t);
    }
  }

  lemma {:induction false} OneArmedExtends(g: Gen, t: Node)
    requires |t.children| >= 5
    ensures Extends(g, OneArmed(g, t))
    decreases t, 1, 0
  {
    var o := IfOpen(g, t.children[1], "ifend");
    BodyExtends(o.0, t.children[3]);
    if !o.0.failed {
      IfOpened(g, t.children[1], "ifend");
    }
    ArmEndExtends(g, o.0, Body(o.0, t.children[3]).0, Body(o.0, t.children[3]).1);
  }

  /** The end of a se without senao keeps the extension, from the state o
      after IfOpen and h after the arm. */
  lemma ArmEndExtends(g: Gen, o: Gen, h: Gen, returned: bool)
    requires Extends(g, o) && Extends(o, h) && (o.failed || |CurBlocks(o)| == |CurBlocks(g)| + 2)
    ensures Extends(g, MoveTo(if returned then h else Terminate(h, Br(|CurBlocks(g)| + 1)), |CurBlocks(g)| + 1))
  {
    ExtendsTrans(g, o, h);
    if !h.failed {
      ExtendsLen(o, h);
    }
    FinishArm(g, h, returned, |CurBlocks(g)| + 1);
  }

  /** Closing an arm on a block k appended since g keeps the extension. */
  lemma FinishArm(g: Gen, h: Gen, returned: bool, k: nat)
    requires Extends(g, h)
    requires h.failed || |CurBlocks(g)| <= k < |CurBlocks(h)|
    ensures Extends(g, MoveTo(if returned then h else Terminate(h, Br(k)), k))
  {
    var h' := if returned then h else Terminate(h, Br(k));
    ExtendsTrans(g, h, h');
    MoveFresh(g, h', k);
  }

  lemma ExtendsLen(a: Gen, b: Gen)
    requires Extends(a, b) && !b.failed
    ensures !a.failed && |CurBlocks(a)| <= |CurBlocks(b)|
  {
  }

  lemma {:induction false} TwoArmedExtends(g: Gen, t: Node)
    requires |t.children| >= 6
    ensures Extends(g, TwoArmed(g, t))
    decreases t, 1, 0
  {
    var o := IfOpen(g, t.children[1], "iffalse");
    if !o.0.failed {
      IfOpened(g, t.children[1], "iffalse");
    }
    TwoArmedIs(g, t);
    ArmsExtends(g, o.0, o.1, t, TwoArmed(g, t));
  }

  /** The two arms of a se with senao keep the extension, from the state o
      after IfOpen. */
  lemma {:induction false} ArmsExtends(g: Gen, o: Gen, n: nat, t: Node, r: Gen)
    requires |t.children| >= 6 && n == |CurBlocks(g)|
    requires Extends(g, o) && (o.failed || |CurBlocks(o)| == n + 2)
    requires var arm1 := Body(o, t.children[3]);
             var end1 := CloseArm(arm1.0, arm1.1, None);
             var arm2 := Body(MoveTo(end1.0, n + 1), t.children[5]);
             var end2 := CloseArm(arm2.0, arm2.1, end1.1);
             r == (if end2.1.Some? then MoveTo(end2.0, end2.1.value) else end2.0)
    ensures Extends(g, r)
    decreases t, 0, 0
  {
    var arm1 := Body(o, t.children[3]);
    var end1 := CloseArm(arm1.0, arm1.1, None);
    BodyExtends(o, t.children[3]);
    ThenArmExtends(g, o, arm1.0, arm1.1);
    ElseArmExtends(g, MoveTo(end1.0, n + 1), t.children[5], end1.1, r);
  }

  /** The then arm closed and the move to iffalse keep the extension, from
      the state o after IfOpen and h after the arm. */
  lemma ThenArmExtends(g: Gen, o: Gen, h: Gen, returned: bool)
    requires Extends(g, o) && Extends(o, h) && (o.failed || |CurBlocks(o)| == |CurBlocks(g)| + 2)
    ensures var end1 := CloseArm(h, returned, None);
            var m := MoveTo(end1.0, |CurBlocks(g)| + 1);
            Extends(g, m) && (m.failed || end1.1.None? || |CurBlocks(g)| <= end1.1.value < |CurBlocks(m)|)
  {
    var end1 := CloseArm(h, returned, None);
    ExtendsTrans(g, o, h);
    ArmClosed(g, h, returned, None);
    if !end1.0.failed {
      ExtendsLen(o, h);
      ExtendsLen(h, end1.0);
    }
    MoveFresh(g, end1.0, |CurBlocks(g)| + 1);
  }

  /** The else arm, its closing and the final move keep the extension,
      from the state m on iffalse. */
  lemma {:induction false} ElseArmExtends(g: Gen, m: Gen, arm: Node, prev: Option<nat>, r: Gen)
    requires Extends(g, m)
    requires m.failed || prev.None? || |CurBlocks(g)| <= prev.value < |CurBlocks(m)|
    requires var end2 := CloseArm(Body(m, arm).0, Body(m, arm).1, prev);
             r == (if end2.1.Some? then MoveTo(end2.0, end2.1.value) else end2.0)
    ensures Extends(g, r)
    decreases arm, 5
  {
    var h := Body(m, arm).0;
    var end2 := CloseArm(h, Body(m, arm).1, prev);
    BodyExtends(m, arm);
    ExtendsTrans(g, m, h);
    if !h.failed {
      ExtendsLen(m, h);
    }
    ArmClosed(g, h, Body(m, arm).1, prev);
    if end2.1.Some? {
      MoveFresh(g, end2.0, end2.1.value);
    }
  }

  /** Closing an arm keeps the extension, and the ifend it names (if any)
      is a block appended since g. */
  lemma ArmClosed(g: Gen, h: Gen, returned: bool, prev: Option<nat>)
    requires Extends(g, h)
    requires h.failed || prev.None? || |CurBlocks(g)| <= prev.value < |CurBlocks(h)|
    ensures var r := CloseArm(h, returned, prev);
            Extends(g, r.0)
            && (r.0.failed || r.1.None? || |CurBlocks(g)| <= r.1.value < |CurBlocks(r.0)|)
  {
    var r := CloseArm(h, returned, prev);
    ExtendsTrans(g, h, r.0);
    if !r.0.failed {
      ExtendsLen(h, r.0);
    }
  }

  // ---------------------------------------------------------------------
  // Block layout.

  /** The end of repeat: the block the body ended on branches to loop_val
      (n + 1), which gets the condition's code and the conditional branch
      to loop_end (n + 2) or back to loop (n); the builder ends on n + 2. */
  lemma CloseLayout(g: Gen, t: Node, n: nat)
    requires !RepeatClose(g, t, n).failed && g.cur != n + 1
    ensures var r := RepeatClose(g, t, n);
            |CurBlocks(r)| == |CurBlocks(g)| && r.cur == n + 2
            && (forall j :: 0 <= j < |CurBlocks(g)| && j != g.cur && j != n + 1 ==> CurBlocks(r)[j] == CurBlocks(g)[j])
            && EndsWith(CurBlocks(r)[g.cur], Br(n + 1)) && CurBlocks(r)[g.cur].name == CurBlocks(g)[g.cur].name
            && CurBlocks(r)[n + 1].name == CurBlocks(g)[n + 1].name
            && EndsWithCondBr(CurBlocks(r)[n + 1], n + 2, n)
  {
    var g7 := Terminate(g, Br(n + 1));
    var g8 := MoveTo(g7, n + 1);
    var e := EvalAt(g8, t, 3);
    var g10 := Terminate(e.0, CondBr(e.1, n + 2, n));
    assert EndsWith(CurBlocks(g7)[g.cur], Br(n + 1));
    assert CurBlocks(e.0)[g.cur] == CurBlocks(g7)[g.cur];
  }

  /** repeat: with n the number of blocks before it, blocks n, n + 1 and
      n + 2 are loop, loop_val and loop_end; the block the builder was on
      ends by branching to loop; loop_val ends in a conditional branch to
      loop_end or back to loop; a block of the loop (where the body ended)
      branches to loop_val; loop_end is still empty and the builder is on
      it. */
  lemma RepeatLayout(g: Gen, t: Node)
    requires !Repeat(g, t).failed
    ensures var n := |CurBlocks(g)|;
            var r := Repeat(g, t);
            HasBuilder(g) && n + 2 < |CurBlocks(r)| && r.cur == n + 2
            && CurBlocks(r)[g.cur].insts == CurBlocks(g)[g.cur].insts + [Br(n)]
            && CurBlocks(r)[n].name == "loop" && CurBlocks(r)[n + 1].name == "loop_val"
            && EndsWithCondBr(CurBlocks(r)[n + 1], n + 2, n)
            && CurBlocks(r)[n + 2] == Block("loop_end", [])
            && exists j :: n <= j < |CurBlocks(r)| && j != n + 1 && j != n + 2 && EndsWith(CurBlocks(r)[j], Br(n + 1))
  {
    var n := |CurBlocks(g)|;
    var o := RepeatOpen(g);
    RepeatBody(g, t);
    var g6 := Body(o.0, t.children[1]).0;
    RepeatOpened(g);
    BodyExtends(o.0, t.children[1]);
    LoopBody(g, o.0, g6);
    CloseLayout(g6, t, n);
    var r := RepeatClose(g6, t, n);
    assert g.cur < n && g.cur != g6.cur;
    assert CurBlocks(r)[g.cur] == CurBlocks(o.0)[g.cur];
    assert CurBlocks(r)[n + 2] == CurBlocks(o.0)[n + 2];
    assert CurBlocks(r)[n].name == "loop";
    assert EndsWith(CurBlocks(r)[g6.cur], Br(n + 1));
  }

  /** The state o after RepeatOpen, with n the number of blocks before it:
      blocks n, n + 1 and n + 2 are the empty loop, loop_val and loop_end,
      the block the builder was on ends by branching to n, and the builder
      is on n. */
  predicate LoopOpened(g: Gen, o: Gen)
  {
    var n := |CurBlocks(g)|;
    HasBuilder(g) && !o.failed && o.cur == n && |CurBlocks(o)| == n + 3
    && CurBlocks(o)[n] == Block("loop", [])
    && CurBlocks(o)[n + 1] == Block("loop_val", [])
    && CurBlocks(o)[n + 2] == Block("loop_end", [])
    && CurBlocks(o)[g.cur].insts == CurBlocks(g)[g.cur].insts + [Br(n)]
  }

  lemma RepeatOpened(g: Gen)
    requires !RepeatOpen(g).0.failed
    ensures LoopOpened(g, RepeatOpen(g).0)
  {
    var n := |CurBlocks(g)|;
    var loop := AppendBlock(g, "loop");
    var val := AppendBlock(loop.0, "loop_val");
    var end := AppendBlock(val.0, "loop_end");
    var g4 := Terminate(end.0, Br(loop.1));
    assert RepeatOpen(g).0 == g4.(cur := n);
    var bs := CurBlocks(end.0);
    assert bs == CurBlocks(g) + [Block("loop", [])] + [Block("loop_val", [])] + [Block("loop_end", [])];
  }

  /** A repeat that succeeds went through its steps unfailed. */
  lemma RepeatBody(g: Gen, t: Node)
    requires !Repeat(g, t).failed
    ensures |t.children| > 1
    ensures var o := RepeatOpen(g);
            var g6 := Body(o.0, t.children[1]).0;
            !o.0.failed && !g6.failed && Repeat(g, t) == RepeatClose(g6, t, |CurBlocks(g)|)
  {
    var o := RepeatOpen(g);
    if |t.children| > 1 {
      BodyExtends(o.0, t.children[1]);
    }
  }

  /** After the body of a loop the loop's blocks are still there: loop_val
      and loop_end untouched, and the builder on loop or on a later block. */
  lemma LoopBody(g: Gen, o: Gen, h: Gen)
    requires LoopOpened(g, o) && Extends(o, h) && !h.failed
    ensures var n := |CurBlocks(g)|;
            n + 3 <= |CurBlocks(h)| && (h.cur == n || n + 3 <= h.cur)
            && CurBlocks(h)[g.cur] == CurBlocks(o)[g.cur]
            && CurBlocks(h)[n].name == "loop"
            && CurBlocks(h)[n + 1] == Block("loop_val", [])
            && CurBlocks(h)[n + 2] == Block("loop_end", [])
  {
  }

  /** retorna: with n the number of blocks before it, the block the
      builder was on ends by branching to n, block n is bloco_saida holding
      only the return of the expression's value, and the builder and the
      exit block are n. */
  lemma ReturnLayout(g: Gen, t: Node)
    requires t.name == "retorna" && !External(g, t).failed
    ensures var n := |CurBlocks(g)|;
            var r := External(g, t);
            HasBuilder(g) && |CurBlocks(r)| == n + 1 && r.cur == n && r.exit == Some(n)
            && EndsWith(CurBlocks(r)[g.cur], Br(n))
            && CurBlocks(r)[n] == Block("bloco_saida", [Ret(EvalAt(g, t, 2).1)])
            && Terminated(CurBlocks(r)[r.cur])
  {
    var e := EvalAt(g, t, 2);
    var a := AppendBlock(e.0, "bloco_saida");
    var g1 := if a.0.failed then a.0 else a.0.(exit := Some(a.1));
    var g2 := Terminate(g1, Br(a.1));
    assert External(g, t) == Terminate(MoveTo(g2, a.1), Ret(e.1));
    ExitOpened(e.0, g2);
    ExitReturns(g2, a.1, e.1, External(g, t));
  }

  /** The exit block appended and branched to: with n the number of blocks
      of h, block n is bloco_saida, recorded as the exit, and the block the
      builder is on ends by branching to it; bloco_saida is still empty
      unless the builder is on it. */
  lemma ExitOpened(h: Gen, g2: Gen)
    requires var a := AppendBlock(h, "bloco_saida");
             g2 == Terminate(if a.0.failed then a.0 else a.0.(exit := Some(a.1)), Br(a.1))
    requires !g2.failed
    ensures var n := |CurBlocks(h)|;
            h.funcs != [] && h.cur <= n && |CurBlocks(g2)| == n + 1 && g2.cur == h.cur && g2.exit == Some(n)
            && EndsWith(CurBlocks(g2)[h.cur], Br(n)) && CurBlocks(g2)[n].name == "bloco_saida"
            && (h.cur < n ==> CurBlocks(g2)[n].insts == [])
  {
    var a := AppendBlock(h, "bloco_saida");
    assert CurBlocks(a.0) == CurBlocks(h) + [Block("bloco_saida", [])];
  }

  /** The return placed at the end of block n, which was not terminated. */
  lemma ExitReturns(g2: Gen, n: nat, v: Value, r: Gen)
    requires r == Terminate(MoveTo(g2, n), Ret(v)) && !r.failed && |CurBlocks(g2)| == n + 1
    ensures !Terminated(CurBlocks(g2)[n])
    ensures |CurBlocks(r)| == n + 1 && r.cur == n && r.exit == g2.exit
    ensures CurBlocks(r)[n] == CurBlocks(g2)[n].(insts := CurBlocks(g2)[n].insts + [Ret(v)])
    ensures Terminated(CurBlocks(r)[n])
    ensures forall i :: 0 <= i < n ==> CurBlocks(r)[i] == CurBlocks(g2)[i]
  {
    var b := CurBlocks(r)[n];
    assert b.insts[|b.insts| - 1] == Ret(v);
  }

  /** The state after IfOpen with n the number of blocks before it. */
  predicate Opened(g: Gen, o: Gen, second: string)
  {
    var n := |CurBlocks(g)|;
    HasBuilder(g) && !o.failed && o.cur == n && |CurBlocks(o)| == n + 2
    && CurBlocks(o)[n] == Block("iftrue", []) && CurBlocks(o)[n + 1] == Block(second, [])
    && EndsWithCondBr(CurBlocks(o)[g.cur], n, n + 1)
  }

  lemma IfOpened(g: Gen, cond: Node, second: string)
    requires !IfOpen(g, cond, second).0.failed
    ensures Opened(g, IfOpen(g, cond, second).0, second)
  {
    var n := |CurBlocks(g)|;
    var iftrue := AppendBlock(g, "iftrue");
    var ifend := AppendBlock(iftrue.0, second);
    var c := Eval(ifend.0, cond);
    var g4 := Terminate(c.0, CondBr(c.1, iftrue.1, ifend.1));
    var r := MoveTo(g4, iftrue.1);
    assert r == IfOpen(g, cond, second).0;
    assert r == g4.(cur := n);
    var bs := CurBlocks(ifend.0);
    assert bs == CurBlocks(g) + [Block("iftrue", [])] + [Block(second, [])];
    assert |CurBlocks(c.0)| == |bs| && c.0.cur == g.cur;
    assert CurBlocks(c.0)[n] == bs[n] && CurBlocks(c.0)[n + 1] == bs[n + 1];
    assert CurBlocks(g4) == CurBlocks(r);
  }

  /** se without senao: with n the number of blocks before it, blocks n and
      n + 1 are iftrue and ifend; the block the builder was on ends in the
      conditional branch to them; when the arm has no direct retorna, the
      block where it ended branches to ifend; the builder ends on ifend,
      which is still empty. (armEnd is the block the builder was on when
      the arm's body finished.) */
  lemma OneArmedLayout(g: Gen, t: Node)
    requires |t.children| == 5 && !If(g, t).failed
    ensures var n := |CurBlocks(g)|;
            var r := If(g, t);
            HasBuilder(g) && n + 1 < |CurBlocks(r)| && r.cur == n + 1
            && EndsWithCondBr(CurBlocks(r)[g.cur], n, n + 1)
            && CurBlocks(r)[n].name == "iftrue" && CurBlocks(r)[n + 1] == Block("ifend", [])
            && var armEnd := Body(IfOpen(g, t.children[1], "ifend").0, t.children[3]).0.cur;
               (!HasDirectReturn(t.children[3].children) ==>
                  n <= armEnd < |CurBlocks(r)| && armEnd != n + 1 && EndsWith(CurBlocks(r)[armEnd], Br(n + 1)))
  {
    var o := IfOpen(g, t.children[1], "ifend");
    var arm := Body(o.0, t.children[3]);
    assert If(g, t) == MoveTo(if arm.1 then arm.0 else Terminate(arm.0, Br(o.1 + 1)), o.1 + 1);
    BodyExtends(o.0, t.children[3]);
    IfOpened(g, t.children[1], "ifend");
    OneArmClose(g, o.0, arm.0, arm.1, If(g, t));
  }

  /** The end of a se without senao, from the state o after IfOpen and the
      state h after the arm. */
  lemma OneArmClose(g: Gen, o: Gen, h: Gen, returned: bool, r: Gen)
    requires Opened(g, o, "ifend") && Extends(o, h)
    requires r == MoveTo(if returned then h else Terminate(h, Br(|CurBlocks(g)| + 1)), |CurBlocks(g)| + 1)
    requires !r.failed
    ensures g.cur < |CurBlocks(g)| && |CurBlocks(g)| + 1 < |CurBlocks(r)| && r.cur == |CurBlocks(g)| + 1
    ensures EndsWithCondBr(CurBlocks(r)[g.cur], |CurBlocks(g)|, |CurBlocks(g)| + 1)
    ensures CurBlocks(r)[|CurBlocks(g)|].name == "iftrue" && CurBlocks(r)[|CurBlocks(g)| + 1] == Block("ifend", [])
    ensures !returned ==>
              |CurBlocks(g)| <= h.cur < |CurBlocks(r)| && h.cur != |CurBlocks(g)| + 1
              && EndsWith(CurBlocks(r)[h.cur], Br(|CurBlocks(g)| + 1))
  {
    var n := |CurBlocks(g)|;
    assert !h.failed && (h.cur == n || n + 2 <= h.cur);
    assert CurBlocks(h)[n + 1] == Block("ifend", []) && CurBlocks(h)[g.cur] == CurBlocks(o)[g.cur];
    if !returned {
      var h' := Terminate(h, Br(n + 1));
      assert h' == EmitAll(h, [Br(n + 1)]);
      assert CurBlocks(r) == CurBlocks(h');
      assert n <= h.cur < |CurBlocks(r)| && h.cur != n + 1 && EndsWith(CurBlocks(r)[h.cur], Br(n + 1));
    }
  }

  /** se with senao: with n the number of blocks before it, blocks n and
      n + 1 are iftrue and iffalse and the block the builder was on ends in
      the conditional branch to them. When the else arm has no direct
      retorna, the builder ends on an empty ifend, the last block; when only
      the then arm has none, on the empty ifend that arm appended; when
      neither has one, the ifend the then arm branched to is an earlier
      block that stays empty. When both arms have one, nothing follows the
      else arm: the state is the one the else arm left. */
  lemma TwoArmedLayout(g: Gen, t: Node)
    requires |t.children| >= 6 && !If(g, t).failed
    ensures var n := |CurBlocks(g)|;
            var r := If(g, t);
            var o := IfOpen(g, t.children[1], "iffalse");
            var m := MoveTo(CloseArm(Body(o.0, t.children[3]).0, Body(o.0, t.children[3]).1, None).0, n + 1);
            HasBuilder(g) && n + 1 < |CurBlocks(r)|
            && EndsWithCondBr(CurBlocks(r)[g.cur], n, n + 1)
            && CurBlocks(r)[n].name == "iftrue" && CurBlocks(r)[n + 1].name == "iffalse"
            && (!HasDirectReturn(t.children[3].children) || !HasDirectReturn(t.children[5].children) ==>
                  n + 2 <= r.cur < |CurBlocks(r)| && CurBlocks(r)[r.cur] == Block("ifend", []))
            && (!HasDirectReturn(t.children[5].children) ==> r.cur == |CurBlocks(r)| - 1)
            && (!HasDirectReturn(t.children[3].children) && !HasDirectReturn(t.children[5].children) ==>
                  exists k :: n + 2 <= k < r.cur && CurBlocks(r)[k] == Block("ifend", []))
            && (HasDirectReturn(t.children[3].children) && HasDirectReturn(t.children[5].children) ==>
                  r == Body(m, t.children[5]).0)
  {
    var n := |CurBlocks(g)|;
    var o := IfOpen(g, t.children[1], "iffalse");
    var arm1 := Body(o.0, t.children[3]);
    var end1 := CloseArm(arm1.0, arm1.1, None);
    var m := MoveTo(end1.0, n + 1);
    var arm2 := Body(m, t.children[5]);
    var end2 := CloseArm(arm2.0, arm2.1, end1.1);
    TwoArmedUnfold(g, t);
    TwoArmedSteps(g, t);
    ArmUnfailed(m, t.children[5], end1.1);
    ArmUnfailed(o.0, t.children[3], None);
    BodyExtends(o.0, t.children[3]);
    BodyExtends(m, t.children[5]);
    IfOpened(g, t.children[1], "iffalse");
    FirstArmClose(g, o.0, arm1.0, arm1.1);
    SecondArmClose(g, m, arm2.0, arm2.1, end1.1);
  }

  /** A se with six or more pieces is the two-armed case. */
  lemma TwoArmedUnfold(g: Gen, t: Node)
    requires |t.children| >= 6 && !If(g, t).failed
    ensures If(g, t) == TwoArmed(g, t) && !TwoArmed(g, t).failed
  {
  }

  /** A se with senao that succeeds went through its steps unfailed. */
  lemma TwoArmedSteps(g: Gen, t: Node)
    requires |t.children| >= 6 && !TwoArmed(g, t).failed
    ensures var o := IfOpen(g, t.children[1], "iffalse");
            var arm1 := Body(o.0, t.children[3]);
            var end1 := CloseArm(arm1.0, arm1.1, None);
            var arm2 := Body(MoveTo(end1.0, o.1 + 1), t.children[5]);
            var end2 := CloseArm(arm2.0, arm2.1, end1.1);
            TwoArmed(g, t) == (if end2.1.Some? then MoveTo(end2.0, end2.1.value) else end2.0)
            && !end2.0.failed
  {
    TwoArmedIs(g, t);
  }

  /** The steps of a se with senao, named. */
  lemma TwoArmedIs(g: Gen, t: Node)
    requires |t.children| >= 6
    ensures var o := IfOpen(g, t.children[1], "iffalse");
            var arm1 := Body(o.0, t.children[3]);
            var end1 := CloseArm(arm1.0, arm1.1, None);
            var arm2 := Body(MoveTo(end1.0, o.1 + 1), t.children[5]);
            var end2 := CloseArm(arm2.0, arm2.1, end1.1);
            TwoArmed(g, t) == (if end2.1.Some? then MoveTo(end2.0, end2.1.value) else end2.0)
  {
  }

  /** An arm that closes without failing started from a state that had
      not failed. */
  lemma ArmUnfailed(g: Gen, t: Node, prev: Option<nat>)
    requires !CloseArm(Body(g, t).0, Body(g, t).1, prev).0.failed
    ensures !g.failed
  {
    BodyExtends(g, t);
  }

  /** The then arm of a se with senao, closed, and the move to iffalse. */
  lemma FirstArmClose(g: Gen, o: Gen, h: Gen, returned: bool)
    requires Opened(g, o, "iffalse") && Extends(o, h)
    requires !CloseArm(h, returned, None).0.failed
    ensures var n := |CurBlocks(g)|;
            var end1 := CloseArm(h, returned, None);
            var m := MoveTo(end1.0, n + 1);
            !m.failed && m.cur == n + 1 && n + 2 <= |CurBlocks(m)|
            && EndsWithCondBr(CurBlocks(m)[g.cur], n, n + 1)
            && CurBlocks(m)[n].name == "iftrue" && CurBlocks(m)[n + 1] == Block("iffalse", [])
            && (end1.1.Some? <==> !returned)
            && (end1.1.Some? ==> n + 2 <= end1.1.value < |CurBlocks(m)|
                                 && CurBlocks(m)[end1.1.value] == Block("ifend", []))
  {
    var n := |CurBlocks(g)|;
    assert h.cur == n || n + 2 <= h.cur;
    if !returned {
      var a := AppendBlock(h, "ifend");
      assert CurBlocks(a.0)[a.1] == Block("ifend", []);
    }
  }

  /** The else arm of a se with senao, closed, and the final move. */
  lemma SecondArmClose(g: Gen, m: Gen, h: Gen, returned: bool, prev: Option<nat>)
    requires var n := |CurBlocks(g)|;
             HasBuilder(g) && !m.failed && m.cur == n + 1 && n + 2 <= |CurBlocks(m)|
             && EndsWithCondBr(CurBlocks(m)[g.cur], n, n + 1)
             && CurBlocks(m)[n].name == "iftrue" && CurBlocks(m)[n + 1] == Block("iffalse", [])
             && (prev.Some? ==> n + 2 <= prev.value < |CurBlocks(m)| && CurBlocks(m)[prev.value] == Block("ifend", []))
    requires Extends(m, h)
    requires !CloseArm(h, returned, prev).0.failed
    ensures var n := |CurBlocks(g)|;
            var end2 := CloseArm(h, returned, prev);
            var r := if end2.1.Some? then MoveTo(end2.0, end2.1.value) else end2.0;
            n + 1 < |CurBlocks(r)|
            && EndsWithCondBr(CurBlocks(r)[g.cur], n, n + 1)
            && CurBlocks(r)[n].name == "iftrue" && CurBlocks(r)[n + 1].name == "iffalse"
            && (prev.Some? || !returned ==> n + 2 <= r.cur < |CurBlocks(r)| && CurBlocks(r)[r.cur] == Block("ifend", []))
            && (!returned ==> r.cur == |CurBlocks(r)| - 1)
            && (prev.Some? && !returned ==> prev.value < r.cur && CurBlocks(r)[prev.value] == Block("ifend", []))
            && (prev.None? && returned ==> r == h)
  {
    var n := |CurBlocks(g)|;
    assert h.cur == n + 1 || |CurBlocks(m)| <= h.cur;
    if !returned {
      var a := AppendBlock(h, "ifend");
      assert CurBlocks(a.0)[a.1] == Block("ifend", []);
    }
  }

  // ---------------------------------------------------------------------
  // Function headers.

  /** functionDeclaration, when it succeeds: the name (principal renamed
      main) was free in the module; exactly one function is added after the
      earlier ones, which are unchanged; it has that name, the declared
      return type (void without a type), one argument per parameter that is
      not vazio, in order; and its first block is bloco_entrada. */
  lemma FunctionDeclarationHeader(g: Gen, t: Node)
    requires !FunctionDeclaration(g, t).failed
    ensures var r := FunctionDeclaration(g, t);
            var typed := Child(t, 0).name == "inteiro" || Child(t, 0).name == "flutuante";
            var name := LinkName(if typed then Child(t, 1).name else Child(t, 0).name);
            var params := if typed then Child(t, 3) else Child(t, 2);
            var p := Params(params.children);
            name !in g.symbols && p.Some?
            && |r.funcs| == |g.funcs| + 1 && r.funcs[..|g.funcs|] == g.funcs
            && r.funcs[|g.funcs|].name == name
            && r.funcs[|g.funcs|].ret == (if typed then GetType(Child(t, 0).name) else VoidTy)
            && r.funcs[|g.funcs|].args == ArgValues(p.value.0, p.value.1)
            && |CurBlocks(r)| >= 1 && CurBlocks(r)[0].name == "bloco_entrada"
  {
    var g0 := g.(locals := [], args := []);
    var typed := Child(t, 0).name == "inteiro" || Child(t, 0).name == "flutuante";
    var name := LinkName(if typed then t.children[1].name else t.children[0].name);
    var params := if typed then t.children[3] else t.children[2];
    var body := if typed then t.children[5] else t.children[4];
    var ret := if typed then GetType(t.children[0].name) else VoidTy;
    var p := Params(params.children).value;
    var s := Start(g0, name, ret, ArgValues(p.0, p.1));
    var r := Body(s, body).0;
    assert r == FunctionDeclaration(g, t);
    assert |s.funcs| == |g.funcs| + 1 && s.funcs[|g.funcs|] == Func(name, ret, ArgValues(p.0, p.1), [Block("bloco_entrada", [])]);
    assert CurBlocks(s) == [Block("bloco_entrada", [])] && s.cur == 0;
    BodyExtends(s, body);
    assert Extends(s, r);
    assert forall i :: 0 <= i < |g.funcs| ==> r.funcs[i] == s.funcs[i] == g.funcs[i];
    assert r.funcs[..|g.funcs|] == g.funcs;
  }
}
