/** The generator of tppgencode.py as a class. Its fields are the names
    taken in the module's global scope, the functions built so far
    (self.functions), the builder's block (self.block), vars_global,
    vars_local, args_func and exit_block, plus a flag standing for a raised
    llvmlite exception. Each method performs the source's steps one at a
    time on those fields and is proved to reach the state that the function
    of the same name in CodeGen computes from the state before the call;
    what those states look like is proved about the functions there. */
module Generator {
  import opened Cst
  import opened Ir
  import opened Lower
  import opened CodeGen

  class GenCode {
    var symbols: seq<string>
    var functions: seq<Func>
    var block: nat
    var varsGlobal: seq<Value>
    var varsLocal: seq<Value>
    var argsFunc: seq<Value>
    var exitBlock: Option<nat>
    var failed: bool

    /** The fields as a generator state. */
    function State(): Gen
      reads this
    {
      Gen(symbols, functions, block, varsGlobal, varsLocal, argsFunc, exitBlock, failed)
    }

    /** The runtime functions escrevaInteiro, escrevaFlutuante, leiaInteiro
        and leiaFlutuante are declared, so their names are taken; no
        function has been built and the three lists are empty. */
    constructor ()
      ensures State() == Initial
    {
      symbols := ["escrevaInteiro", "escrevaFlutuante", "leiaInteiro", "leiaFlutuante"];
      functions := [];
      block := 0;
      varsGlobal := [];
      varsLocal := [];
      argsFunc := [];
      exitBlock := None;
      failed := false;
    }

    // -------------------------------------------------------------------
    // Builder primitives.

    /** Replaces the blocks of the function being built. */
    method SetBlocks(bs: seq<Block>)
      requires functions != []
      modifies this
      ensures State() == WithBlocks(old(State()), bs)
    {
      var last := functions[|functions| - 1];
      functions := functions[..|functions| - 1] + [last.(blocks := bs)];
    }

    /** A builder call adding an instruction that does not end the block. */
    method Insert(i: Inst)
      requires !IsTerminator(i)
      modifies this
      ensures State() == Emit1(old(State()), i)
    {
      if failed {
        return;
      }
      if HasNone(i) || !HasBuilder(State()) {
        failed := true;
        return;
      }
      var bs := CurBlocks(State());
      SetBlocks(bs[block := bs[block].(insts := bs[block].insts + [i])]);
    }

    /** branch, cbranch or ret: refused on a block already terminated. */
    method AddTerminator(i: Inst)
      requires IsTerminator(i)
      modifies this
      ensures State() == Terminate(old(State()), i)
    {
      if failed {
        return;
      }
      if !HasBuilder(State()) || Terminated(CurBlocks(State())[block]) || HasNone(i) {
        failed := true;
        return;
      }
      var bs := CurBlocks(State());
      SetBlocks(bs[block := bs[block].(insts := bs[block].insts + [i])]);
    }

    /** The instructions of a lowered expression, in order. */
    method InsertAll(code: seq<Inst>)
      modifies this
      ensures State() == EmitAll(old(State()), code)
    {
      if failed || code == [] {
        return;
      }
      if !HasBuilder(State()) {
        failed := true;
        return;
      }
      var bs := CurBlocks(State());
      SetBlocks(bs[block := bs[block].(insts := bs[block].insts + code)]);
    }

    /** append_basic_block: the new block's index. */
    method AppendBasicBlock(name: string) returns (k: nat)
      modifies this
      ensures (State(), k) == AppendBlock(old(State()), name)
    {
      k := |CurBlocks(State())|;
      if failed {
        return;
      }
      if functions == [] {
        failed := true;
        return;
      }
      SetBlocks(CurBlocks(State()) + [Block(name, [])]);
    }

    /** position_at_end, or a new builder on block k. */
    method PositionAtEnd(k: nat)
      modifies this
      ensures State() == MoveTo(old(State()), k)
    {
      if !failed {
        block := k;
      }
    }

    // -------------------------------------------------------------------
    // Lookups (these change nothing).

    /** getVar: the first global of that name, else the first local, else
        None. */
    method GetVar(name: string) returns (v: Value)
      ensures v == Ir.GetVar(State(), name)
    {
      var i := 0;
      while i < |varsGlobal|
        invariant 0 <= i <= |varsGlobal|
        invariant forall j :: 0 <= j < i ==> NameOf(varsGlobal[j]) != name
      {
        if NameOf(varsGlobal[i]) == name {
          FirstIsLookup(varsGlobal, name, i);
          return varsGlobal[i];
        }
        i := i + 1;
      }
      v := FirstNamedIn(varsLocal, name);
    }

    /** getArgs: the first argument of that name, or None. */
    method GetArgs(name: string) returns (v: Value)
      ensures v == Ir.GetArgs(State(), name)
    {
      v := FirstNamedIn(argsFunc, name);
    }

    /** getFunction: the first function built under that name, or None. */
    method GetFunction(name: string) returns (v: Value)
      ensures v == Ir.GetFunction(State(), name)
    {
      var i := 0;
      while i < |functions|
        invariant 0 <= i <= |functions|
        invariant forall j :: 0 <= j < i ==> functions[j].name != name
      {
        if functions[i].name == name {
          return FuncV(name, functions[i].ret);
        }
        i := i + 1;
      }
      return NoneV;
    }

    // -------------------------------------------------------------------
    // Expressions.

    /** expression: the lowered code is appended at the builder and its
        value returned. */
    method Expression(t: Node) returns (v: Value)
      modifies this
      ensures (State(), v) == Eval(old(State()), t)
    {
      if failed {
        return NoneV;
      }
      match Lower.Expression(State(), t)
      case Failed =>
        failed := true;
        v := NoneV;
      case Lowered(code, x) =>
        InsertAll(code);
        v := x;
    }

    /** The expression at child i of t; a missing child raises. */
    method ExpressionAt(t: Node, i: nat) returns (v: Value)
      modifies this
      ensures (State(), v) == EvalAt(old(State()), t, i)
    {
      if i < |t.children| {
        v := Expression(t.children[i]);
      } else {
        failed := true;
        v := NoneV;
      }
    }

    /** callFunction as a statement of body, which passes the body node
        itself. */
    method CallFunction(body: Node)
      modifies this
      ensures State() == CallStatement(old(State()), body)
    {
      if failed {
        return;
      }
      match Lower.CallFunction(State(), body)
      case Failed =>
        failed := true;
      case Lowered(code, _) =>
        InsertAll(code);
    }

    // -------------------------------------------------------------------
    // Statements.

    /** assignment. */
    method Assignment(t: Node)
      modifies this
      ensures State() == CodeGen.Assignment(old(State()), t)
    {
      if failed {
        return;
      }
      if |t.children| == 0 || |t.children[0].children| == 0 {
        failed := true;
        return;
      }
      var v := t.children[0];
      var ptr := GetVar(Child(v, 0).name);
      if |v.children| > 1 {
        var index := ExpressionAt(v.children[1], 1);
        ptr := GepV(ptr, index);
        Insert(Emit(ptr));
      }
      var e := ExpressionAt(t, 2);
      Insert(Store(e, ptr));
    }

    /** The storage of one declared variable. */
    method Place(name: string, ty: Ty, isGlobal: bool) returns (v: Value)
      modifies this
      ensures (State(), v) == CodeGen.Place(old(State()), name, ty, isGlobal)
    {
      if failed {
        return NoneV;
      }
      if isGlobal {
        if name in symbols {
          failed := true;
          return NoneV;
        }
        symbols := symbols + [name];
        v := GlobalV(name, ty);
      } else {
        v := AllocaV(name, ty);
        Insert(Emit(v));
      }
    }

    /** variableDeclaration: the new variables, in order. */
    method VariableDeclaration(t: Node, isGlobal: bool) returns (vs: seq<Value>)
      modifies this
      ensures (State(), vs) == CodeGen.VariableDeclaration(old(State()), t, isGlobal)
    {
      if failed {
        return [];
      }
      if |t.children| < 3 {
        failed := true;
        return [];
      }
      var vars := t.children[2].children;
      var ty := GetType(t.children[0].name);
      vs := [];
      var i := 0;
      while i < |vars|
        invariant 0 <= i <= |vars|
        invariant VarDecls(State(), vars[i..], ty, isGlobal, vs) == VarDecls(old(State()), vars, ty, isGlobal, [])
      {
        vs := DeclareNext(vars, i, ty, isGlobal, vs);
        i := i + 1;
      }
    }

    /** The variable at i of a declaration, as one step of the loop: it is
        declared and its value appended to acc. */
    method DeclareNext(vars: seq<Node>, i: nat, ty: Ty, isGlobal: bool, acc: seq<Value>) returns (acc': seq<Value>)
      requires i < |vars|
      modifies this
      ensures VarDecls(State(), vars[i + 1..], ty, isGlobal, acc') == VarDecls(old(State()), vars[i..], ty, isGlobal, acc)
    {
      assert vars[i..][0] == vars[i] && vars[i..][1..] == vars[i + 1..];
      var x := DeclareOne(vars[i], ty, isGlobal);
      acc' := acc + [x];
    }

    /** One variable of a declaration; an array's index expressions are
        evaluated and their values dropped. */
    method DeclareOne(v: Node, ty: Ty, isGlobal: bool) returns (x: Value)
      modifies this
      ensures (State(), x) == CodeGen.DeclareOne(old(State()), v, ty, isGlobal)
    {
      if failed {
        return NoneV;
      }
      if |v.children| == 0 {
        failed := true;
        return NoneV;
      }
      var name := v.children[0].name;
      if |v.children| == 1 {
        x := Place(name, ty, isGlobal);
      } else {
        var index := v.children[1];
        var _ := ExpressionAt(index, 1);
        if |index.children| > 3 {
          var _ := ExpressionAt(index, 4);
        }
        x := Place(name, ArrayType(|index.children|), isGlobal);
      }
    }

    /** externalFunctions: escreva, leia and retorna. */
    method ExternalFunctions(t: Node)
      modifies this
      ensures State() == External(old(State()), t)
    {
      if failed {
        return;
      }
      if t.name == "escreva" {
        Escreva(t);
      } else if t.name == "leia" {
        Leia(t);
      } else if t.name == "retorna" {
        Retorna(t);
      }
    }

    /** escreva: the writer for the value's type. */
    method Escreva(t: Node)
      modifies this
      ensures State() == CodeGen.Escreva(old(State()), t)
    {
      var x := ExpressionAt(t, 2);
      match TypeOf(x)
      case None =>
        failed := true;
      case Some(ty) =>
        Insert(Emit(CallV(if ty == IntTy then EscrevaInteiro else EscrevaFlutuante, [x])));
    }

    /** leia: the reader for the variable's type, and the store. */
    method Leia(t: Node)
      modifies this
      ensures State() == CodeGen.Leia(old(State()), t)
    {
      if failed || |t.children| < 3 || |t.children[2].children| == 0 {
        failed := true;
        return;
      }
      var target := GetVar(t.children[2].children[0].name);
      if target == NoneV {
        failed := true;
        return;
      }
      var pointee := match TypeOf(target) case Some(PtrTy(p)) => p case _ => VoidTy;
      var call := CallV(if pointee == IntTy then LeiaInteiro else LeiaFlutuante, []);
      Insert(Emit(call));
      Insert(Store(call, target));
    }

    /** retorna: branch into bloco_saida, move there and return. */
    method Retorna(t: Node)
      modifies this
      ensures State() == CodeGen.Retorna(old(State()), t)
    {
      var res := ExpressionAt(t, 2);
      var k := AppendBasicBlock("bloco_saida");
      if !failed {
        exitBlock := Some(k);
      }
      AddTerminator(Br(k));
      PositionAtEnd(k);
      AddTerminator(Ret(res));
    }

    /** body: the items in order; whether one of them is a retorna. */
    method Body(t: Node) returns (hasReturn: bool)
      modifies this
      ensures (State(), hasReturn) == CodeGen.Body(old(State()), t)
      decreases t, 3
    {
      hasReturn := false;
      var i := 0;
      while i < |t.children|
        invariant 0 <= i <= |t.children|
        invariant BodyFold(State(), t, i) == BodyFold(old(State()), t, 0)
        invariant hasReturn <==> exists k :: 0 <= k < i && t.children[k].name == "retorna"
      {
        if t.children[i].name == "retorna" {
          hasReturn := true;
        }
        BodyStep(t, i);
        i := i + 1;
      }
    }

    /** The item at i of a body, as one step of the fold. */
    method BodyStep(t: Node, i: nat)
      requires i < |t.children|
      modifies this
      ensures BodyFold(State(), t, i + 1) == BodyFold(old(State()), t, i)
      decreases t, 2
    {
      Item(t, t.children[i]);
    }

    /** One item of a body. */
    method Item(body: Node, item: Node)
      modifies this
      ensures State() == CodeGen.Item(old(State()), body, item)
      decreases item, 2
    {
      if failed {
        return;
      }
      if item.name == "declaracao_variaveis" {
        var vs := VariableDeclaration(item, false);
        if !failed {
          varsLocal := varsLocal + vs;
        }
      } else if item.name == "chamada_funcao" {
        CallFunction(body);
      } else if item.name == "atribuicao" {
        Assignment(item);
      } else if item.name == "escreva" || item.name == "leia" || item.name == "retorna" {
        ExternalFunctions(item);
      } else if item.name == "se" {
        IfExpression(item);
      } else if item.name == "repita" {
        Repeat(item);
      }
    }

    /** repeat. */
    method Repeat(t: Node)
      modifies this
      ensures State() == CodeGen.Repeat(old(State()), t)
      decreases t, 1
    {
      if failed {
        return;
      }
      ghost var g := State();
      var n := OpenRepeat();
      ghost var o := RepeatOpen(g);
      assert State() == o.0 && n == o.1;
      if |t.children| > 1 {
        var _ := Body(t.children[1]);
        assert State() == CodeGen.Body(o.0, t.children[1]).0;
      } else {
        failed := true;
        assert State() == Fail(o.0);
      }
      CloseRepeat(t, n);
    }

    /** The start of repeat: the blocks loop, loop_val and loop_end, the
        branch into loop and the builder moved there; returns loop's index. */
    method OpenRepeat() returns (n: nat)
      modifies this
      ensures (State(), n) == RepeatOpen(old(State()))
    {
      n := |CurBlocks(State())|;
      if !HasBuilder(State()) {
        failed := true;
        return;
      }
      var loop := AppendBasicBlock("loop");
      var val := AppendBasicBlock("loop_val");
      var end := AppendBasicBlock("loop_end");
      AddTerminator(Br(loop));
      PositionAtEnd(loop);
    }

    /** The end of repeat: the branch to loop_val, the condition there and
        the conditional branch to loop_end or back to loop. */
    method CloseRepeat(t: Node, n: nat)
      modifies this
      ensures State() == RepeatClose(old(State()), t, n)
    {
      AddTerminator(Br(n + 1));
      PositionAtEnd(n + 1);
      var cond := ExpressionAt(t, 3);
      AddTerminator(CondBr(cond, n + 2, n));
      PositionAtEnd(n + 2);
    }

    /** The start of ifExpression: blocks iftrue and `second`, the
        condition and the conditional branch to them, the builder moved to
        iftrue; returns the index of iftrue. */
    method OpenIf(cond: Node, second: string) returns (n: nat)
      modifies this
      ensures (State(), n) == IfOpen(old(State()), cond, second)
    {
      n := |CurBlocks(State())|;
      if !HasBuilder(State()) {
        failed := true;
        return;
      }
      var iftrue := AppendBasicBlock("iftrue");
      var other := AppendBasicBlock(second);
      var c := Expression(cond);
      AddTerminator(CondBr(c, iftrue, other));
      PositionAtEnd(iftrue);
    }

    /** ifExpression. */
    method IfExpression(t: Node)
      modifies this
      ensures State() == If(old(State()), t)
      decreases t, 1
    {
      if failed {
        return;
      }
      if |t.children| == 5 {
        OneArmedIf(t);
      } else if |t.children| < 6 {
        failed := true;
      } else {
        TwoArmedIf(t);
      }
    }

    /** ifExpression without senao. */
    method OneArmedIf(t: Node)
      requires |t.children| >= 5
      modifies this
      ensures State() == OneArmed(old(State()), t)
      decreases t, 0
    {
      ghost var g := State();
      var n := OpenIf(t.children[1], "ifend");
      ghost var o := IfOpen(g, t.children[1], "ifend");
      assert State() == o.0 && n == o.1;
      var returned := Body(t.children[3]);
      ghost var arm := CodeGen.Body(o.0, t.children[3]);
      assert State() == arm.0 && returned == arm.1;
      if !returned {
        AddTerminator(Br(n + 1));
      }
      assert State() == if arm.1 then arm.0 else Terminate(arm.0, Br(o.1 + 1));
      PositionAtEnd(n + 1);
    }

    /** ifExpression with senao. */
    method TwoArmedIf(t: Node)
      requires |t.children| >= 6
      modifies this
      ensures State() == TwoArmed(old(State()), t)
      decreases t, 0
    {
      var n, ifend := ThenArm(t);
      ElseArm(t, n, ifend);
    }

    /** The condition and the first arm of a two-armed se; returns the
        index of iftrue and the ifend block the arm opened, if any. */
    method ThenArm(t: Node) returns (n: nat, ifend: Option<nat>)
      requires |t.children| >= 6
      modifies this
      ensures var o := IfOpen(old(State()), t.children[1], "iffalse");
              var arm1 := CodeGen.Body(o.0, t.children[3]);
              (State(), ifend) == CloseArm(arm1.0, arm1.1, None) && n == o.1
      decreases t, 0, 0
    {
      n := OpenIf(t.children[1], "iffalse");
      var returned := Body(t.children[3]);
      ifend := CloseIfArm(returned, None);
    }

    /** The second arm of a two-armed se, from iffalse (block n + 1); the
        builder ends on the last ifend opened, if any. */
    method ElseArm(t: Node, n: nat, prev: Option<nat>)
      requires |t.children| >= 6
      modifies this
      ensures var arm2 := CodeGen.Body(MoveTo(old(State()), n + 1), t.children[5]);
              var end2 := CloseArm(arm2.0, arm2.1, prev);
              State() == if end2.1.Some? then MoveTo(end2.0, end2.1.value) else end2.0
      decreases t, 0, 0
    {
      PositionAtEnd(n + 1);
      var returned := Body(t.children[5]);
      var ifend := CloseIfArm(returned, prev);
      if ifend.Some? {
        PositionAtEnd(ifend.value);
      }
    }

    /** The end of an arm of a two-armed se: unless the arm returned, a new
        ifend block and a branch to it. */
    method CloseIfArm(returned: bool, prev: Option<nat>) returns (ifend: Option<nat>)
      modifies this
      ensures (State(), ifend) == CloseArm(old(State()), returned, prev)
    {
      ifend := prev;
      if !returned {
        var k := AppendBasicBlock("ifend");
        AddTerminator(Br(k));
        ifend := Some(k);
      }
    }

    // -------------------------------------------------------------------
    // Functions and the module.

    /** parameters: the names and types of the parameters that are not
        vazio, in order; None where a parameter lacks its third piece. */
    method Parameters(t: Node) returns (p: Option<(seq<string>, seq<Ty>)>)
      ensures p == Params(t.children)
    {
      var cs := t.children;
      var names: seq<string> := [];
      var types: seq<Ty> := [];
      var i := 0;
      assert cs[i..] == cs;
      PrependNothing(Params(cs));
      while i < |cs|
        invariant 0 <= i <= |cs| && |names| == |types|
        invariant Params(cs) == Prepend(names, types, Params(cs[i..]))
      {
        assert cs[i..][0] == cs[i] && cs[i..][1..] == cs[i + 1..];
        if cs[i].name != "vazio" {
          if |cs[i].children| < 3 {
            return None;
          }
          var x, y := cs[i].children[2].name, GetType(cs[i].children[0].name);
          PrependOne(names, types, x, y, Params(cs[i + 1..]));
          names := names + [x];
          types := types + [y];
        }
        i := i + 1;
      }
      assert cs[i..] == [];
      assert names + [] == names && types + [] == types;
      return Some((names, types));
    }

    /** The loop naming the arguments of a new function. */
    method NameArguments(names: seq<string>, types: seq<Ty>) returns (argv: seq<Value>)
      requires |names| == |types|
      ensures argv == ArgValues(names, types)
    {
      argv := [];
      var i := 0;
      while i < |names|
        invariant 0 <= i <= |names|
        invariant |argv| == i
        invariant forall k :: 0 <= k < i ==> argv[k] == ArgV(names[k], types[k])
      {
        argv := argv + [ArgV(names[i], types[i])];
        i := i + 1;
      }
    }

    /** functionDeclaration. */
    method FunctionDeclaration(t: Node)
      modifies this
      ensures State() == CodeGen.FunctionDeclaration(old(State()), t)
    {
      if failed {
        return;
      }
      varsLocal := [];
      argsFunc := [];
      var typed := Child(t, 0).name == "inteiro" || Child(t, 0).name == "flutuante";
      if (typed && |t.children| < 6) || (!typed && |t.children| < 5) {
        failed := true;
        return;
      }
      var name := LinkName(if typed then t.children[1].name else t.children[0].name);
      var params := if typed then t.children[3] else t.children[2];
      var body := if typed then t.children[5] else t.children[4];
      var ret := if typed then GetType(t.children[0].name) else VoidTy;
      var p := Parameters(params);
      if p.None? || name in symbols {
        failed := true;
        return;
      }
      var argv := NameArguments(p.value.0, p.value.1);
      StartFunction(name, ret, argv);
      var _ := Body(body);
    }

    /** ir.Function and the entry block: the function is declared under a
        free name, its arguments become args_func, and a builder is placed
        on its new block bloco_entrada. */
    method StartFunction(name: string, ret: Ty, argv: seq<Value>)
      requires !failed
      modifies this
      ensures State() == Start(old(State()), name, ret, argv)
    {
      symbols := symbols + [name];
      functions := functions + [Func(name, ret, argv, [])];
      argsFunc := argv;
      assert CurBlocks(State()) == [];
      var entry := AppendBasicBlock("bloco_entrada");
      PositionAtEnd(entry);
      assert entry == 0;
      assert functions[..|functions| - 1] == old(functions);
      assert functions[|functions| - 1] == Func(name, ret, argv, [Block("bloco_entrada", [])]);
    }

    /** declaration: every child of the pruned lista_declaracoes in turn;
        an initialisation generates nothing. */
    method Declaration(root: Node)
      modifies this
      ensures State() == CodeGen.Declaration(old(State()), root)
    {
      if |root.children| == 0 {
        failed := true;
        return;
      }
      var ds := root.children[0].children;
      var i := 0;
      while i < |ds|
        invariant 0 <= i <= |ds|
        invariant Decls(State(), ds[i..]) == Decls(old(State()), ds)
      {
        assert ds[i..][0] == ds[i] && ds[i..][1..] == ds[i + 1..];
        var d := ds[i];
        if d.name == "declaracao_funcao" {
          FunctionDeclaration(d);
        } else if d.name == "declaracao_variaveis" {
          var vs := VariableDeclaration(d, true);
          if !failed {
            varsGlobal := varsGlobal + vs;
          }
        }
        i := i + 1;
      }
    }
  }

  /** The first value named name sits at index i, so it is what the
      search finds. */
  lemma FirstIsLookup(vs: seq<Value>, name: string, i: nat)
    requires i < |vs| && NameOf(vs[i]) == name
    requires forall j :: 0 <= j < i ==> NameOf(vs[j]) != name
    ensures Lookup(vs, name) == vs[i]
  {
    assert HasNamed(vs, name);
    var r := Lookup(vs, name);
    var i' :| 0 <= i' < |vs| && vs[i'] == r && NameOf(r) == name
              && forall j :: 0 <= j < i' ==> NameOf(vs[j]) != name;
  }

  /** The names and types found so far in front of what the rest of the
      parameters give. */
  function Prepend(names: seq<string>, types: seq<Ty>, p: Option<(seq<string>, seq<Ty>)>): Option<(seq<string>, seq<Ty>)>
  {
    match p
    case None => None
    case Some(q) => Some((names + q.0, types + q.1))
  }

  lemma PrependNothing(p: Option<(seq<string>, seq<Ty>)>)
    ensures Prepend([], [], p) == p
  {
    if p.Some? {
      assert [] + p.value.0 == p.value.0 && [] + p.value.1 == p.value.1;
    }
  }

  lemma PrependOne(names: seq<string>, types: seq<Ty>, x: string, y: Ty, p: Option<(seq<string>, seq<Ty>)>)
    ensures Prepend(names, types, match p case None => None case Some(q) => Some(([x] + q.0, [y] + q.1)))
            == Prepend(names + [x], types + [y], p)
  {
    if p.Some? {
      assert names + ([x] + p.value.0) == (names + [x]) + p.value.0;
      assert types + ([y] + p.value.1) == (types + [y]) + p.value.1;
    }
  }

  /** The loop of getArgs and of each half of getVar. */
  method FirstNamedIn(vs: seq<Value>, name: string) returns (v: Value)
    ensures v == Lookup(vs, name)
  {
    var i := 0;
    while i < |vs|
      invariant 0 <= i <= |vs|
      invariant forall j :: 0 <= j < i ==> NameOf(vs[j]) != name
    {
      if NameOf(vs[i]) == name {
        FirstIsLookup(vs, name, i);
        return vs[i];
      }
      i := i + 1;
    }
    assert !HasNamed(vs, name);
    return NoneV;
  }

  /** The whole of generation: a fresh generator walks the tree, and the
      module is what saveCode would write, or nothing when llvmlite raised. */
  method Generate(root: Node) returns (m: Option<Module>)
    ensures m == Compile(root)
  {
    var gen := new GenCode();
    gen.Declaration(root);
    if gen.failed {
      return None;
    }
    return Some(Module(gen.varsGlobal, gen.functions));
  }
}
