/** Expression lowering of tppgencode.py (expression, callFunction,
    arguments) as pure functions: given the generator's state (for name
    resolution only) and a pruned expression, they give the instructions
    the source appends at the builder's position and the resulting value,
    or Failed where the source raises. Lowering never moves the builder, so
    applying the result is a single append (CodeGen.Eval). */
module Lower {
  import opened Cst
  import opened Ir

  datatype Lowered = Lowered(code: seq<Inst>, v: Value) | Failed

  datatype LoweredList = LoweredList(code: seq<Inst>, vs: seq<Value>) | ListFailed

  predicate NoTerminators(code: seq<Inst>)
  {
    forall k :: 0 <= k < |code| ==> !IsTerminator(code[k])
  }

  lemma NoTerminatorsConcat(a: seq<Inst>, b: seq<Inst>)
    requires NoTerminators(a) && NoTerminators(b)
    ensures NoTerminators(a + b)
  {
    assert forall k :: 0 <= k < |a + b| ==> (a + b)[k] == (if k < |a| then a[k] else b[k - |a|]);
  }

  /** The relational and logical operators the source turns into a signed
      comparison. */
  predicate Compares(op: string)
  {
    op in ["<", ">", "=", ">=", "<=", "&&", "||"]
  }

  predicate Arithmetic(op: string)
  {
    op in ["+", "-", "*", "/"]
  }

  /** The instruction an arithmetic operator becomes. */
  function Opcode(op: string): string
  {
    if op == "+" then "add" else if op == "-" then "sub" else if op == "*" then "mul" else "sdiv"
  }

  /** The value of a literal class node (NUM_...): the shared zero for the
      text '0', otherwise a constant of the class's type holding the text. */
  function Literal(n: Node): (r: Value)
    ensures r == ZeroV <==> Lexeme(n) == "0"
    ensures r != ZeroV ==> r.ConstV? && r.text == Lexeme(n)
                           && (r.ty == IntTy <==> n.name == "NUM_INTEIRO" || n.name == "inteiro")
  {
    var text := Child(n, 0).name;
    if text == "0" then ZeroV else ConstV(GetType(n.name), text)
  }

  /** The operator step of `expression`: arithmetic and comparisons produce
      an instruction; any other operator yields the left operand (whose
      right-hand code has still been emitted). */
  function Combine(op: string, code: seq<Inst>, a1: Value, a2: Value): (r: Lowered)
    requires NoTerminators(code)
    ensures r.Lowered? ==> NoTerminators(r.code) && |code| <= |r.code| && r.code[..|code|] == code
    ensures r.Failed? <==> (Arithmetic(op) || Compares(op)) && (a1 == NoneV || a2 == NoneV)
    ensures r.Lowered? && Arithmetic(op) ==> r.v == BinV(Opcode(op), a1, a2) && r.code == code + [Emit(r.v)]
    ensures r.Lowered? && Compares(op) ==>
              r.v == CmpV(if op == "=" then "==" else op, a1, a2) && r.code == code + [Emit(r.v)]
    ensures !Arithmetic(op) && !Compares(op) ==> r == Lowered(code, a1)
  {
    if Arithmetic(op) then
      if a1 == NoneV || a2 == NoneV then Failed
      else
        var b := BinV(Opcode(op), a1, a2);
        Lowered(code + [Emit(b)], b)
    else if Compares(op) then
      if a1 == NoneV || a2 == NoneV then Failed
      else
        var c := CmpV(if op == "=" then "==" else op, a1, a2);
        Lowered(code + [Emit(c)], c)
    else Lowered(code, a1)
  }

  /** expression: the first operand (after a leading '(' if any), and, when
      the pruned expression has more pieces, the operand two places further
      on, combined by the piece between them. Pieces beyond that are not
      looked at. */
  function Expression(g: Gen, t: Node): (r: Lowered)
    ensures r.Lowered? ==> NoTerminators(r.code)
    decreases t, 1, 0
  {
    var aux := t.children;
    if |aux| == 0 then Failed
    else
      var index := if aux[0].name != "(" then 0 else 1;
      if index >= |aux| then Failed
      else
        match Operand(g, aux[index], false)
        case Failed => Failed
        case Lowered(code1, a1) =>
          if |aux| == 1 then Lowered(code1, a1)
          else if index + 2 >= |aux| then Failed
          else
            match Operand(g, aux[index + 2], true)
            case Failed => Failed
            case Lowered(code2, a2) =>
              NoTerminatorsConcat(code1, code2);
              Combine(aux[index + 1].name, code1 + code2, a1, a2)
  }

  /** One operand of `expression`: a call, a variable, a literal, or (for
      the right operand only) a nested expression; None otherwise. */
  function Operand(g: Gen, n: Node, nested: bool): (r: Lowered)
    ensures r.Lowered? ==> NoTerminators(r.code)
    decreases n, 2, 0
  {
    if n.name == "chamada_funcao" then CallFunction(g, n)
    else if n.name == "var" then VarValue(g, n)
    else if Contains(n.name, "NUM_") then Lowered([], Literal(n))
    else if nested then Expression(g, n)
    else Lowered([], NoneV)
  }

  /** A variable operand: a global or local is loaded (through a gep on the
      first index for an indexed one); otherwise the argument of that name
      is used as it is, or None. */
  function VarValue(g: Gen, v: Node): (r: Lowered)
    ensures r.Lowered? ==> NoTerminators(r.code)
    ensures r.Lowered? && GetVar(g, Child(v, 0).name) == NoneV ==> r == Lowered([], GetArgs(g, Child(v, 0).name))
    ensures r.Lowered? && GetVar(g, Child(v, 0).name) != NoneV ==> r.v.LoadV?
    decreases v, 0, 0
  {
    var name := Child(v, 0).name;
    var res := GetVar(g, name);
    if res == NoneV then Lowered([], GetArgs(g, name))
    else if |v.children| > 1 then
      var ind := v.children[1];
      if |ind.children| < 2 then Failed
      else
        match Expression(g, ind.children[1])
        case Failed => Failed
        case Lowered(code, idx) =>
          if idx == NoneV then Failed
          else
            var p := GepV(res, idx);
            var code' := code + [Emit(p), Emit(LoadV(p))];
            assert forall k :: 0 <= k < |code'| ==> code'[k] == (if k < |code| then code[k] else code'[k]);
            Lowered(code', LoadV(p))
    else Lowered([Emit(LoadV(res))], LoadV(res))
  }

  /** callFunction: the arguments' code, then the call of the function of
      that name (None when no function has it, which fails). */
  function CallFunction(g: Gen, t: Node): (r: Lowered)
    ensures r.Lowered? ==> NoTerminators(r.code)
    ensures r.Lowered? ==> r.v.CallV? && r.v.f == GetFunction(g, Child(t, 0).name) && r.v.f != NoneV
    decreases t, 0, 0
  {
    var f := GetFunction(g, Child(t, 0).name);
    if |t.children| < 3 then Failed
    else
      match Arguments(g, t.children[2], 0)
      case ListFailed => Failed
      case LoweredList(code, vs) =>
        var c := CallV(f, vs);
        if HasNone(Emit(c)) then Failed
        else
          var code' := code + [Emit(c)];
          assert forall k :: 0 <= k < |code'| ==> code'[k] == (if k < |code| then code[k] else Emit(c));
          Lowered(code', c)
  }

  /** The number of children of l from position i on that are not vazio. */
  function ArgCount(l: Node, i: nat): nat
    decreases |l.children| - i
  {
    if i >= |l.children| then 0
    else (if l.children[i].name == "vazio" then 0 else 1) + ArgCount(l, i + 1)
  }

  /** arguments: one value per child that is not vazio, in order. */
  function Arguments(g: Gen, l: Node, i: nat): (r: LoweredList)
    ensures r.LoweredList? ==> NoTerminators(r.code) && |r.vs| == ArgCount(l, i)
    decreases l, 0, |l.children| - i
  {
    if i >= |l.children| then LoweredList([], [])
    else if l.children[i].name == "vazio" then Arguments(g, l, i + 1)
    else
      match Expression(g, l.children[i])
      case Failed => ListFailed
      case Lowered(code, v) =>
        match Arguments(g, l, i + 1)
        case ListFailed => ListFailed
        case LoweredList(code2, vs) =>
          NoTerminatorsConcat(code, code2);
          LoweredList(code + code2, [v] + vs)
  }

  // ---------------------------------------------------------------------
  // Properties.

  /** Only the first operator of a pruned expression is compiled: the
      pieces after the second operand make no difference. */
  lemma {:induction false} FirstOperatorOnly(g: Gen, t: Node)
    requires |t.children| >= 3 && t.children[0].name != "("
    ensures Expression(g, t) == Expression(g, t.(children := t.children[..3]))
  {
    var t3 := t.(children := t.children[..3]);
    assert t3.children[0] == t.children[0] && t3.children[1] == t.children[1] && t3.children[2] == t.children[2];
  }

  /** A parenthesised single operand, `( x )` or `( x ) op ...`, does not
      compile: the piece two places after the operand is the closing
      parenthesis or an operator symbol, and neither has children. */
  lemma ParenthesisedFails(g: Gen, t: Node)
    requires |t.children| >= 3 && t.children[0].name == "("
    requires t.children[1].name == "var" || t.children[1].name == "chamada_funcao"
             || Contains(t.children[1].name, "NUM_")
    requires |t.children| == 3 || (t.children[3].children == [] && t.children[3].name != "var"
                                    && t.children[3].name != "chamada_funcao" && !Contains(t.children[3].name, "NUM_"))
    ensures Expression(g, t).Failed?
  {
    if |t.children| > 3 {
      assert Expression(g, t.children[3]).Failed?;
    }
  }
}
