/** The grammar's lists are left-recursive: the parser reduces the list of
    n items to a node whose first child is the list of the first n - 1
    items. This module builds such lists from their items, in the order the
    parser reduces them, and proves that the pruner flattens them back to
    one entry per item in source order, that a binary precedence level is
    pruned to its left pieces, its operator symbol and its right pieces,
    and that the analyser counts one argument per expression of a call.
    It also gives the pruned form of each statement, operand and variable
    the parser builds, at the positions the generator reads. */
module Lists {
  import opened Cst
  import opened Parser
  import opened Prune
  import opened SymbolTable
  import Ir
  import CodeGen

  // ---------------------------------------------------------------------
  // The lists as the parser reduces them.

  /** lista_declaracoes over the declarations ds. */
  function DeclList(ds: seq<Node>, line: int): Node
    requires |ds| > 0
    decreases |ds|
  {
    if |ds| == 1 then ListaDeclaracoes(None, Declaracao(ds[0], line), line)
    else ListaDeclaracoes(Some(DeclList(ds[..|ds| - 1], line)), Declaracao(ds[|ds| - 1], line), line)
  }

  /** lista_variaveis over the variables vs. */
  function VarList(vs: seq<Node>, line: int): Node
    requires |vs| > 0
    decreases |vs|
  {
    if |vs| == 1 then ListaVariaveis(None, vs[0], line)
    else ListaVariaveis(Some(VarList(vs[..|vs| - 1], line)), vs[|vs| - 1], line)
  }

  /** corpo over the statements ss, starting from the empty body. */
  function BodyList(ss: seq<Node>, line: int): Node
    decreases |ss|
  {
    if ss == [] then Corpo(Vazio(line), None, line)
    else Corpo(BodyList(ss[..|ss| - 1], line), Some(Acao(ss[|ss| - 1], line)), line)
  }

  /** lista_argumentos over the argument expressions es. */
  function ArgList(es: seq<Node>, line: int): Node
    requires |es| > 0
    decreases |es|
  {
    if |es| == 1 then ListaArgumentos(None, "", es[0], line)
    else ListaArgumentos(Some(ArgList(es[..|es| - 1], line)), ",", es[|es| - 1], line)
  }

  /** lista_parametros over the parameters ps. */
  function ParamList(ps: seq<Node>, line: int): Node
    requires |ps| > 0
    decreases |ps|
  {
    if |ps| == 1 then ListaParametros(None, ps[0], line)
    else ListaParametros(Some(ParamList(ps[..|ps| - 1], line)), ps[|ps| - 1], line)
  }

  // ---------------------------------------------------------------------
  // Flattening reads them back.

  /** pruneDeclaration's loop recovers the declarations, first one first. */
  lemma {:induction false} DeclItemsOfList(ds: seq<Node>, line: int)
    requires |ds| > 0
    ensures DeclItems(DeclList(ds, line)) == ds
    decreases |ds|
  {
    if |ds| > 1 {
      DeclItemsOfList(ds[..|ds| - 1], line);
      assert ds[..|ds| - 1] + [ds[|ds| - 1]] == ds;
    }
  }

  /** The pruned program: the root keeps one child, the list of the
      declarations, each pruned, in source order. */
  lemma PrunedProgram(ds: seq<Node>, line: int)
    requires |ds| > 0
    ensures var r := PruneTree(Programa(DeclList(ds, line), line));
            |r.children| == 1 && |r.children[0].children| == |ds|
            && forall k :: 0 <= k < |ds| ==> r.children[0].children[k] == PruneDecl(ds[k])
  {
    DeclItemsOfList(ds, line);
  }

  /** pruneVaribleDeclaration's loop: one pruned variable per variable. */
  lemma {:induction false} VarItemsOfList(vs: seq<Node>, line: int)
    requires |vs| > 0 && forall k :: 0 <= k < |vs| ==> vs[k].name == "var"
    ensures |VarItems(VarList(vs, line))| == |vs|
    ensures forall k :: 0 <= k < |vs| ==> VarItems(VarList(vs, line))[k] == PruneVariable(vs[k])
    decreases |vs|
  {
    var n := VarList(vs, line);
    var v := vs[|vs| - 1];
    if |vs| > 1 {
      var front := vs[..|vs| - 1];
      VarItemsOfList(front, line);
      assert n.children == [VarList(front, line), n.children[1], v];
      assert VarItems(n) == VarItems(VarList(front, line)) + [PruneVariable(v)];
    } else {
      assert VarItems(n) == VarItems(v) + [PruneVariable(v)];
    }
  }

  /** pruneBody's loop: one pruned action per statement. */
  lemma {:induction false} BodyItemsOfList(ss: seq<Node>, line: int)
    ensures |BodyItems(BodyList(ss, line))| == |ss|
    ensures forall k :: 0 <= k < |ss| ==> BodyItems(BodyList(ss, line))[k] == PruneAction(ss[k])
    decreases |ss|
  {
    if ss != [] {
      BodyItemsOfList(ss[..|ss| - 1], line);
    }
  }

  /** pruneCallFunction's loop: one pruned expression per argument. */
  lemma {:induction false} ArgItemsOfList(es: seq<Node>, line: int)
    requires |es| > 0 && forall k :: 0 <= k < |es| ==> es[k].name == "expressao"
    ensures |ArgItems(ArgList(es, line))| == |es|
    ensures forall k :: 0 <= k < |es| ==> ArgItems(ArgList(es, line))[k] == PrunedExpr(es[k])
    decreases |es|
  {
    if |es| > 1 {
      ArgItemsOfList(es[..|es| - 1], line);
    }
  }

  /** An empty argument list stays a single vazio. */
  lemma ArgItemsOfVazio(line: int)
    ensures ArgItems(ListaArgumentos(None, "", Vazio(line), line)) == [Vazio(line)]
  {
  }

  /** pruneFunctionDeclaration's parameter loop: one pruned parameter per
      parameter. */
  lemma {:induction false} ParamItemsOfList(ps: seq<Node>, line: int)
    requires |ps| > 0 && forall k :: 0 <= k < |ps| ==> ps[k].name == "parametro"
    ensures |ParamItems(ParamList(ps, line))| == |ps|
    ensures forall k :: 0 <= k < |ps| ==> ParamItems(ParamList(ps, line))[k] == PruneParameter(ps[k])
    decreases |ps|
  {
    if |ps| > 1 {
      ParamItemsOfList(ps[..|ps| - 1], line);
    }
  }

  /** A scalar parameter is pruned to its type lexeme, ':' and its name. */
  lemma ScalarParameter(tipo: string, id: string, line: int)
    ensures var p := PruneParameter(Parametro(Tipo(tipo, line), ":", id, line));
            |p.children| == 3
            && p.children[0].name == tipo && p.children[1].name == ":" && p.children[2].name == id
  {
  }

  // ---------------------------------------------------------------------
  // Expressions.

  /** A binary level is pruned to the left operand's pieces, the leaf
      holding the operator symbol, and the right operand's pieces. */
  lemma BinaryLevel(name: string, kind: string, left: Node, op: Node, right: Node, line: int)
    requires name != "expressao_unaria" && |op.children| == 1
    ensures PruneExpression(Level(name, kind, left, Some(Rhs(op, right)), line))
            == PruneExpression(left) + [Child(op.children[0], 0)] + PruneExpression(right)
  {
  }

  /** With an additive operator the middle piece is the leaf holding '+'
      or '-'. */
  lemma AdditiveLevel(left: Node, lexeme: string, right: Node, line: int)
    ensures var pieces := PruneExpression(ExpressaoAditiva(left, Some(Rhs(OperadorSoma(lexeme, line), right)), line));
            var k := |PruneExpression(left)|;
            k < |pieces| && pieces[k].name == (if lexeme == "+" then "+" else "-")
  {
    BinaryLevel("expressao_aditiva", "EXPRESSAO_ADITIVA", left, OperadorSoma(lexeme, line), right, line);
  }

  // ---------------------------------------------------------------------
  // Argument count.

  /** getCountParameters counts one per argument expression. */
  lemma {:induction false} CountOfList(es: seq<Node>, line: int)
    requires |es| > 0 && forall k :: 0 <= k < |es| ==> es[k].name != "lista_argumentos"
    ensures GetCountParameters(ArgList(es, line)) == |es|
    decreases |es|
  {
    var n := ArgList(es, line);
    if |es| > 1 {
      CountOfList(es[..|es| - 1], line);
      assert n.children[1].name == "VIRGULA";
      assert Commas(n) == 1 + Commas(n.children[0]);
    } else {
      assert Commas(n) == Commas(es[0]) == 0;
    }
  }

  /** A call without arguments still counts one. */
  lemma CountOfVazio(line: int)
    ensures GetCountParameters(ListaArgumentos(None, "", Vazio(line), line)) == 1
  {
    var n := ListaArgumentos(None, "", Vazio(line), line);
    assert Commas(n) == Commas(Vazio(line)) == 0;
  }

  // ---------------------------------------------------------------------
  // Variables.

  /** A scalar variable is pruned to its identifier leaf. */
  lemma ScalarVariable(id: string, line: int)
    ensures PruneVariable(Var(id, None, line)).children == [Leaf(id, "ID", line)]
  {
  }

  /** One index: the identifier leaf, then the indice node holding '[',
      the pruned index expression and ']'. */
  lemma VectorVariable(id: string, e: Node, line: int)
    ensures var r := PruneVariable(Var(id, Some(Indice(None, "[", e, "]", line)), line));
            |r.children| == 2 && r.children[0] == Leaf(id, "ID", line) && r.children[1].name == "indice"
            && r.children[1].children == [Leaf("[", "SIMBOLO", line), PrunedExpr(e), Leaf("]", "SIMBOLO", line)]
  {
  }

  /** Two indices: six pieces, the pruned expressions at positions 1 and 4,
      where variableDeclaration and the operand reader look for them. */
  lemma MatrixVariable(id: string, e1: Node, e2: Node, line: int)
    ensures var r := PruneVariable(Var(id, Some(Indice(Some(Indice(None, "[", e1, "]", line)), "[", e2, "]", line)), line));
            |r.children| == 2 && r.children[0] == Leaf(id, "ID", line) && r.children[1].name == "indice"
            && r.children[1].children
               == [Leaf("[", "SIMBOLO", line), PrunedExpr(e1), Leaf("]", "SIMBOLO", line),
                   Leaf("[", "SIMBOLO", line), PrunedExpr(e2), Leaf("]", "SIMBOLO", line)]
  {
  }

  /** Declaring a pruned one-index variable gives it the type i32[1000],
      whatever type and size were declared. */
  lemma VectorDeclared(g: Ir.Gen, id: string, e: Node, ty: Ir.Ty, isGlobal: bool, line: int)
    ensures var v := PruneVariable(Var(id, Some(Indice(None, "[", e, "]", line)), line));
            var r := CodeGen.DeclareOne(g, v, ty, isGlobal);
            var t := Ir.ArrTy(Ir.IntTy, 1000);
            !r.0.failed ==> r.1 == (if isGlobal then Ir.GlobalV(id, t) else Ir.AllocaV(id, t))
  {
    VectorVariable(id, e, line);
  }

  /** Declaring a pruned two-index variable gives it ten arrays of
      i32[1000], whatever type and sizes were declared. */
  lemma MatrixDeclared(g: Ir.Gen, id: string, e1: Node, e2: Node, ty: Ir.Ty, isGlobal: bool, line: int)
    ensures var v := PruneVariable(Var(id, Some(Indice(Some(Indice(None, "[", e1, "]", line)), "[", e2, "]", line)), line));
            var r := CodeGen.DeclareOne(g, v, ty, isGlobal);
            var t := Ir.ArrTy(Ir.ArrTy(Ir.IntTy, 1000), 10);
            !r.0.failed ==> r.1 == (if isGlobal then Ir.GlobalV(id, t) else Ir.AllocaV(id, t))
  {
    MatrixVariable(id, e1, e2, line);
  }

  // ---------------------------------------------------------------------
  // Operands.

  /** The single-operand levels above an operand are skipped. */
  lemma OperandChain(u: Node, line: int)
    requires u.name == "expressao_unaria"
    ensures PruneExpression(Expressao(ExpressaoLogica(ExpressaoSimples(ExpressaoAditiva(
              ExpressaoMultiplicativa(u, None, line), None, line), None, line), None, line), line))
            == PruneExpression(u)
  {
    var m := ExpressaoMultiplicativa(u, None, line);
    var a := ExpressaoAditiva(m, None, line);
    var s := ExpressaoSimples(a, None, line);
    var l := ExpressaoLogica(s, None, line);
    assert PruneExpression(m) == PruneExpression(u);
    assert PruneExpression(a) == PruneExpression(m);
    assert PruneExpression(s) == PruneExpression(a);
    assert PruneExpression(l) == PruneExpression(s);
  }

  /** A number is pruned to its literal class wrapper. */
  lemma NumberOperand(text: string, line: int)
    ensures var pieces := PruneExpression(ExpressaoUnaria(Fator(Numero(text, line), line), None, line));
            |pieces| == 1 && Lexeme(pieces[0]) == text && pieces[0].name == NumberClass(text)
  {
  }

  /** A variable operand is pruned to the pruned variable. */
  lemma VariableOperand(v: Node, line: int)
    requires v.name == "var"
    ensures PruneExpression(ExpressaoUnaria(Fator(v, line), None, line)) == [PruneVariable(v)]
  {
  }

  /** A call operand is pruned to the pruned call. */
  lemma CallOperand(c: Node, line: int)
    requires c.name == "chamada_funcao"
    ensures PruneExpression(ExpressaoUnaria(Fator(c, line), None, line)) == [PruneCall(c)]
  {
  }

  /** A parenthesised expression: '(' then the inner pieces then ')'. */
  lemma ParenthesisedOperand(e: Node, line: int)
    ensures PruneExpression(ExpressaoUnaria(FatorParenteses("(", e, ")", line), None, line))
            == [Leaf("(", "SIMBOLO", line)] + PruneExpression(e) + [Leaf(")", "SIMBOLO", line)]
  {
  }

  /** A sign before a factor: the sign's leaf, then the children of the
      factor's operand, which are not pruned further. */
  lemma SignedOperand(lexeme: string, f: Node, line: int)
    ensures PruneExpression(ExpressaoUnaria(OperadorSoma(lexeme, line), Some(f), line))
            == [Leaf(if lexeme == "+" then "+" else "-", "SIMBOLO", line)] + Child(f, 0).children
  {
  }

  /** So a negated variable keeps its ID wrapper and loses its var node. */
  lemma NegatedVariable(id: string, line: int)
    ensures PruneExpression(ExpressaoUnaria(OperadorSoma("-", line), Some(Fator(Var(id, None, line), line)), line))
            == [Leaf("-", "SIMBOLO", line), Wrap("ID", "ID", id, "ID", line)]
  {
    SignedOperand("-", Fator(Var(id, None, line), line), line);
  }

  /** '!' before a factor gives the same shape with the leaf '!'. */
  lemma NegationOperand(f: Node, line: int)
    ensures PruneExpression(ExpressaoUnaria(OperadorNegacao("!", line).value, Some(f), line))
            == [Leaf("!", "SIMBOLO", line)] + Child(f, 0).children
  {
  }

  /** An assignment used where an expression goes (`x := y := 1`, which
      `expressao : atribuicao` admits): the source's pruneExpression walks
      the assigned variable down to its name leaf and raises IndexError
      there, so no tree is produced. The model does not fail: the variable
      contributes nothing, the `:=` a Missing piece, then the pruned
      right-hand side follows. */
  lemma AssignmentAsExpression(y: string, z: Node, line: int)
    ensures PruneExpression(Var(y, None, line)) == []
    ensures PruneExpression(Expressao(Atribuicao(Var(y, None, line), z, line), line))
            == [Missing] + PruneExpression(z)
  {
    var v := Var(y, None, line);
    assert PruneExpression(v) == PruneExpression(v.children[0]);
    var a := Atribuicao(v, z, line);
    assert Child(Child(a.children[1], 0), 0) == Missing;
  }

  // ---------------------------------------------------------------------
  // Statements and declarations.

  /** An assignment: the pruned variable, the ':=' leaf and the expression
      with pruned children, the statement renamed atribuicao. */
  lemma PrunedAssignment(v: Node, e: Node, line: int)
    ensures var r := PruneAction(Expressao(Atribuicao(v, e, line), line));
            r.name == "atribuicao"
            && r.children == [PruneVariable(v), Leaf(":=", "SIMBOLO", line), PrunedExpr(e)]
  {
  }

  /** leia, escreva and retorna: keyword, '(', the pruned variable (leia)
      or expression, ')'. */
  lemma PrunedSpecial(name: string, kind: string, keyword: string, operand: Node, line: int)
    ensures PruneSpecial(KeywordCall(name, kind, keyword, operand, line)).children
            == [Leaf(keyword, kind, line), Leaf("(", "SIMBOLO", line),
                if name == "leia" then PruneVariable(operand) else PrunedExpr(operand),
                Leaf(")", "SIMBOLO", line)]
  {
  }

  /** repita: the keyword, the pruned body, ate, the pruned condition. */
  lemma PrunedRepeat(repita: string, body: Node, ate: string, cond: Node, line: int)
    ensures PruneRepeat(Repita(repita, body, ate, cond, line)).children
            == [Leaf(repita, "REPITA", line), PruneBody(body), Leaf(ate, "ATE", line), PrunedExpr(cond)]
  {
  }

  /** A one-armed se: the condition at 1, the body at 3, the closing
      wrapper kept at 4. */
  lemma PrunedOneArmed(se: string, cond: Node, entao: string, body: Node, fim: string, line: int)
    ensures PruneIf(Se(se, cond, entao, body, None, fim, line)).children
            == [Leaf(se, "SE", line), PrunedExpr(cond), Leaf(entao, "ENTAO", line), PruneBody(body),
                Wrap("fim", "FIM", fim, "FIM", line)]
  {
  }

  /** A two-armed se: the condition at 1, the bodies at 3 and 5, the
      senao and closing wrappers kept at 4 and 6. */
  lemma PrunedTwoArmed(se: string, cond: Node, entao: string, body: Node, senao: string, other: Node,
                       fim: string, line: int)
    ensures PruneIf(Se(se, cond, entao, body, Some(ElsePart(senao, other)), fim, line)).children
            == [Leaf(se, "SE", line), PrunedExpr(cond), Leaf(entao, "ENTAO", line), PruneBody(body),
                Wrap("SENAO", "SENAO", senao, "SENAO", line), PruneBody(other), Wrap("FIM", "FIM", fim, "FIM", line)]
  {
  }

  /** A call: the name leaf, '(', the argument list with its items
      flattened, ')'. */
  lemma PrunedCall(id: string, args: Node, line: int)
    requires args.name == "lista_argumentos"
    ensures PruneCall(ChamadaFuncao(id, "(", args, ")", line)).children
            == [Leaf(id, "ID", line), Leaf("(", "SIMBOLO", line), args.(children := ArgItems(args)),
                Leaf(")", "SIMBOLO", line)]
  {
    var c := ChamadaFuncao(id, "(", args, ")", line);
    assert |c.children| == 4 && Child(c.children[0], 0).children == [] && c.children[2] == args;
    assert Unwrapped(c.children[0].name) && Unwrapped(c.children[1].name) && Unwrapped(c.children[3].name) by {
      UnwrappedTokens();
    }
    CallOf(c);
    assert c.children[0].children == [Leaf(id, "ID", line)] && c.children[1].children == [Leaf("(", "SIMBOLO", line)];
    assert c.children[3].children == [Leaf(")", "SIMBOLO", line)];
    JoinFour(c.children[0].children, c.children[1].children, args.(children := ArgItems(args)), c.children[3].children,
             Leaf(id, "ID", line), Leaf("(", "SIMBOLO", line), Leaf(")", "SIMBOLO", line));
  }

  /** Two one-node lists, a node and a one-node list joined: the four in order. */
  lemma JoinFour(p: seq<Node>, q: seq<Node>, x: Node, s: seq<Node>, a: Node, b: Node, d: Node)
    requires p == [a] && q == [b] && s == [d]
    ensures p + q + [x] + s == [a, b, x, d]
  {
  }

  /** The token wrappers of calls and headers are replaced by their
      children. */
  lemma UnwrappedTokens()
    ensures Unwrapped("ID") && Unwrapped("ABRE_PARENTESE") && Unwrapped("FECHA_PARENTESE") && Unwrapped("FIM")
  {
  }

  /** A call of four children whose first three are wrappers: its pieces
      are the wrappers' children around the flattened arguments. */
  lemma CallOf(c: Node)
    requires |c.children| == 4 && Child(c.children[0], 0).children == []
    requires Unwrapped(c.children[0].name) && Unwrapped(c.children[1].name) && Unwrapped(c.children[3].name)
    requires c.children[2].name == "lista_argumentos"
    ensures PruneCall(c).children
            == c.children[0].children + c.children[1].children
               + [c.children[2].(children := ArgItems(c.children[2]))] + c.children[3].children
  {
    CallPiecesOf(c.children);
  }

  /** The pieces of the four children of a call, one by one. */
  lemma CallPiecesOf(cs: seq<Node>)
    requires |cs| == 4 && Unwrapped(cs[0].name) && Unwrapped(cs[1].name) && Unwrapped(cs[3].name)
    requires cs[2].name == "lista_argumentos"
    ensures CallPieces(cs) == cs[0].children + cs[1].children + [cs[2].(children := ArgItems(cs[2]))] + cs[3].children
  {
    var p3 := CallPieces(cs[3..]);
    assert p3 == cs[3].children by {
      assert cs[3..][0] == cs[3] && cs[3..][1..] == [];
      assert CallPieces(cs[3..][1..]) == [];
      assert cs[3].children + [] == cs[3].children;
    }
    var p2 := CallPieces(cs[2..]);
    assert p2 == [cs[2].(children := ArgItems(cs[2]))] + p3 by {
      assert cs[2..][0] == cs[2] && cs[2..][1..] == cs[3..];
    }
    var p1 := CallPieces(cs[1..]);
    assert p1 == cs[1].children + p2 by {
      assert cs[1..][0] == cs[1] && cs[1..][1..] == cs[2..];
    }
  }

  /** A body: one pruned action per statement, in order. */
  lemma PrunedBody(ss: seq<Node>, line: int)
    ensures var r := PruneBody(BodyList(ss, line));
            r.name == "corpo" && |r.children| == |ss|
            && forall k :: 0 <= k < |ss| ==> r.children[k] == PruneAction(ss[k])
  {
    BodyItemsOfList(ss, line);
  }

  /** A variable declaration: the type leaf, ':', and the variable list
      holding one pruned variable per variable. */
  lemma PrunedVarDecl(tipo: string, vs: seq<Node>, line: int)
    requires |vs| > 0 && forall k :: 0 <= k < |vs| ==> vs[k].name == "var"
    ensures var r := PruneVarDecl(DeclaracaoVariaveis(Tipo(tipo, line), ":", VarList(vs, line), line));
            |r.children| == 3 && r.children[0] == Leaf(tipo, Upper(tipo), line)
            && r.children[1] == Leaf(":", "SIMBOLO", line)
            && |r.children[2].children| == |vs|
            && forall k :: 0 <= k < |vs| ==> r.children[2].children[k] == PruneVariable(vs[k])
  {
    VarItemsOfList(vs, line);
  }

  /** An initialisation: the assignment inside pruned. */
  lemma PrunedInit(v: Node, e: Node, line: int)
    ensures PruneInit(InicializacaoVariaveis(Atribuicao(v, e, line), line)).children
            == [Atribuicao(v, e, line).(children := [PruneVariable(v), Leaf(":=", "SIMBOLO", line), PrunedExpr(e)])]
  {
  }

  /** An array parameter: type, ':', name, '[', ']'. */
  lemma ArrayParameter(tipo: string, id: string, line: int)
    ensures PruneParameter(Parametro(Parametro(Tipo(tipo, line), ":", id, line), "[", "]", line)).children
            == [Leaf(tipo, Upper(tipo), line), Leaf(":", "SIMBOLO", line), Leaf(id, "ID", line),
                Leaf("[", "SIMBOLO", line), Leaf("]", "SIMBOLO", line)]
  {
    var inner := Parametro(Tipo(tipo, line), ":", id, line);
    assert ParamPieces(inner) == [Leaf(tipo, Upper(tipo), line), Leaf(":", "SIMBOLO", line), Leaf(id, "ID", line)];
  }

  /** A typed function: the type leaf, then the header's name, '(', the
      flattened parameters, ')', the pruned body and 'fim', so that the
      name, parameters and body sit at 1, 3 and 5. */
  lemma PrunedTypedFunction(tipo: string, id: string, params: Node, corpo: Node, line: int)
    requires params.name == "lista_parametros" && corpo.name == "corpo"
    ensures PruneFunctionDeclaration(DeclaracaoFuncao(Some(Tipo(tipo, line)), Cabecalho(id, params, corpo, line), line)).children
            == [Leaf(tipo, Upper(tipo), line), Leaf(id, "ID", line), Leaf("(", "SIMBOLO", line),
                params.(children := ParamItems(params)), Leaf(")", "SIMBOLO", line), PruneBody(corpo),
                Leaf("fim", "FIM", line)]
  {
    TypeLeafOf(tipo, line);
    HeaderPiecesOf(id, params, corpo, line);
    TypedDeclarationOf(Tipo(tipo, line), Cabecalho(id, params, corpo, line), line, Leaf(tipo, Upper(tipo), line));
    PrependSix(Leaf(tipo, Upper(tipo), line), Leaf(id, "ID", line), Leaf("(", "SIMBOLO", line),
               params.(children := ParamItems(params)), Leaf(")", "SIMBOLO", line), PruneBody(corpo),
               Leaf("fim", "FIM", line));
  }

  /** One node put in front of six: the seven in order. */
  lemma PrependSix(x: Node, a: Node, b: Node, c: Node, d: Node, e: Node, f: Node)
    ensures [x] + [a, b, c, d, e, f] == [x, a, b, c, d, e, f]
  {
  }

  /** The type keyword of a declaration is one leaf. */
  lemma TypeLeafOf(tipo: string, line: int)
    ensures Child(Tipo(tipo, line), 0).children == [Leaf(tipo, Upper(tipo), line)]
  {
  }

  /** A typed declaration prunes to the type leaf followed by the header's pieces. */
  lemma TypedDeclarationOf(t: Node, h: Node, line: int, lead: Node)
    requires Child(t, 0).children == [lead]
    ensures PruneFunctionDeclaration(DeclaracaoFuncao(Some(t), h, line)).children == [lead] + HeaderPieces(h.children)
  {
    assert DeclaracaoFuncao(Some(t), h, line).children == [t, h];
  }

  /** The pieces of a header: name, '(', parameters, ')', body, 'fim'. */
  lemma HeaderPiecesOf(id: string, params: Node, corpo: Node, line: int)
    requires params.name == "lista_parametros" && corpo.name == "corpo"
    ensures HeaderPieces(Cabecalho(id, params, corpo, line).children)
            == [Leaf(id, "ID", line), Leaf("(", "SIMBOLO", line), params.(children := ParamItems(params)),
                Leaf(")", "SIMBOLO", line), PruneBody(corpo), Leaf("fim", "FIM", line)]
  {
    var cs := Cabecalho(id, params, corpo, line).children;
    var ps := params.(children := ParamItems(params));
    var b := PruneBody(corpo);
    var open, close, fim := Leaf("(", "SIMBOLO", line), Leaf(")", "SIMBOLO", line), Leaf("fim", "FIM", line);
    assert HeaderPieces(cs[5..]) == [fim] by {
      assert cs[5..][1..] == [];
    }
    assert HeaderPieces(cs[4..]) == [b, fim] by {
      assert cs[4..][1..] == cs[5..];
    }
    assert HeaderPieces(cs[3..]) == [close, b, fim] by {
      assert cs[3..][1..] == cs[4..];
    }
    assert HeaderPieces(cs[2..]) == [ps, close, b, fim] by {
      assert cs[2..][1..] == cs[3..];
    }
    assert HeaderPieces(cs[1..]) == [open, ps, close, b, fim] by {
      assert cs[1..][1..] == cs[2..];
    }
  }

  /** A function without a type keeps its header's children unpruned: its
      first child is the ID wrapper, not the name. */
  lemma PrunedUntypedFunction(id: string, params: Node, corpo: Node, line: int)
    ensures var r := PruneFunctionDeclaration(DeclaracaoFuncao(None, Cabecalho(id, params, corpo, line), line));
            r.children == Cabecalho(id, params, corpo, line).children && r.children[0].name == "ID"
  {
  }
}
