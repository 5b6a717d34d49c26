/** The tree pruner of tppsema.py (pruneDeclaration ... pruneBody,
    pruneExpression). The source rewrites `children` in place; here each
    prune function returns the rewritten node. Where the source would index
    past the end of a child list, the model keeps the node unchanged, uses
    the Missing placeholder, or contributes nothing, as noted at each place.
    The parser does build one such shape: an assignment used as an
    expression (`expressao : atribuicao`), on which the source raises
    IndexError and the model yields pieces (Lists.AssignmentAsExpression).

    The left-recursive lists are walked by the source in `while` loops that
    prepend to a tuple; those loops are the methods at the end of the
    module, each proved to compute the recursive definition above it. */
module Prune {
  import opened Cst

  /** The token wrappers that are replaced by their children (list_string). */
  predicate Unwrapped(name: string)
  {
    name in ["ID", "ABRE_PARENTESE", "FECHA_PARENTESE", "FIM", "abre_colchete", "fecha_colchete"]
  }

  // ---------------------------------------------------------------------
  // Expressions, variables and calls.

  /** pruneExpression: single-child levels are skipped until an
      expressao_unaria or a level with more than one child; a unary level
      gives its factor's pieces, a binary level the left pieces, the
      operator symbol and the right pieces. */
  function PruneExpression(t: Node): seq<Node>
    decreases t, 0
  {
    if |t.children| == 1 && t.name != "expressao_unaria" then PruneExpression(t.children[0])
    else if |t.children| == 0 then []
    else if t.name == "expressao_unaria" then
      var f := t.children[0];
      if |t.children| == 1 then
        if |f.children| == 0 then []
        else
          var first := f.children[0];
          if first.name == "chamada_funcao" then [PruneCall(first)]
          else if first.name == "var" then [PruneVariable(first)]
          else if first.name == "numero" then first.children
          else
            // a parenthesised factor: '(' + inner pieces + ')'
            first.children + (if |f.children| > 1 then PruneExpression(f.children[1]) else [])
            + Child(f, 2).children
      else
        // an operator before the factor: its symbol, then the children of
        // the factor's first child (not pruned further)
        Child(f, 0).children + Child(t.children[1], 0).children
    else
      PruneExpression(t.children[0]) + [Child(Child(t.children[1], 0), 0)]
      + (if |t.children| > 2 then PruneExpression(t.children[2]) else [])
  }

  /** An expression node whose children are replaced by its pruned pieces. */
  function PrunedExpr(e: Node): (r: Node)
    ensures r.name == e.name && r.kind == e.kind && r.line == e.line
    decreases e, 1
  {
    e.(children := PruneExpression(e))
  }

  /** pruneVariable: the identifier leaf, then for an indexed variable the
      indice node with its brackets unwrapped and its expressions pruned. */
  function PruneVariable(v: Node): (r: Node)
    ensures |r.children| == (if |v.children| > 1 then 2 else 1)
    ensures r.children[0] == Child(Child(v, 0), 0)
    decreases v, 0
  {
    var dec := [Child(Child(v, 0), 0)];
    if |v.children| > 1 then
      var ind := v.children[1];
      var a := ind.children;
      var dec1 :=
        if |a| == 4 then
          var inner := a[0];
          Child(inner, 0).children
          + [if 1 < |inner.children| then PrunedExpr(inner.children[1]) else Missing]
          + Child(inner, 2).children + a[1].children + [PrunedExpr(a[2])] + a[3].children
        else
          Child(ind, 0).children
          + [if 1 < |a| then PrunedExpr(a[1]) else Missing]
          + Child(ind, 2).children;
      v.(children := dec + [ind.(children := dec1)])
    else v.(children := dec)
  }

  /** pruneCallFunction: the identifier, the parentheses and the argument
      list, unwrapped, with the arguments flattened. */
  function PruneCall(c: Node): Node
    decreases c, 1
  {
    if |c.children| == 1 then c.(children := c.children[0].children)
    else if |c.children| == 0 then c
    else c.(children := Child(c.children[0], 0).children + CallPieces(c.children))
  }

  /** The pieces each child of a chamada_funcao contributes. */
  function CallPieces(cs: seq<Node>): seq<Node>
    decreases cs, 0
  {
    if cs == [] then []
    else
      var x := cs[0];
      (if Unwrapped(x.name) then x.children
       else if x.name == "lista_argumentos" then [x.(children := ArgItems(x))]
       else [x])
      + CallPieces(cs[1..])
  }

  /** The flattened argument list: vazio kept, every argument an expressao
      with pruned children, first argument first. */
  function ArgItems(item: Node): seq<Node>
    decreases item, 0
  {
    if item.name != "lista_argumentos" || |item.children| == 0 then []
    else
      ArgItems(item.children[0])
      + [if item.children[0].name == "vazio" then item.children[0]
         else if |item.children| == 1 then PrunedExpr(item.children[0])
         else if |item.children| > 2 then PrunedExpr(item.children[2])
         else Missing]
  }

  // ---------------------------------------------------------------------
  // Statements.

  /** pruneAssignment: the pruned variable, the ':=' leaf, the expression. */
  function PruneAssignment(a: Node): (r: Node)
    ensures |a.children| >= 3 ==> |r.children| == 3 && r.children[0] == PruneVariable(a.children[0])
    decreases a, 2
  {
    if |a.children| < 3 then a
    else a.(children := [PruneVariable(a.children[0]), Child(a.children[1], 0), PrunedExpr(a.children[2])])
  }

  /** pruneSpecialFunctions (leia, escreva, retorna): keyword, '(', the
      pruned variable (leia) or expression, ')'. */
  function PruneSpecial(t: Node): Node
    decreases t, 2
  {
    if |t.children| < 4 then t
    else
      t.(children := t.children[0].children + t.children[1].children
                     + [if t.name == "leia" then PruneVariable(t.children[2]) else PrunedExpr(t.children[2])]
                     + t.children[3].children)
  }

  /** pruneIf: SE unwrapped, the pruned condition, ENTAO unwrapped, the
      pruned body, then FIM, or SENAO, the pruned else body and FIM, kept
      wrapped. */
  function PruneIf(t: Node): Node
    decreases t, 2
  {
    if !(|t.children| == 5 || |t.children| >= 7) then t
    else
      t.(children := t.children[0].children + [PrunedExpr(t.children[1])] + t.children[2].children
                     + [PruneBody(t.children[3])]
                     + (if |t.children| == 5 then [t.children[4]]
                        else [t.children[4], PruneBody(t.children[5]), t.children[6]]))
  }

  /** pruneRepeat: REPITA unwrapped, the pruned body, ATE unwrapped, the
      pruned condition. */
  function PruneRepeat(t: Node): Node
    decreases t, 2
  {
    if |t.children| < 4 then t
    else
      t.(children := t.children[0].children + [PruneBody(t.children[1])] + t.children[2].children
                     + [PrunedExpr(t.children[3])])
  }

  /** The pruned form of one action of a body. */
  function PruneAction(a: Node): Node
    decreases a, 3
  {
    if a.name == "expressao" then
      if |a.children| > 0 && a.children[0].name == "atribuicao" then PruneAssignment(a.children[0])
      else PrunedExpr(a)
    else if a.name == "declaracao_variaveis" then PruneVarDecl(a)
    else if a.name == "se" then PruneIf(a)
    else if a.name == "repita" then PruneRepeat(a)
    else PruneSpecial(a)
  }

  /** The flattened body: one pruned action per acao, first action first. */
  function BodyItems(item: Node): seq<Node>
    decreases item, 0
  {
    if item.name != "corpo" || |item.children| == 0 then []
    else
      BodyItems(item.children[0])
      + (if |item.children| == 2 && |item.children[1].children| > 0
         then [PruneAction(item.children[1].children[0])] else [])
  }

  /** pruneBody. */
  function PruneBody(c: Node): Node
    decreases c, 1
  {
    c.(children := BodyItems(c))
  }

  // ---------------------------------------------------------------------
  // Declarations.

  /** The flattened variable list: one pruned variable per item. */
  function VarItems(item: Node): seq<Node>
    decreases item, 0
  {
    if item.name != "lista_variaveis" || |item.children| == 0 then []
    else
      VarItems(item.children[0])
      + [if |item.children| == 1 then PruneVariable(item.children[0])
         else if |item.children| > 2 then PruneVariable(item.children[2])
         else Missing]
  }

  /** pruneVaribleDeclaration: the type lexeme, ':', and the flattened
      variable list. */
  function PruneVarDecl(d: Node): (r: Node)
    ensures |d.children| >= 3 ==>
              |r.children| == |Child(d.children[0], 0).children| + |d.children[1].children| + 1
              && r.children[|r.children| - 1] == d.children[2].(children := VarItems(d.children[2]))
    decreases d, 2
  {
    if |d.children| < 3 then d
    else
      d.(children := Child(d.children[0], 0).children + d.children[1].children
                     + [d.children[2].(children := VarItems(d.children[2]))])
  }

  /** The pieces of one parametro: type lexeme, ':', name, then '[' ']' per
      array dimension. */
  function ParamPieces(item: Node): seq<Node>
  {
    if item.name != "parametro" || |item.children| == 0 then []
    else if item.children[0].name == "parametro" then
      ParamPieces(item.children[0]) + Child(item, 1).children + Child(item, 2).children
    else
      Child(item.children[0], 0).children + Child(item, 1).children + Child(item, 2).children
  }

  /** pruneParameter. */
  function PruneParameter(p: Node): Node
  {
    p.(children := ParamPieces(p))
  }

  /** The flattened parameter list: vazio kept, one pruned parameter per
      item, first parameter first. */
  function ParamItems(item: Node): seq<Node>
  {
    if item.name != "lista_parametros" || |item.children| == 0 then []
    else
      ParamItems(item.children[0])
      + [if item.children[0].name == "vazio" then item.children[0]
         else if |item.children| == 1 then PruneParameter(item.children[0])
         else PruneParameter(Child(item, 2))]
  }

  /** The pieces each child of a typed function's cabecalho contributes. */
  function HeaderPieces(cs: seq<Node>): seq<Node>
  {
    if cs == [] then []
    else
      var x := cs[0];
      (if Unwrapped(x.name) then x.children
       else if x.name == "corpo" then [PruneBody(x)]
       else if x.name == "lista_parametros" then [x.(children := ParamItems(x))]
       else [x])
      + HeaderPieces(cs[1..])
  }

  /** pruneFunctionDeclaration: a function without a type keeps the
      children of its cabecalho as they are (nothing inside is pruned); a
      typed one gets the type lexeme followed by the cabecalho's pieces. */
  function PruneFunctionDeclaration(d: Node): (r: Node)
    ensures |d.children| == 1 ==> r.children == d.children[0].children
    ensures |d.children| >= 2 ==>
              r.children == Child(d.children[0], 0).children + HeaderPieces(d.children[1].children)
  {
    if |d.children| == 1 then d.(children := d.children[0].children)
    else if |d.children| == 0 then d
    else d.(children := Child(d.children[0], 0).children + HeaderPieces(d.children[1].children))
  }

  /** pruneInitVariable: the assignment inside is pruned. */
  function PruneInit(i: Node): Node
  {
    if |i.children| == 0 then i
    else i.(children := [PruneAssignment(i.children[0])] + i.children[1..])
  }

  /** The pruning of one top-level declaration. */
  function PruneDecl(i: Node): Node
  {
    if i.name == "declaracao_funcao" then PruneFunctionDeclaration(i)
    else if i.name == "declaracao_variaveis" then PruneVarDecl(i)
    else PruneInit(i)
  }

  /** The declarations of the list, first declaration first. */
  function DeclItems(item: Node): seq<Node>
  {
    if item.name != "lista_declaracoes" || |item.children| == 0 then []
    else
      DeclItems(item.children[0])
      + (if |item.children| == 1 then item.children[0] else Child(item, 1)).children
  }

  function PruneDecls(ds: seq<Node>): (r: seq<Node>)
    ensures |r| == |ds|
    ensures forall k :: 0 <= k < |ds| ==> r[k] == PruneDecl(ds[k])
  {
    if ds == [] then [] else [PruneDecl(ds[0])] + PruneDecls(ds[1..])
  }

  /** pruneDeclaration / pruneTree: the root's lista_declaracoes gets the
      flattened, pruned declarations as its children. */
  function PruneTree(root: Node): (r: Node)
    ensures |r.children| == |root.children|
    ensures |root.children| > 0 ==>
              r.children[0].name == root.children[0].name
              && r.children[0].children == PruneDecls(DeclItems(root.children[0]))
  {
    if |root.children| == 0 then root
    else
      var lista := root.children[0];
      root.(children := [lista.(children := PruneDecls(DeclItems(lista)))] + root.children[1..])
  }

  // ---------------------------------------------------------------------
  // The source's loops.

  /** The skipping loop at the head of pruneExpression. */
  method SkipChain(t: Node) returns (n: Node)
    ensures PruneExpression(n) == PruneExpression(t)
    ensures |n.children| != 1 || n.name == "expressao_unaria"
  {
    n := t;
    while |n.children| == 1 && n.name != "expressao_unaria"
      invariant PruneExpression(n) == PruneExpression(t)
      decreases n
    {
      n := n.children[0];
    }
  }

  /** pruneDeclaration / pruneTree: the while loop collects the
      declarations, the for loop prunes each. */
  method PruneDeclaration(root: Node) returns (r: Node)
    ensures r == PruneTree(root)
  {
    if |root.children| == 0 {
      return root;
    }
    var lista := root.children[0];
    var dec := DeclarationSpine(lista);
    var pruned := PruneEach(dec);
    r := root.(children := [lista.(children := pruned)] + root.children[1..]);
  }

  /** The while loop of pruneDeclaration. */
  method DeclarationSpine(lista: Node) returns (dec: seq<Node>)
    ensures dec == DeclItems(lista)
  {
    var item := lista;
    dec := [];
    while item.name == "lista_declaracoes" && |item.children| > 0
      invariant DeclItems(lista) == DeclItems(item) + dec
      decreases item
    {
      var node := if |item.children| == 1 then item.children[0] else Child(item, 1);
      dec := node.children + dec;
      item := item.children[0];
    }
  }

  /** The for loop of pruneDeclaration. */
  method PruneEach(dec: seq<Node>) returns (pruned: seq<Node>)
    ensures pruned == PruneDecls(dec)
  {
    pruned := [];
    for k := 0 to |dec|
      invariant pruned == PruneDecls(dec[..k])
    {
      PruneDeclsSnoc(dec[..k], dec[k]);
      assert dec[..k + 1] == dec[..k] + [dec[k]];
      pruned := pruned + [PruneDecl(dec[k])];
    }
    assert dec[..|dec|] == dec;
  }

  lemma PruneDeclsSnoc(ds: seq<Node>, d: Node)
    ensures PruneDecls(ds + [d]) == PruneDecls(ds) + [PruneDecl(d)]
  {
  }

  /** The while loop of pruneBody. */
  method BodySpine(tree: Node) returns (dec: seq<Node>)
    ensures dec == BodyItems(tree)
  {
    var item := tree;
    dec := [];
    while item.name == "corpo" && |item.children| > 0
      invariant BodyItems(tree) == BodyItems(item) + dec
      decreases item
    {
      if |item.children| == 2 && |item.children[1].children| > 0 {
        dec := [PruneAction(item.children[1].children[0])] + dec;
      }
      item := item.children[0];
    }
  }

  /** The while loop of pruneVaribleDeclaration. */
  method VariableSpine(tree: Node) returns (dec1: seq<Node>)
    ensures dec1 == VarItems(tree)
  {
    var item := tree;
    dec1 := [];
    while item.name == "lista_variaveis" && |item.children| > 0
      invariant VarItems(tree) == VarItems(item) + dec1
      decreases item
    {
      var v := if |item.children| == 1 then PruneVariable(item.children[0])
               else if |item.children| > 2 then PruneVariable(item.children[2])
               else Missing;
      dec1 := [v] + dec1;
      item := item.children[0];
    }
  }

  /** The while loop of pruneParameter. */
  method ParameterSpine(tree: Node) returns (dec: seq<Node>)
    ensures dec == ParamPieces(tree)
  {
    var item := tree;
    dec := [];
    while item.name == "parametro" && |item.children| > 0
      invariant ParamPieces(tree) == ParamPieces(item) + dec
      decreases item
    {
      if item.children[0].name == "parametro" {
        dec := Child(item, 2).children + dec;
        dec := Child(item, 1).children + dec;
      } else {
        dec := Child(item, 2).children + dec;
        dec := Child(item, 1).children + dec;
        dec := Child(item.children[0], 0).children + dec;
      }
      item := item.children[0];
    }
  }

  /** The parameter-list while loop of pruneFunctionDeclaration. */
  method ParameterListSpine(child: Node) returns (dec1: seq<Node>)
    ensures dec1 == ParamItems(child)
  {
    var item := child;
    dec1 := [];
    while item.name == "lista_parametros" && |item.children| > 0
      invariant ParamItems(child) == ParamItems(item) + dec1
      decreases item
    {
      var p;
      if item.children[0].name == "vazio" {
        p := item.children[0];
      } else if |item.children| == 1 {
        p := PruneParameter(item.children[0]);
      } else {
        p := PruneParameter(Child(item, 2));
      }
      dec1 := [p] + dec1;
      item := item.children[0];
    }
  }

  /** The argument-list while loop of pruneCallFunction. */
  method ArgumentSpine(child: Node) returns (dec1: seq<Node>)
    ensures dec1 == ArgItems(child)
  {
    var item := child;
    dec1 := [];
    while item.name == "lista_argumentos" && |item.children| > 0
      invariant ArgItems(child) == ArgItems(item) + dec1
      decreases item
    {
      var a;
      if item.children[0].name == "vazio" {
        a := item.children[0];
      } else if |item.children| == 1 {
        a := PrunedExpr(item.children[0]);
      } else if |item.children| > 2 {
        a := PrunedExpr(item.children[2]);
      } else {
        a := Missing;
      }
      dec1 := [a] + dec1;
      item := item.children[0];
    }
  }
}
