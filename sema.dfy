/** The semantic analyser of tppsema.py: the table-building pass, the
    init/used marking, the write-once error list and the checks run by
    checkRules. Every message the source prints is a Diag appended to a log.

    The first half gives each pass as a function from the analyser's state
    (a World) to the new state or to the diagnostics it prints; the second
    half is the analyser itself, a class whose methods walk the same lists
    with loops and are proved to reach exactly those states. */
module Sema {
  import opened Cst
  import opened SymbolTable

  /** The analyser's state: the symbol table, the error list variablesError
      and the diagnostics printed so far. */
  datatype World = World(table: seq<Entry>, errors: seq<ErrPair>, log: seq<Diag>)

  /** No later entry of the table is visible, under its own name and scope,
      through an earlier one: a redeclaration is never appended. */
  predicate FirstWins(t: seq<Entry>)
  {
    forall i, j :: 0 <= i < j < |t| ==> !Owns(t[i], t[j].name, t[j].scope)
  }

  /** The invariant the passes keep: no pair in the error list twice, no
      redeclaration in the table. */
  predicate Good(w: World)
  {
    NoDuplicates(w.errors) && FirstWins(w.table)
  }

  // ---------------------------------------------------------------------
  // The error list.

  /** A guarded addVaribleError followed by the print of key: the pair is
      recorded and the message logged only if the pair is new. */
  function ReportOnce(w: World, name: string, scope: string, key: string): (r: World)
    ensures r.table == w.table && HasError(r.errors, name, scope)
    ensures w.errors <= r.errors && w.log <= r.log
    ensures HasError(w.errors, name, scope) ==> r == w
    ensures !HasError(w.errors, name, scope) ==>
              r.errors == w.errors + [ErrPair(name, scope)] && r.log == w.log + [Diag(key, [name])]
    ensures NoDuplicates(w.errors) ==> NoDuplicates(r.errors)
  {
    if HasError(w.errors, name, scope) then w
    else
      var r := World(w.table, w.errors + [ErrPair(name, scope)], w.log + [Diag(key, [name])]);
      assert r.errors[|w.errors|] == ErrPair(name, scope);
      r
  }

  // ---------------------------------------------------------------------
  // variableDeclaration: one scan of the pre-order list of a declaration.

  /** The locals of variableDeclaration while it scans. */
  datatype Scan = Scan(etype: string, line: Option<int>, token: string, name: string,
                       dim: int, d1: Size, d2: Size)

  const ScanStart: Scan := Scan("", None, "", "", 0, Count(1), Count(0))

  /** Python list indexing: a negative index counts from the end. */
  function PyAt(s: seq<Node>, i: int): Node
  {
    if i < 0 then At(s, |s| + i) else At(s, i)
  }

  /** One iteration of the scan at index i: a tipo sets the type and line
      two nodes ahead, an ID sets the name one node ahead, a closing bracket
      counts a dimension, reports a float index once, and records the
      index lexeme as the first or second size. */
  function ScanStep(rt: seq<Node>, i: nat, scope: string, st: Scan, w: World): (r: (Scan, World))
    requires i < |rt|
    ensures r.1.table == w.table && w.errors <= r.1.errors
    ensures NoDuplicates(w.errors) ==> NoDuplicates(r.1.errors)
  {
    var n := rt[i];
    if n.name == "tipo" then (st.(etype := At(rt, i + 2).name, line := At(rt, i + 2).line), w)
    else if n.name == "ID" then (st.(token := n.name, name := At(rt, i + 1).name), w)
    else if n.name == "fecha_colchete" then
      var dim := st.dim + 1;
      var w' := if PyAt(rt, i - 2).name == "NUM_PONTO_FLUTUANTE"
                then ReportOnce(w, st.name, scope, "ERR-SEM-ARRAY-INDEX-NOT-INT") else w;
      var index := Text(PyAt(rt, i - 1).name);
      (if dim == 2 then st.(dim := dim, d2 := index) else st.(dim := dim, d1 := index), w')
    else (st, w)
  }

  /** The scan from index i to the end. */
  function ScanFrom(rt: seq<Node>, i: nat, scope: string, st: Scan, w: World): (r: (Scan, World))
    ensures r.1.table == w.table && w.errors <= r.1.errors
    ensures NoDuplicates(w.errors) ==> NoDuplicates(r.1.errors)
    decreases |rt| - i
  {
    if i >= |rt| then (st, w)
    else
      var s := ScanStep(rt, i, scope, st, w);
      ScanFrom(rt, i + 1, scope, s.0, s.1)
  }

  /** The record variableDeclaration returns for a finished scan. */
  function VarEntry(st: Scan, scope: string): (e: Entry)
    ensures e.declKind == VarDecl && e.scope == scope && e.name == st.name
    ensures e.init == N && e.used == N && e.params == [] && e.errors == 0
  {
    Entry(VarDecl, st.etype, st.line, st.token, st.name, scope, N, N, st.dim, st.d1, st.d2, [], 0)
  }

  /** variableDeclaration: the record of the declaration at node, and the
      state after the errors it reported. */
  function VarDeclSpec(node: Node, scope: string, w: World): (r: (Entry, World))
    ensures r.0.scope == scope && r.0.declKind == VarDecl
    ensures r.1.table == w.table && w.errors <= r.1.errors
    ensures NoDuplicates(w.errors) ==> NoDuplicates(r.1.errors)
  {
    var s := ScanFrom(PreOrder(node), 0, scope, ScanStart, w);
    (VarEntry(s.0, scope), s.1)
  }

  // ---------------------------------------------------------------------
  // symbolTable and functionDeclaration.

  /** The parameters one header contributes: every parametro node under
      its third child, with the name three levels under its first child
      and the name under its third child. An array parameter is met twice,
      once as the outer node (giving the pair INTEIRO, "]") and once as
      the inner one. */
  function HeaderParams(ps: seq<Located>): (r: seq<Param>)
    ensures |r| == |ps|
    ensures forall k :: 0 <= k < |ps| ==>
              r[k] == Param(Child(Child(Child(ps[k].node, 0), 0), 0).name, Lexeme(Child(ps[k].node, 2)))
  {
    if ps == [] then []
    else
      var p := ps[0].node;
      [Param(Child(Child(Child(p, 0), 0), 0).name, Lexeme(Child(p, 2)))] + HeaderParams(ps[1..])
  }

  /** parametersDeclaration over the pre-order list of a declaration. */
  function ParametersDeclaration(item: seq<Node>): seq<Param>
  {
    if item == [] then []
    else
      var here := if item[0].name == "cabecalho"
                  then HeaderParams(FindAll(Located(Child(item[0], 2), []), "parametro")) else [];
      here + ParametersDeclaration(item[1..])
  }

  /** The function record symbolTable builds from the pre-order list of a
      declaration: with a tipo the name, token and type sit at indices 7, 6
      and 4, without one at 4 and 3 and the type is vazio. principal is
      entered as used ('S'), every other function as unused. */
  function FuncEntry(item: seq<Node>): (e: Entry)
    ensures e.declKind == FuncDecl && e.scope == "global"
    ensures e.used == S <==> e.name == "principal"
    ensures e.used == S || e.used == N
    ensures At(item, 2).name == "tipo" ==> e.name == At(item, 7).name && e.etype == At(item, 4).name
    ensures At(item, 2).name != "tipo" ==> e.name == At(item, 4).name && e.etype == "vazio"
  {
    var typed := At(item, 2).name == "tipo";
    var name := if typed then At(item, 7).name else At(item, 4).name;
    var token := if typed then At(item, 6).name else At(item, 3).name;
    var ty := if typed then At(item, 4).name else "vazio";
    Entry(FuncDecl, ty, At(item, 4).line, token, name, "global", N,
          if name == "principal" then S else N, 0, Count(1), Count(0), ParametersDeclaration(item), 0)
  }

  /** Appending e keeps FirstWins when nothing visible under e's name and
      scope is already in the table. */
  lemma AppendFresh(t: seq<Entry>, e: Entry)
    requires FirstWins(t) && !IsDeclared(t, e.name, e.scope)
    ensures FirstWins(t + [e])
  {
    forall i, j | 0 <= i < j < |t + [e]|
      ensures !Owns((t + [e])[i], (t + [e])[j].name, (t + [e])[j].scope)
    {
      if j == |t| {
        assert !Hit(t[i], e.name, e.scope);
      } else {
        assert (t + [e])[i] == t[i] && (t + [e])[j] == t[j];
      }
    }
  }

  /** Declare the variable record v in scope: the previous-declaration
      warning if it is visible already, otherwise an append. */
  function Declare(v: Entry, scope: string, key: string, w: World): (r: World)
    requires v.scope == scope
    ensures r.errors == w.errors
    ensures IsDeclared(w.table, v.name, scope) ==> r.table == w.table && |r.log| == |w.log| + 1
    ensures !IsDeclared(w.table, v.name, scope) ==> r.table == w.table + [v] && r.log == w.log
    ensures FirstWins(w.table) ==> FirstWins(r.table)
    ensures w.table <= r.table && IsDeclared(r.table, v.name, scope)
  {
    if IsDeclared(w.table, v.name, scope) then
      w.(log := w.log + [Diag(key, [v.name, GetType(w.table, v.name, scope).value])])
    else
      assert FirstWins(w.table) ==> FirstWins(w.table + [v]) by {
        if FirstWins(w.table) { AppendFresh(w.table, v); }
      }
      assert Hit((w.table + [v])[|w.table|], v.name, scope);
      w.(table := w.table + [v])
  }

  /** A name visible in a table stays visible in any extension of it. */
  lemma DeclaredStaysDeclared(t: seq<Entry>, t': seq<Entry>, name: string, scope: string)
    requires t <= t' && IsDeclared(t, name, scope)
    ensures IsDeclared(t', name, scope)
  {
    var i :| 0 <= i < |t| && Hit(t[i], name, scope);
    assert t'[i] == t[i];
  }

  /** One declaracao_variaveis inside a function: scan it, then declare it
      in the function's scope. */
  function LocalStep(p: Located, scope: string, w: World): (r: World)
    ensures Good(w) ==> Good(r)
    ensures w.table <= r.table && IsDeclared(r.table, VarDeclSpec(p.node, scope, w).0.name, scope)
  {
    var s := VarDeclSpec(p.node, scope, w);
    Declare(s.0, scope, "WAR-SEM-VAR-DECL-PREV", s.1)
  }

  /** functionDeclaration over the declaracao_variaveis nodes of a function. */
  function LocalsFold(ls: seq<Located>, scope: string, w: World): (r: World)
    ensures Good(w) ==> Good(r)
    ensures w.table <= r.table
  {
    if ls == [] then w else LocalsFold(ls[1..], scope, LocalStep(ls[0], scope, w))
  }

  /** functionDeclaration(node1, scope): every variable declared anywhere
      under node1, in pre-order. */
  function FunctionDeclarationSpec(node1: Node, scope: string, w: World): (r: World)
    ensures Good(w) ==> Good(r)
    ensures w.table <= r.table
  {
    LocalsFold(FindAll(Located(node1, []), "declaracao_variaveis"), scope, w)
  }

  /** One iteration of symbolTable over a declaracao node. */
  function DeclStep(p: Located, w: World): (r: World)
    ensures Good(w) ==> Good(r)
    ensures w.table <= r.table
    ensures var item := PreOrder(p.node);
            At(item, 1).name == "declaracao_variaveis" ==>
              IsDeclared(r.table, VarDeclSpec(At(item, 1), "global", w).0.name, "global")
    ensures var item := PreOrder(p.node);
            At(item, 1).name == "declaracao_funcao" ==> IsDeclared(r.table, FuncEntry(item).name, "global")
  {
    var item := PreOrder(p.node);
    if At(item, 1).name == "declaracao_variaveis" then
      var s := VarDeclSpec(At(item, 1), "global", w);
      Declare(s.0, "global", "WAR-SEM-VAR-DECL-PREV", s.1)
    else if At(item, 1).name == "declaracao_funcao" then
      var f := FuncEntry(item);
      if IsDeclared(w.table, f.name, "global") then
        w.(log := w.log + [Diag("WAR-SEM-FUNC-DECL-PREV", [f.name, GetType(w.table, f.name, "global").value])])
      else
        var w1 := Declare(f, "global", "WAR-SEM-FUNC-DECL-PREV", w);
        var r := FunctionDeclarationSpec(At(item, 1), f.name, w1);
        DeclaredStaysDeclared(w1.table, r.table, f.name, "global");
        r
    else w
  }

  function DeclsFold(ls: seq<Located>, w: World): (r: World)
    ensures Good(w) ==> Good(r)
    ensures w.table <= r.table
  {
    if ls == [] then w else DeclsFold(ls[1..], DeclStep(ls[0], w))
  }

  /** symbolTable: a fresh table built from every declaracao of the tree,
      in pre-order; the error list and the log carry on. */
  function SymbolTableSpec(root: Node, w: World): (r: World)
    ensures NoDuplicates(w.errors) ==> Good(r)
  {
    DeclsFold(FindAll(Located(root, []), "declaracao"), w.(table := []))
  }

  /** The fold over ls is the fold over its first k declarations followed
      by the fold over the rest. */
  lemma {:induction false} DeclsFoldSplit(ls: seq<Located>, k: nat, w: World)
    requires k <= |ls|
    ensures DeclsFold(ls, w) == DeclsFold(ls[k..], DeclsFold(ls[..k], w))
    decreases k
  {
    if k > 0 {
      DeclsFoldSplit(ls[1..], k - 1, DeclStep(ls[0], w));
      assert ls[1..][k - 1..] == ls[k..];
      assert ls[1..][..k - 1] == ls[..k][1..];
    }
  }

  /** symbolTable enters every declaration: after the whole pass, the
      name of the k-th declaracao (a global variable, read by its scan in
      the state reached before it, or a function) is visible globally. */
  lemma SymbolTableDeclares(root: Node, w: World, k: nat)
    requires k < |FindAll(Located(root, []), "declaracao")|
    ensures var ls := FindAll(Located(root, []), "declaracao");
            var before := DeclsFold(ls[..k], w.(table := []));
            var item := PreOrder(ls[k].node);
            var r := SymbolTableSpec(root, w);
            (At(item, 1).name == "declaracao_variaveis" ==>
               IsDeclared(r.table, VarDeclSpec(At(item, 1), "global", before).0.name, "global"))
            && (At(item, 1).name == "declaracao_funcao" ==> IsDeclared(r.table, FuncEntry(item).name, "global"))
  {
    var ls := FindAll(Located(root, []), "declaracao");
    var w0 := w.(table := []);
    var before := DeclsFold(ls[..k], w0);
    var item := PreOrder(ls[k].node);
    var step := DeclStep(ls[k], before);
    DeclsFoldSplit(ls, k, w0);
    assert ls[k..] == [ls[k]] + ls[k + 1..];
    assert DeclsFold(ls[k..], before) == DeclsFold(ls[k + 1..], step);
    var r := DeclsFold(ls[k + 1..], step);
    if At(item, 1).name == "declaracao_variaveis" {
      DeclaredStaysDeclared(step.table, r.table, VarDeclSpec(At(item, 1), "global", before).0.name, "global");
    }
    if At(item, 1).name == "declaracao_funcao" {
      DeclaredStaysDeclared(step.table, r.table, FuncEntry(item).name, "global");
    }
  }

  // ---------------------------------------------------------------------
  // checkCoercions.

  /** The type of the last parameter in ps called name, if any. */
  function LastParamType(ps: seq<Param>, name: string): (r: Option<string>)
    ensures r.Some? <==> exists j :: 0 <= j < |ps| && ps[j].pname == name
    ensures r.Some? ==> exists j :: 0 <= j < |ps| && ps[j].pname == name && ps[j].ptype == r.value
                                    && forall k :: j < k < |ps| ==> ps[k].pname != name
  {
    if ps == [] then None
    else
      var last := ps[|ps| - 1];
      var init := ps[..|ps| - 1];
      assert forall j :: 0 <= j < |init| ==> init[j] == ps[j];
      if last.pname == name then
        assert ps[|ps| - 1].pname == name;
        Some(last.ptype)
      else
        assert (exists j :: 0 <= j < |ps| && ps[j].pname == name) ==> exists j :: 0 <= j < |init| && init[j].pname == name;
        LastParamType(init, name)
  }

  /** The type checkCoercions compares against for one entry: the entry's
      own type when it owns name, otherwise the type of its last parameter
      called name (of any function, whatever the scope). */
  function TargetType(e: Entry, name: string, scope: string): Option<string>
  {
    if Owns(e, name, scope) then Some(e.etype)
    else if |e.params| > 0 then LastParamType(e.params, name)
    else None
  }

  /** The warning for an assignment to name of type ty from the factors fs:
      with one factor its type and kind (var, func, numero) decide, with
      any other number getTypeFactors decides and the value is
      "expressao". */
  function Coercion(fs: seq<Factor>, name: string, ty: string): (r: Option<Diag>)
    ensures r.None? <==> AllOfType(fs, ty)
    ensures r.Some? ==> |r.value.args| == 4 && r.value.args[2] == name && r.value.args[3] == ty
                        && r.value.args[1] != ty
  {
    if |fs| == 1 then
      var tf := fs[0].ftype;
      if tf == ty then None
      else
        var key := if fs[0].factor == "var" then "WAR-SEM-ATR-DIFF-TYPES-IMP-COERC-OF-VAR"
                   else if fs[0].factor == "func" then "WAR-SEM-ATR-DIFF-TYPES-IMP-COERC-OF-RET-VAL"
                   else "WAR-SEM-ATR-DIFF-TYPES-IMP-COERC-OF-NUM";
        Some(Diag(key, [fs[0].value, tf, name, ty]))
    else
      var tf := GetTypeFactors(fs, ty);
      if tf == ty then None else Some(Diag("WAR-SEM-ATR-DIFF-TYPES-IMP-COERC-OF-EXP", ["expressao", tf, name, ty]))
  }

  /** checkCoercions: one warning per entry whose target type the factors
      do not all have. */
  function CoercionDiags(t: seq<Entry>, name: string, scope: string, fs: seq<Factor>): (r: seq<Diag>)
    ensures |r| <= |t|
    ensures forall k :: 0 <= k < |r| ==> |r[k].args| == 4 && r[k].args[2] == name && r[k].args[1] != r[k].args[3]
  {
    if t == [] then []
    else
      var rest := CoercionDiags(t[..|t| - 1], name, scope, fs);
      var here := match TargetType(t[|t| - 1], name, scope)
                  case Some(ty) => Coercion(fs, name, ty)
                  case None => None;
      rest + (if here.Some? then [here.value] else [])
  }

  // ---------------------------------------------------------------------
  // initVariables and usedVariables.

  /** The table with init (or used) set to 'Y' on every entry that owns
      name from scope. */
  function Mark(t: seq<Entry>, name: string, scope: string, init: bool): (r: seq<Entry>)
    ensures |r| == |t|
    ensures forall k :: 0 <= k < |t| ==>
              r[k] == (if Owns(t[k], name, scope) then (if init then t[k].(init := Y) else t[k].(used := Y)) else t[k])
  {
    if t == [] then []
    else
      var e := t[|t| - 1];
      Mark(t[..|t| - 1], name, scope, init)
        + [if Owns(e, name, scope) then (if init then e.(init := Y) else e.(used := Y)) else e]
  }

  /** Mark keeps every name and scope, hence FirstWins. */
  lemma MarkKeepsFirstWins(t: seq<Entry>, name: string, scope: string, init: bool)
    requires FirstWins(t)
    ensures FirstWins(Mark(t, name, scope, init))
  {
    var r := Mark(t, name, scope, init);
    forall i, j | 0 <= i < j < |r| ensures !Owns(r[i], r[j].name, r[j].scope)
    {
      assert !Owns(t[i], t[j].name, t[j].scope);
    }
  }

  /** The flag initVariables (init) or usedVariables (not init) sets. */
  predicate Flagged(e: Entry, init: bool)
  {
    if init then e.init == Y else e.used == Y
  }

  /** name, read from scope, has been dealt with: it is visible and every
      entry owning it carries the flag, or the pair is in the error list. */
  predicate Marked(w: World, name: string, scope: string, init: bool)
  {
    (IsDeclared(w.table, name, scope)
     && forall i :: 0 <= i < |w.table| && Owns(w.table[i], name, scope) ==> Flagged(w.table[i], init))
    || HasError(w.errors, name, scope)
  }

  /** An entry that differs from e at most by flags set to 'Y'. */
  predicate Kept(e: Entry, e': Entry)
  {
    e'.name == e.name && e'.scope == e.scope && e'.declKind == e.declKind && e'.params == e.params
    && (e.init == Y ==> e'.init == Y) && (e.used == Y ==> e'.used == Y)
  }

  /** The marking passes change a table only by setting flags, and only
      append to the error list. */
  predicate Keeps(w: World, r: World)
  {
    |r.table| == |w.table| && w.errors <= r.errors
    && forall i :: 0 <= i < |w.table| ==> Kept(w.table[i], r.table[i])
  }

  lemma KeepsTrans(a: World, b: World, c: World)
    requires Keeps(a, b) && Keeps(b, c)
    ensures Keeps(a, c)
  {
    forall i | 0 <= i < |a.table| ensures Kept(a.table[i], c.table[i])
    {
      assert Kept(b.table[i], c.table[i]);
    }
  }

  /** Setting flags changes nothing about what is visible. */
  lemma KeepsDeclared(w: World, r: World, name: string, scope: string)
    requires Keeps(w, r)
    ensures IsDeclared(w.table, name, scope) <==> IsDeclared(r.table, name, scope)
  {
    if IsDeclared(w.table, name, scope) {
      var i :| 0 <= i < |w.table| && Hit(w.table[i], name, scope);
      assert Kept(w.table[i], r.table[i]);
    }
    if IsDeclared(r.table, name, scope) {
      var i :| 0 <= i < |r.table| && Hit(r.table[i], name, scope);
      assert Kept(w.table[i], r.table[i]);
    }
  }

  /** A mark, once made, survives every later marking step. */
  lemma MarkedPersists(w: World, r: World, name: string, scope: string, init: bool)
    requires Keeps(w, r) && Marked(w, name, scope, init)
    ensures Marked(r, name, scope, init)
  {
    if HasError(w.errors, name, scope) {
      var k :| 0 <= k < |w.errors| && w.errors[k] == ErrPair(name, scope);
      assert r.errors[k] == w.errors[k];
    } else {
      KeepsDeclared(w, r, name, scope);
      forall i | 0 <= i < |r.table| && Owns(r.table[i], name, scope) ensures Flagged(r.table[i], init)
      {
        assert Kept(w.table[i], r.table[i]);
      }
    }
  }

  /** Marking keeps the table up to flags, and marks name. */
  lemma MarkMarks(w: World, name: string, scope: string, init: bool)
    requires IsDeclared(w.table, name, scope)
    ensures var r := World(Mark(w.table, name, scope, init), w.errors, w.log);
            Keeps(w, r) && Marked(r, name, scope, init)
  {
    var r := World(Mark(w.table, name, scope, init), w.errors, w.log);
    forall i | 0 <= i < |w.table| ensures Kept(w.table[i], r.table[i]) && (Owns(r.table[i], name, scope) ==> Flagged(r.table[i], init))
    {
    }
    KeepsDeclared(w, r, name, scope);
  }

  /** initVariables (init) and usedVariables (not init): a declared name is
      marked, and an assignment is first checked for coercions; an
      undeclared name is reported once unless the statement holds a call. */
  function InitOrUse(w: World, name: string, scope: string, loc: Located, init: bool): (r: World)
    ensures Good(w) ==> Good(r)
    ensures IsDeclared(w.table, name, scope) ==> r.errors == w.errors && r.table == Mark(w.table, name, scope, init)
    ensures !IsDeclared(w.table, name, scope) ==> r.table == w.table
    ensures !IsDeclared(w.table, name, scope) && FindAll(loc, "chamada_funcao") == [] ==> HasError(r.errors, name, scope)
    ensures Keeps(w, r)
    ensures IsDeclared(w.table, name, scope) || FindAll(loc, "chamada_funcao") == [] ==> Marked(r, name, scope, init)
  {
    if IsDeclared(w.table, name, scope) then
      var diags := if init then CoercionDiags(w.table, name, scope, GetFactors(loc, w.table, scope)) else [];
      assert FirstWins(w.table) ==> FirstWins(Mark(w.table, name, scope, init)) by {
        if FirstWins(w.table) { MarkKeepsFirstWins(w.table, name, scope, init); }
      }
      MarkMarks(w, name, scope, init);
      World(Mark(w.table, name, scope, init), w.errors, w.log + diags)
    else if FindAll(loc, "chamada_funcao") == [] then ReportOnce(w, name, scope, "ERR-SEM-VAR-NOT-DECL")
    else w
  }

  // ---------------------------------------------------------------------
  // verifyVariables.

  /** The names after every ID wrapper of rt from index k, each initialised
      (init) or used at loc. */
  function IdsFold(rt: seq<Node>, k: nat, scope: string, loc: Located, init: bool, w: World): (r: World)
    ensures Good(w) ==> Good(r)
    ensures Keeps(w, r)
    decreases |rt| - k
  {
    if k >= |rt| then w
    else
      var w' := if rt[k].name == "ID" then InitOrUse(w, At(rt, k + 1).name, scope, loc, init) else w;
      var r := IdsFold(rt, k + 1, scope, loc, init, w');
      KeepsTrans(w, w', r);
      r
  }

  /** Every identifier from index k on is marked or reported by the walk,
      unless it is undeclared and the statement holds a call. */
  lemma {:induction false} IdsFoldMarks(rt: seq<Node>, k: nat, scope: string, loc: Located, init: bool, w: World, j: nat)
    requires k <= j < |rt| && rt[j].name == "ID"
    requires IsDeclared(w.table, At(rt, j + 1).name, scope) || FindAll(loc, "chamada_funcao") == []
    ensures Marked(IdsFold(rt, k, scope, loc, init, w), At(rt, j + 1).name, scope, init)
    decreases |rt| - k
  {
    var w' := if rt[k].name == "ID" then InitOrUse(w, At(rt, k + 1).name, scope, loc, init) else w;
    var r := IdsFold(rt, k + 1, scope, loc, init, w');
    assert IdsFold(rt, k, scope, loc, init, w) == r;
    if j == k {
      MarkedPersists(w', r, At(rt, j + 1).name, scope, init);
    } else {
      KeepsDeclared(w, w', At(rt, j + 1).name, scope);
      IdsFoldMarks(rt, k + 1, scope, loc, init, w', j);
    }
  }

  /** One node of an acao: an assignment expression initialises the name
      four nodes down; another expression, se, repita, escreva and retorna
      use every identifier under them; leia initialises them; a call uses
      the called name. */
  function NodeStep(loc: Located, w: World): (r: World)
    ensures Good(w) ==> Good(r)
    ensures Keeps(w, r)
    ensures var rt := PreOrder(loc.node);
            loc.node.name == "expressao" && At(rt, 1).name == "atribuicao"
            && (IsDeclared(w.table, At(rt, 4).name, ScopeOf(loc)) || FindAll(loc, "chamada_funcao") == [])
            ==> Marked(r, At(rt, 4).name, ScopeOf(loc), true)
    ensures loc.node.name == "chamada_funcao" && IsDeclared(w.table, Lexeme(Child(loc.node, 0)), ScopeOf(loc))
            ==> Marked(r, Lexeme(Child(loc.node, 0)), ScopeOf(loc), false)
  {
    var n := loc.node;
    var rt := PreOrder(n);
    var scope := ScopeOf(loc);
    if n.name == "expressao" then
      if At(rt, 1).name == "atribuicao" then InitOrUse(w, At(rt, 4).name, scope, loc, true)
      else IdsFold(rt, 0, scope, loc, false, w)
    else if n.name == "leia" then IdsFold(rt, 0, scope, loc, true, w)
    else if n.name in ["se", "repita", "escreva", "retorna"] then IdsFold(rt, 0, scope, loc, false, w)
    else if n.name == "chamada_funcao" then InitOrUse(w, Lexeme(Child(n, 0)), scope, loc, false)
    else w
  }

  /** In a leia, se, repita, escreva, retorna or other non-assignment
      expression node, the name after every ID wrapper is marked (as
      initialised in a leia, as used otherwise) or reported, unless it is
      undeclared and the node holds a call. */
  lemma NodeStepMarks(loc: Located, w: World, j: nat)
    requires var rt := PreOrder(loc.node);
             (loc.node.name == "expressao" && At(rt, 1).name != "atribuicao")
             || loc.node.name in ["leia", "se", "repita", "escreva", "retorna"]
    requires j < |PreOrder(loc.node)| && PreOrder(loc.node)[j].name == "ID"
    requires IsDeclared(w.table, At(PreOrder(loc.node), j + 1).name, ScopeOf(loc))
             || FindAll(loc, "chamada_funcao") == []
    ensures Marked(NodeStep(loc, w), At(PreOrder(loc.node), j + 1).name, ScopeOf(loc), loc.node.name == "leia")
  {
    var rt := PreOrder(loc.node);
    var init := loc.node.name == "leia";
    var r := IdsFold(rt, 0, ScopeOf(loc), loc, init, w);
    assert NodeStep(loc, w) == r by {
      if loc.node.name == "expressao" {
      } else if init {
      } else {
        assert loc.node.name in ["se", "repita", "escreva", "retorna"];
      }
    }
    IdsFoldMarks(rt, 0, ScopeOf(loc), loc, init, w, j);
  }

  function NodesFold(ls: seq<Located>, w: World): (r: World)
    ensures Good(w) ==> Good(r)
    ensures Keeps(w, r)
  {
    if ls == [] then w
    else
      var w' := NodeStep(ls[0], w);
      var r := NodesFold(ls[1..], w');
      KeepsTrans(w, w', r);
      r
  }

  function AcaoFold(ls: seq<Located>, w: World): (r: World)
    ensures Good(w) ==> Good(r)
    ensures Keeps(w, r)
  {
    if ls == [] then w
    else
      var w' := NodesFold(Walk(ls[0].node, ls[0].ancestors), w);
      var r := AcaoFold(ls[1..], w');
      KeepsTrans(w, w', r);
      r
  }

  /** verifyVariables: every node under every acao, in pre-order. */
  function VerifyVariablesSpec(root: Node, w: World): (r: World)
    ensures Good(w) ==> Good(r)
    ensures Keeps(w, r)
  {
    AcaoFold(FindAll(Located(root, []), "acao"), w)
  }

  /** The node walk splits at node i: the nodes before it, node i, the rest. */
  lemma {:induction false} NodesFoldSplit(ls: seq<Located>, i: nat, w: World)
    requires i < |ls|
    ensures NodesFold(ls, w) == NodesFold(ls[i + 1..], NodeStep(ls[i], NodesFold(ls[..i], w)))
    decreases i
  {
    var w1 := NodeStep(ls[0], w);
    assert NodesFold(ls, w) == NodesFold(ls[1..], w1);
    if i > 0 {
      assert NodesFold(ls[..i], w) == NodesFold(ls[..i][1..], w1) by {
        assert ls[..i][0] == ls[0];
      }
      NodesFoldSplit(ls[1..], i - 1, w1);
      assert ls[1..][i - 1] == ls[i] && ls[1..][i..] == ls[i + 1..];
      assert ls[1..][..i - 1] == ls[..i][1..];
    } else {
      assert ls[..i] == [];
    }
  }

  /** The acao walk splits at acao a in the same way. */
  lemma {:induction false} AcaoFoldSplit(ls: seq<Located>, a: nat, w: World)
    requires a < |ls|
    ensures AcaoFold(ls, w) == AcaoFold(ls[a + 1..], NodesFold(Walk(ls[a].node, ls[a].ancestors), AcaoFold(ls[..a], w)))
    decreases a
  {
    var w1 := NodesFold(Walk(ls[0].node, ls[0].ancestors), w);
    assert AcaoFold(ls, w) == AcaoFold(ls[1..], w1);
    if a > 0 {
      assert AcaoFold(ls[..a], w) == AcaoFold(ls[..a][1..], w1) by {
        assert ls[..a][0] == ls[0];
      }
      AcaoFoldSplit(ls[1..], a - 1, w1);
      assert ls[1..][a - 1] == ls[a] && ls[1..][a..] == ls[a + 1..];
      assert ls[1..][..a - 1] == ls[..a][1..];
    } else {
      assert ls[..a] == [];
    }
  }

  /** verifyVariables deals with every identifier under every acao: the
      name after the j-th node of node i of acao a (an ID wrapper in a
      leia, se, repita, escreva, retorna or non-assignment expression) is,
      after the whole pass, flagged on every entry owning it or reported,
      unless it was undeclared and that node holds a call. */
  lemma VerifyVariablesMarksIds(root: Node, w: World, a: nat, i: nat, j: nat)
    requires a < |FindAll(Located(root, []), "acao")|
    requires var acao := FindAll(Located(root, []), "acao")[a];
             i < |Walk(acao.node, acao.ancestors)|
    requires var acao := FindAll(Located(root, []), "acao")[a];
             var loc := Walk(acao.node, acao.ancestors)[i];
             var rt := PreOrder(loc.node);
             ((loc.node.name == "expressao" && At(rt, 1).name != "atribuicao")
              || loc.node.name in ["leia", "se", "repita", "escreva", "retorna"])
             && j < |rt| && rt[j].name == "ID"
             && (IsDeclared(w.table, At(rt, j + 1).name, ScopeOf(loc)) || FindAll(loc, "chamada_funcao") == [])
    ensures var acao := FindAll(Located(root, []), "acao")[a];
            var loc := Walk(acao.node, acao.ancestors)[i];
            Marked(VerifyVariablesSpec(root, w), At(PreOrder(loc.node), j + 1).name, ScopeOf(loc),
                   loc.node.name == "leia")
  {
    var acaos := FindAll(Located(root, []), "acao");
    var nodes := Walk(acaos[a].node, acaos[a].ancestors);
    var loc := nodes[i];
    var name := At(PreOrder(loc.node), j + 1).name;
    var init := loc.node.name == "leia";
    var wa := AcaoFold(acaos[..a], w);
    var before := NodesFold(nodes[..i], wa);
    KeepsTrans(w, wa, before);
    KeepsDeclared(w, before, name, ScopeOf(loc));
    NodeStepMarks(loc, before, j);
    var step := NodeStep(loc, before);
    var wn := NodesFold(nodes[i + 1..], step);
    NodesFoldSplit(nodes, i, wa);
    MarkedPersists(step, wn, name, ScopeOf(loc), init);
    AcaoFoldSplit(acaos, a, w);
    MarkedPersists(wn, AcaoFold(acaos[a + 1..], wn), name, ScopeOf(loc), init);
  }

  // ---------------------------------------------------------------------
  // verifyVariableIsUsed and verifyFunctionsIsUsed.

  /** The warning verifyVariableIsUsed prints for one entry. */
  function UsageWarning(e: Entry, errs: seq<ErrPair>): (r: Option<Diag>)
    ensures r.Some? ==> e.declKind == VarDecl && e.errors <= 0 && !HasError(errs, e.name, e.scope)
                        && r.value.args == [e.name]
    ensures e.declKind == VarDecl && e.errors <= 0 && !HasError(errs, e.name, e.scope) ==>
              (e.init == N && e.used == N ==> r == Some(Diag("WAR-SEM-VAR-DECL-NOT-USED", [e.name])))
              && (e.init == Y && e.used == N ==> r == Some(Diag("WAR-SEM-VAR-DECL-INIT-NOT-USED", [e.name])))
              && (e.init == N && e.used != N ==> r == Some(Diag("WAR-SEM-VAR-DECL-NOT-INIT", [e.name])))
              && (e.init == Y && e.used != N ==> r.None?)
  {
    if e.declKind == VarDecl && e.errors <= 0 && !HasError(errs, e.name, e.scope) then
      if e.init == N && e.used == N then Some(Diag("WAR-SEM-VAR-DECL-NOT-USED", [e.name]))
      else if e.init == Y && e.used == N then Some(Diag("WAR-SEM-VAR-DECL-INIT-NOT-USED", [e.name]))
      else if e.init == N then Some(Diag("WAR-SEM-VAR-DECL-NOT-INIT", [e.name]))
      else None
    else None
  }

  /** All the warnings of verifyVariableIsUsed, in table order. */
  function UsageWarnings(t: seq<Entry>, errs: seq<ErrPair>): (r: seq<Diag>)
    ensures |r| <= |t|
  {
    if t == [] then []
    else
      var w := UsageWarning(t[|t| - 1], errs);
      UsageWarnings(t[..|t| - 1], errs) + (if w.Some? then [w.value] else [])
  }

  /** The warning verifyFunctionsIsUsed prints for one entry. */
  function FunctionUseWarning(e: Entry): (r: Option<Diag>)
    ensures r.Some? <==> e.declKind == FuncDecl && e.used == N
    ensures r.Some? ==> r.value == Diag("WAR-SEM-FUNC-DECL-NOT-USED", [e.name])
  {
    if e.declKind == FuncDecl && e.used == N then Some(Diag("WAR-SEM-FUNC-DECL-NOT-USED", [e.name])) else None
  }

  function FunctionUseWarnings(t: seq<Entry>): (r: seq<Diag>)
    ensures |r| <= |t|
  {
    if t == [] then []
    else
      var w := FunctionUseWarning(t[|t| - 1]);
      FunctionUseWarnings(t[..|t| - 1]) + (if w.Some? then [w.value] else [])
  }

  // ---------------------------------------------------------------------
  // verifyFunctionReturn.

  predicate NamedFunction(e: Entry, name: string)
  {
    e.name == name && e.declKind == FuncDecl
  }

  /** The error for a function without any retorna, as written: the test
      `declarationType != 'vazio'` after `declarationType == 'func'`
      always holds, so every function entry with that name is reported as
      returning vazio, a void function too. */
  function MissingReturnDiagsAsWritten(t: seq<Entry>, funcName: string): (r: seq<Diag>)
    ensures |r| <= |t|
    ensures forall k :: 0 <= k < |r| ==> r[k].key == "ERR-SEM-FUNC-RET-TYPE-ERROR" && |r[k].args| == 3
                                         && r[k].args[0] == funcName && r[k].args[2] == "vazio"
  {
    if t == [] then []
    else
      var e := t[|t| - 1];
      MissingReturnDiagsAsWritten(t[..|t| - 1], funcName)
        + (if NamedFunction(e, funcName) then [Diag("ERR-SEM-FUNC-RET-TYPE-ERROR", [funcName, e.etype, "vazio"])] else [])
  }

  /** A void function without retorna is reported by the check as written,
      with its declared type and the returned type both "vazio". */
  lemma VoidFunctionReportedAsWritten(e: Entry)
    requires e.declKind == FuncDecl && e.etype == "vazio"
    ensures MissingReturnDiagsAsWritten([e], e.name)
            == [Diag("ERR-SEM-FUNC-RET-TYPE-ERROR", [e.name, "vazio", "vazio"])]
  {
    assert [e][..0] == [];
  }

  /** The error for a function without any retorna, as intended: only a
      function whose declared type is not vazio is reported. */
  function MissingReturnDiags(t: seq<Entry>, funcName: string): (r: seq<Diag>)
    ensures |r| <= |t|
    ensures forall k :: 0 <= k < |r| ==> r[k].key == "ERR-SEM-FUNC-RET-TYPE-ERROR" && |r[k].args| == 3
                                         && r[k].args[0] == funcName && r[k].args[2] == "vazio"
                                         && r[k].args[1] != "vazio"
    ensures r == [] <==> forall i :: 0 <= i < |t| && NamedFunction(t[i], funcName) ==> t[i].etype == "vazio"
  {
    if t == [] then []
    else
      var e := t[|t| - 1];
      var init := t[..|t| - 1];
      assert forall i :: 0 <= i < |init| ==> init[i] == t[i];
      MissingReturnDiags(init, funcName)
        + (if NamedFunction(e, funcName) && e.etype != "vazio"
           then [Diag("ERR-SEM-FUNC-RET-TYPE-ERROR", [funcName, e.etype, "vazio"])] else [])
  }

  /** The correction only concerns void functions: when no function entry
      called funcName is declared vazio, both checks report the same. */
  lemma {:induction false} MissingReturnAgree(t: seq<Entry>, funcName: string)
    requires forall i :: 0 <= i < |t| && NamedFunction(t[i], funcName) ==> t[i].etype != "vazio"
    ensures MissingReturnDiags(t, funcName) == MissingReturnDiagsAsWritten(t, funcName)
  {
    if t != [] {
      var init := t[..|t| - 1];
      assert forall i :: 0 <= i < |init| ==> init[i] == t[i];
      MissingReturnAgree(init, funcName);
    }
  }

  /** The error for a retorna whose factors fs do not all have the declared
      type of the function: one per function entry with that name. */
  function ReturnTypeDiags(t: seq<Entry>, funcName: string, fs: seq<Factor>): (r: seq<Diag>)
    ensures forall k :: 0 <= k < |r| ==> r[k].key == "ERR-SEM-FUNC-RET-TYPE-ERROR" && |r[k].args| == 3
                                         && r[k].args[1] != r[k].args[2]
    ensures r == [] <==> forall i :: 0 <= i < |t| && NamedFunction(t[i], funcName) ==> AllOfType(fs, t[i].etype)
  {
    if t == [] then []
    else
      var e := t[|t| - 1];
      var init := t[..|t| - 1];
      assert forall i :: 0 <= i < |init| ==> init[i] == t[i];
      var tf := GetTypeFactors(fs, e.etype);
      ReturnTypeDiags(init, funcName, fs)
        + (if NamedFunction(e, funcName) && tf != e.etype
           then [Diag("ERR-SEM-FUNC-RET-TYPE-ERROR", [funcName, e.etype, tf])] else [])
  }

  /** The check of one retorna: its third child, when it is an expressao,
      gives the factors. */
  function OneReturnDiags(r: Located, t: seq<Entry>, funcName: string): seq<Diag>
  {
    var e := Child(r.node, 2);
    if r.node.children == [] || e.name != "expressao" then []
    else ReturnTypeDiags(t, funcName, GetFactors(Located(e, r.ancestors + [r.node]), t, ScopeOf(r)))
  }

  function ReturnsDiags(rs: seq<Located>, t: seq<Entry>, funcName: string): seq<Diag>
  {
    if rs == [] then []
    else ReturnsDiags(rs[..|rs| - 1], t, funcName) + OneReturnDiags(rs[|rs| - 1], t, funcName)
  }

  /** The check of one header: the function's name is the third node of its
      pre-order list; without any retorna under it the missing-return error,
      otherwise the check of every retorna. */
  function HeaderDiags(h: Located, t: seq<Entry>): seq<Diag>
  {
    var funcName := At(PreOrder(h.node), 2).name;
    var rets := FindAll(h, "retorna");
    if rets == [] then MissingReturnDiags(t, funcName) else ReturnsDiags(rets, t, funcName)
  }

  function HeadersDiags(ls: seq<Located>, t: seq<Entry>): seq<Diag>
  {
    if ls == [] then []
    else HeadersDiags(ls[..|ls| - 1], t)
         + (if ls[|ls| - 1].node.name == "cabecalho" then HeaderDiags(ls[|ls| - 1], t) else [])
  }

  /** verifyFunctionReturn for one declaracao_funcao: every header in it. */
  function FunctionReturnDiags(p: Located, t: seq<Entry>): seq<Diag>
  {
    HeadersDiags(Walk(p.node, p.ancestors), t)
  }

  function FunctionReturnDiagsAll(ls: seq<Located>, t: seq<Entry>): seq<Diag>
  {
    if ls == [] then [] else FunctionReturnDiagsAll(ls[..|ls| - 1], t) + FunctionReturnDiags(ls[|ls| - 1], t)
  }

  // ---------------------------------------------------------------------
  // verifyCallFunctions.

  /** The argument-count check of a call with n arguments against one
      entry: fewer than the parameters, more, or neither. */
  function ArgCheck(e: Entry, name: string, n: int): (r: Option<Diag>)
    ensures r == Some(Diag("ERR-SEM-CALL-FUNC-WITH-FEW-ARGS", [name])) <==> NamedFunction(e, name) && n < |e.params|
    ensures r == Some(Diag("ERR-SEM-CALL-FUNC-WITH-MANY-ARGS", [name])) <==> NamedFunction(e, name) && n > |e.params|
    ensures r.None? <==> !NamedFunction(e, name) || n == |e.params|
  {
    if !NamedFunction(e, name) then None
    else if n < |e.params| then Some(Diag("ERR-SEM-CALL-FUNC-WITH-FEW-ARGS", [name]))
    else if n > |e.params| then Some(Diag("ERR-SEM-CALL-FUNC-WITH-MANY-ARGS", [name]))
    else None
  }

  function ArgChecks(t: seq<Entry>, name: string, n: int): (r: seq<Diag>)
    ensures |r| <= |t|
  {
    if t == [] then []
    else
      var d := ArgCheck(t[|t| - 1], name, n);
      ArgChecks(t[..|t| - 1], name, n) + (if d.Some? then [d.value] else [])
  }

  /** verifyCallFunctions for one call: an undeclared name is an error;
      principal may not be called (and calling it from itself also warns
      of recursion); any other call is checked for its argument count,
      unless the argument list starts with vazio. */
  function CallDiags(p: Located, t: seq<Entry>): (r: seq<Diag>)
    ensures !IsDeclared(t, At(PreOrder(p.node), 2).name, "global") ==>
              r == [Diag("ERR-SEM-CALL-FUNC-NOT-DECL", [At(PreOrder(p.node), 2).name])]
    ensures IsDeclared(t, At(PreOrder(p.node), 2).name, "global") && At(PreOrder(p.node), 2).name == "principal" ==>
              |r| >= 1 && r[|r| - 1] == Diag("ERR-SEM-CALL-FUNC-MAIN-NOT-ALLOWED", [])
  {
    var rt := PreOrder(p.node);
    var name := At(rt, 2).name;
    if !IsDeclared(t, name, "global") then [Diag("ERR-SEM-CALL-FUNC-NOT-DECL", [name])]
    else if name == "principal" then
      (if ScopeOf(p) == "principal" then [Diag("WAR-SEM-CALL-REC-FUNC-MAIN", [name])] else [])
        + [Diag("ERR-SEM-CALL-FUNC-MAIN-NOT-ALLOWED", [])]
    else
      var args := At(rt, 5);
      if args.name == "lista_argumentos" && Child(args, 0).name != "vazio"
      then ArgChecks(t, name, GetCountParameters(args)) else []
  }

  function CallDiagsAll(ls: seq<Located>, t: seq<Entry>): seq<Diag>
  {
    if ls == [] then [] else CallDiagsAll(ls[..|ls| - 1], t) + CallDiags(ls[|ls| - 1], t)
  }

  lemma FunctionReturnDiagsSnoc(ls: seq<Located>, p: Located, t: seq<Entry>)
    ensures FunctionReturnDiagsAll(ls + [p], t) == FunctionReturnDiagsAll(ls, t) + FunctionReturnDiags(p, t)
  {
    assert (ls + [p])[..|ls|] == ls;
  }

  lemma CallDiagsSnoc(ls: seq<Located>, i: nat, t: seq<Entry>)
    requires i < |ls|
    ensures CallDiagsAll(ls[..i + 1], t) == CallDiagsAll(ls[..i], t) + CallDiags(ls[i], t)
  {
    assert ls[..i + 1][..i] == ls[..i];
  }

  // ---------------------------------------------------------------------
  // checkRules.

  /** checkRules: build the table, report a missing principal, then run
      the variable and function checks in the source's order. */
  function CheckRulesSpec(root: Node, w: World): (r: World)
    ensures NoDuplicates(w.errors) ==> Good(r)
  {
    var w1 := SymbolTableSpec(root, w);
    var w2 := if MainFunctionExists(w1.table) then w1
              else w1.(log := w1.log + [Diag("ERR-SEM-MAIN-NOT-DECL", [])]);
    var w3 := VerifyVariablesSpec(root, w2);
    var w4 := w3.(log := w3.log + UsageWarnings(w3.table, w3.errors));
    var w5 := w4.(log := w4.log + FunctionReturnDiagsAll(FindAll(Located(root, []), "declaracao_funcao"), w4.table));
    var w6 := w5.(log := w5.log + CallDiagsAll(FindAll(Located(root, []), "chamada_funcao"), w5.table));
    w6.(log := w6.log + FunctionUseWarnings(w6.table))
  }

  // ---------------------------------------------------------------------
  // The analyser.

  /** The module-level state of tppsema.py: the table checkRules builds,
      the write-once error list and the printed diagnostics. */
  class Analyzer {
    var table: seq<Entry>
    var errors: seq<ErrPair>
    var log: seq<Diag>

    function State(): World
      reads this
    {
      World(table, errors, log)
    }

    predicate Valid()
      reads this
    {
      Good(State())
    }

    constructor ()
      ensures State() == World([], [], []) && Valid()
    {
      table := [];
      errors := [];
      log := [];
    }

    /** addVaribleError: append the pair. */
    method AddVariableError(name: string, scope: string)
      modifies this
      ensures errors == old(errors) + [ErrPair(name, scope)]
      ensures table == old(table) && log == old(log)
    {
      errors := errors + [ErrPair(name, scope)];
    }

    /** The guarded report every caller of addVaribleError makes: record
        the pair and print key only if variableHasError is false. */
    method Report(name: string, scope: string, key: string)
      modifies this
      ensures State() == ReportOnce(old(State()), name, scope, key)
    {
      if !HasError(errors, name, scope) {
        AddVariableError(name, scope);
        log := log + [Diag(key, [name])];
      }
    }

    /** variableDeclaration: scan the pre-order list of node. */
    method VariableDeclaration(node: Node, scope: string) returns (e: Entry)
      modifies this
      ensures (e, State()) == VarDeclSpec(node, scope, old(State()))
    {
      var rt := PreOrder(node);
      var st := ScanStart;
      var i := 0;
      while i < |rt|
        invariant 0 <= i <= |rt|
        invariant ScanFrom(rt, i, scope, st, State()) == ScanFrom(rt, 0, scope, ScanStart, old(State()))
        decreases |rt| - i
      {
        var n := rt[i];
        if n.name == "tipo" {
          st := st.(etype := At(rt, i + 2).name, line := At(rt, i + 2).line);
        } else if n.name == "ID" {
          st := st.(token := n.name, name := At(rt, i + 1).name);
        } else if n.name == "fecha_colchete" {
          var dim := st.dim + 1;
          if PyAt(rt, i - 2).name == "NUM_PONTO_FLUTUANTE" {
            Report(st.name, scope, "ERR-SEM-ARRAY-INDEX-NOT-INT");
          }
          var index := Text(PyAt(rt, i - 1).name);
          if dim == 2 {
            st := st.(dim := dim, d2 := index);
          } else {
            st := st.(dim := dim, d1 := index);
          }
        }
        i := i + 1;
      }
      e := VarEntry(st, scope);
    }

    /** The declare-or-warn step of symbolTable and functionDeclaration:
        the previous-declaration warning key if v's name is visible in
        scope already, otherwise v appended to the table. */
    method Enter(v: Entry, scope: string, key: string)
      requires v.scope == scope
      modifies this
      ensures State() == Declare(v, scope, key, old(State()))
    {
      if IsDeclared(table, v.name, scope) {
        log := log + [Diag(key, [v.name, GetType(table, v.name, scope).value])];
      } else {
        table := table + [v];
      }
    }

    /** functionDeclaration: declare every variable under node1 in scope. */
    method FunctionDeclaration(node1: Node, scope: string)
      modifies this
      ensures State() == FunctionDeclarationSpec(node1, scope, old(State()))
    {
      var ls := FindAll(Located(node1, []), "declaracao_variaveis");
      var i := 0;
      while i < |ls|
        invariant 0 <= i <= |ls|
        invariant LocalsFold(ls[i..], scope, State()) == FunctionDeclarationSpec(node1, scope, old(State()))
        decreases |ls| - i
      {
        ghost var w0 := State();
        assert LocalsFold(ls[i..], scope, w0) == LocalsFold(ls[i + 1..], scope, LocalStep(ls[i], scope, w0)) by {
          assert ls[i..][1..] == ls[i + 1..];
        }
        var v := VariableDeclaration(ls[i].node, scope);
        Enter(v, scope, "WAR-SEM-VAR-DECL-PREV");
        i := i + 1;
      }
    }

    /** One iteration of symbolTable: declare the variable or the function
        (and then the function's locals) that the declaracao p holds. */
    method DeclareItem(p: Located)
      modifies this
      ensures State() == DeclStep(p, old(State()))
    {
      var item := PreOrder(p.node);
      if At(item, 1).name == "declaracao_variaveis" {
        var v := VariableDeclaration(At(item, 1), "global");
        Enter(v, "global", "WAR-SEM-VAR-DECL-PREV");
      } else if At(item, 1).name == "declaracao_funcao" {
        var f := FuncEntry(item);
        if IsDeclared(table, f.name, "global") {
          log := log + [Diag("WAR-SEM-FUNC-DECL-PREV", [f.name, GetType(table, f.name, "global").value])];
        } else {
          table := table + [f];
          FunctionDeclaration(At(item, 1), f.name);
        }
      }
    }

    /** symbolTable: rebuild the table from every declaracao of root. */
    method BuildSymbolTable(root: Node)
      modifies this
      ensures State() == SymbolTableSpec(root, old(State()))
    {
      var ls := FindAll(Located(root, []), "declaracao");
      table := [];
      var i := 0;
      while i < |ls|
        invariant 0 <= i <= |ls|
        invariant DeclsFold(ls[i..], State()) == SymbolTableSpec(root, old(State()))
        decreases |ls| - i
      {
        assert ls[i..][1..] == ls[i + 1..];
        DeclareItem(ls[i]);
        i := i + 1;
      }
    }

    /** The marking loop of initVariables and usedVariables. */
    method SetFlag(name: string, scope: string, init: bool)
      modifies this
      ensures table == Mark(old(table), name, scope, init)
      ensures errors == old(errors) && log == old(log)
    {
      var t0 := table;
      var i := 0;
      while i < |table|
        invariant 0 <= i <= |table| && |table| == |t0|
        invariant errors == old(errors) && log == old(log)
        invariant forall k :: 0 <= k < i ==> table[k] == Mark(t0, name, scope, init)[k]
        invariant forall k :: i <= k < |table| ==> table[k] == t0[k]
        decreases |table| - i
      {
        if Owns(table[i], name, scope) {
          if init {
            table := table[i := table[i].(init := Y)];
          } else {
            table := table[i := table[i].(used := Y)];
          }
        }
        i := i + 1;
      }
      assert table == Mark(t0, name, scope, init);
    }

    /** initVariables: check the assignment for coercions and mark name
        initialised, or report it undeclared. */
    method InitVariables(name: string, scope: string, loc: Located)
      modifies this
      ensures State() == InitOrUse(old(State()), name, scope, loc, true)
    {
      if IsDeclared(table, name, scope) {
        log := log + CoercionDiags(table, name, scope, GetFactors(loc, table, scope));
        SetFlag(name, scope, true);
      } else if FindAll(loc, "chamada_funcao") == [] {
        Report(name, scope, "ERR-SEM-VAR-NOT-DECL");
      }
    }

    /** usedVariables: mark name used, or report it undeclared. */
    method UsedVariables(name: string, scope: string, loc: Located)
      modifies this
      ensures State() == InitOrUse(old(State()), name, scope, loc, false)
    {
      if IsDeclared(table, name, scope) {
        SetFlag(name, scope, false);
      } else if FindAll(loc, "chamada_funcao") == [] {
        Report(name, scope, "ERR-SEM-VAR-NOT-DECL");
      }
    }

    /** The loop over the identifiers of one statement. */
    method VisitIds(rt: seq<Node>, scope: string, loc: Located, init: bool)
      modifies this
      ensures State() == IdsFold(rt, 0, scope, loc, init, old(State()))
    {
      var k := 0;
      while k < |rt|
        invariant 0 <= k <= |rt|
        invariant IdsFold(rt, k, scope, loc, init, State()) == IdsFold(rt, 0, scope, loc, init, old(State()))
        decreases |rt| - k
      {
        if rt[k].name == "ID" {
          if init {
            InitVariables(At(rt, k + 1).name, scope, loc);
          } else {
            UsedVariables(At(rt, k + 1).name, scope, loc);
          }
        }
        k := k + 1;
      }
    }

    /** The body of verifyVariables for one node. */
    method VisitNode(loc: Located)
      modifies this
      ensures State() == NodeStep(loc, old(State()))
    {
      var n := loc.node;
      var rt := PreOrder(n);
      var scope := ScopeOf(loc);
      if n.name == "expressao" {
        if At(rt, 1).name == "atribuicao" {
          InitVariables(At(rt, 4).name, scope, loc);
        } else {
          VisitIds(rt, scope, loc, false);
        }
      } else if n.name == "leia" {
        VisitIds(rt, scope, loc, true);
      } else if n.name in ["se", "repita", "escreva", "retorna"] {
        VisitIds(rt, scope, loc, false);
      } else if n.name == "chamada_funcao" {
        UsedVariables(Lexeme(Child(n, 0)), scope, loc);
      }
    }

    /** verifyVariables: every node under every acao. */
    method VerifyVariables(root: Node)
      modifies this
      ensures State() == VerifyVariablesSpec(root, old(State()))
    {
      var acoes := FindAll(Located(root, []), "acao");
      var i := 0;
      while i < |acoes|
        invariant 0 <= i <= |acoes|
        invariant AcaoFold(acoes[i..], State()) == VerifyVariablesSpec(root, old(State()))
        decreases |acoes| - i
      {
        ghost var w0 := State();
        assert AcaoFold(acoes[i..], w0)
               == AcaoFold(acoes[i + 1..], NodesFold(Walk(acoes[i].node, acoes[i].ancestors), w0))
        by { assert acoes[i..][1..] == acoes[i + 1..]; }
        VisitAcao(acoes[i]);
        i := i + 1;
      }
    }

    /** One acao of verifyVariables: every node of its subtree in turn. */
    method VisitAcao(a: Located)
      modifies this
      ensures State() == NodesFold(Walk(a.node, a.ancestors), old(State()))
    {
      var nodes := Walk(a.node, a.ancestors);
      var j := 0;
      while j < |nodes|
        invariant 0 <= j <= |nodes|
        invariant NodesFold(nodes[j..], State()) == NodesFold(nodes, old(State()))
        decreases |nodes| - j
      {
        assert nodes[j..][1..] == nodes[j + 1..];
        VisitNode(nodes[j]);
        j := j + 1;
      }
    }

    /** verifyVariableIsUsed: one warning at most per entry. */
    method VerifyVariableIsUsed()
      modifies this
      ensures log == old(log) + UsageWarnings(table, errors)
      ensures table == old(table) && errors == old(errors)
    {
      var i := 0;
      while i < |table|
        invariant 0 <= i <= |table|
        invariant table == old(table) && errors == old(errors)
        invariant log == old(log) + UsageWarnings(table[..i], errors)
        decreases |table| - i
      {
        assert table[..i + 1][..i] == table[..i];
        var w := UsageWarning(table[i], errors);
        if w.Some? {
          log := log + [w.value];
        }
        i := i + 1;
      }
      assert table[..i] == table;
    }

    /** verifyFunctionReturn over every declaracao_funcao of root. */
    method VerifyFunctionReturn(root: Node)
      modifies this
      ensures log == old(log) + FunctionReturnDiagsAll(FindAll(Located(root, []), "declaracao_funcao"), table)
      ensures table == old(table) && errors == old(errors)
    {
      CheckReturns(FindAll(Located(root, []), "declaracao_funcao"));
    }

    /** The loop of verifyFunctionReturn over the functions found. */
    method CheckReturns(ls: seq<Located>)
      modifies this
      ensures log == old(log) + FunctionReturnDiagsAll(ls, table)
      ensures table == old(table) && errors == old(errors)
    {
      var i := 0;
      while i < |ls|
        invariant 0 <= i <= |ls|
        invariant table == old(table) && errors == old(errors)
        invariant log == old(log) + FunctionReturnDiagsAll(ls[..i], table)
        decreases |ls| - i
      {
        assert ls[..i + 1] == ls[..i] + [ls[i]];
        FunctionReturnDiagsSnoc(ls[..i], ls[i], table);
        log := log + FunctionReturnDiags(ls[i], table);
        i := i + 1;
      }
      assert ls[..i] == ls;
    }

    /** verifyCallFunctions over every chamada_funcao of root. */
    method VerifyCallFunctions(root: Node)
      modifies this
      ensures log == old(log) + CallDiagsAll(FindAll(Located(root, []), "chamada_funcao"), table)
      ensures table == old(table) && errors == old(errors)
    {
      CheckCalls(FindAll(Located(root, []), "chamada_funcao"));
    }

    /** The loop of verifyCallFunctions over the calls found. */
    method CheckCalls(ls: seq<Located>)
      modifies this
      ensures log == old(log) + CallDiagsAll(ls, table)
      ensures table == old(table) && errors == old(errors)
    {
      var t := table;
      var i := 0;
      while i < |ls|
        invariant 0 <= i <= |ls|
        invariant table == t && errors == old(errors)
        invariant log == old(log) + CallDiagsAll(ls[..i], t)
        decreases |ls| - i
      {
        CallDiagsSnoc(ls, i, t);
        log := log + CallDiags(ls[i], t);
        i := i + 1;
      }
      assert ls[..i] == ls;
    }

    /** verifyFunctionsIsUsed: a warning per function still unused. */
    method VerifyFunctionsIsUsed()
      modifies this
      ensures log == old(log) + FunctionUseWarnings(table)
      ensures table == old(table) && errors == old(errors)
    {
      var i := 0;
      while i < |table|
        invariant 0 <= i <= |table|
        invariant table == old(table) && errors == old(errors)
        invariant log == old(log) + FunctionUseWarnings(table[..i])
        decreases |table| - i
      {
        assert table[..i + 1][..i] == table[..i];
        var w := FunctionUseWarning(table[i]);
        if w.Some? {
          log := log + [w.value];
        }
        i := i + 1;
      }
      assert table[..i] == table;
    }

    /** verifyFunctions. */
    method VerifyFunctions(root: Node)
      modifies this
      ensures table == old(table) && errors == old(errors)
      ensures log == old(log)
                     + FunctionReturnDiagsAll(FindAll(Located(root, []), "declaracao_funcao"), table)
                     + CallDiagsAll(FindAll(Located(root, []), "chamada_funcao"), table)
                     + FunctionUseWarnings(table)
    {
      VerifyFunctionReturn(root);
      VerifyCallFunctions(root);
      VerifyFunctionsIsUsed();
    }

    /** checkRules. The analyser stays Valid whenever the error list had
        no duplicate to begin with. */
    method CheckRules(root: Node)
      modifies this
      ensures State() == CheckRulesSpec(root, old(State()))
      ensures NoDuplicates(old(errors)) ==> Valid()
    {
      BuildSymbolTable(root);
      if !MainFunctionExists(table) {
        log := log + [Diag("ERR-SEM-MAIN-NOT-DECL", [])];
      }
      VerifyVariables(root);
      VerifyVariableIsUsed();
      VerifyFunctions(root);
    }
  }
}
