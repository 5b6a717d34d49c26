/** The symbol table of the semantic analyser (tppsema.py) and its read-only
    queries: declaration lookup, type lookup, the main-function test, the
    scope of a node, the factors of an expression, the dominant factor type
    and the argument count of a call. */
module SymbolTable {
  import opened Cst

  /** 'var' or 'func' in the source's declarationType. */
  datatype DeclKind = VarDecl | FuncDecl

  /** The init/used flags: 'N', 'Y', and 'S' (the used flag of principal). */
  datatype Flag = N | Y | S

  /** A declared array size: the source keeps the integers 1 and 0 as
      defaults and the index lexeme once a bracket is seen. */
  datatype Size = Count(n: int) | Text(s: string)

  datatype Param = Param(ptype: string, pname: string)

  /** One record of the table. Variables carry no parameters and functions
      no error count in the source; here both fields are always present
      and hold [] and 0 where the source has no key. */
  datatype Entry = Entry(
    declKind: DeclKind, etype: string, line: Option<int>, token: string,
    name: string, scope: string, init: Flag, used: Flag,
    dimension: int, size1: Size, size2: Size, params: seq<Param>, errors: int)

  /** A name/scope pair of the write-once error list variablesError. */
  datatype ErrPair = ErrPair(name: string, scope: string)

  /** A diagnostic: the message key and the values formatted into it. */
  datatype Diag = Diag(key: string, args: seq<string>)

  // ---------------------------------------------------------------------
  // Error list.

  /** variableHasError: whether the pair (name, scope) was recorded. */
  predicate HasError(errs: seq<ErrPair>, name: string, scope: string)
  {
    exists k :: 0 <= k < |errs| && errs[k] == ErrPair(name, scope)
  }

  /** No pair is recorded twice. */
  predicate NoDuplicates(errs: seq<ErrPair>)
  {
    forall i, j :: 0 <= i < j < |errs| ==> errs[i] != errs[j]
  }

  // ---------------------------------------------------------------------
  // Lookups.

  /** Whether e is visible under name from scope: its own name in the
      global scope or in the given one. */
  predicate Owns(e: Entry, name: string, scope: string)
  {
    e.name == name && (e.scope == "global" || e.scope == scope)
  }

  /** Whether some parameter in ps is called name. */
  function HasParam(ps: seq<Param>, name: string): (r: bool)
    ensures r <==> exists j :: 0 <= j < |ps| && ps[j].pname == name
  {
    if ps == [] then false
    else ps[0].pname == name || HasParam(ps[1..], name)
  }

  /** The test of one iteration of variableIsDeclared and getType: e owns
      name, or, outside the global scope, e is a function with a parameter
      called name. */
  predicate Hit(e: Entry, name: string, scope: string)
  {
    Owns(e, name, scope) || (scope != "global" && e.declKind == FuncDecl && HasParam(e.params, name))
  }

  /** variableIsDeclared. */
  function IsDeclared(t: seq<Entry>, name: string, scope: string): (r: bool)
    ensures r <==> exists i :: 0 <= i < |t| && Hit(t[i], name, scope)
  {
    if t == [] then false
    else if Hit(t[0], name, scope) then true
    else
      var rest := IsDeclared(t[1..], name, scope);
      assert rest <==> exists i :: 1 <= i < |t| && Hit(t[i], name, scope) by {
        if rest {
          var i :| 0 <= i < |t[1..]| && Hit(t[1..][i], name, scope);
          assert Hit(t[i + 1], name, scope);
        }
        if exists i :: 1 <= i < |t| && Hit(t[i], name, scope) {
          var i :| 1 <= i < |t| && Hit(t[i], name, scope);
          assert Hit(t[1..][i - 1], name, scope);
        }
      }
      rest
  }

  /** The index of the first entry that Hit selects. */
  function FirstHit(t: seq<Entry>, name: string, scope: string): (r: Option<nat>)
    ensures r.Some? ==> r.value < |t| && Hit(t[r.value], name, scope)
                        && forall j :: 0 <= j < r.value ==> !Hit(t[j], name, scope)
    ensures r.None? ==> forall j :: 0 <= j < |t| ==> !Hit(t[j], name, scope)
  {
    if t == [] then None
    else if Hit(t[0], name, scope) then Some(0)
    else
      match FirstHit(t[1..], name, scope)
      case None =>
        assert forall j :: 1 <= j < |t| ==> t[j] == t[1..][j - 1];
        None
      case Some(k) =>
        assert forall j :: 1 <= j <= k ==> t[j] == t[1..][j - 1];
        Some(k + 1)
  }

  /** getType: the type of the first entry that owns name, or of the
      first function with a parameter called name (the function's
      type, not the parameter's); None when nothing matches. */
  function GetType(t: seq<Entry>, name: string, scope: string): (r: Option<string>)
    ensures r.Some? <==> IsDeclared(t, name, scope)
    ensures r.Some? ==> exists i :: 0 <= i < |t| && Hit(t[i], name, scope) && r.value == t[i].etype
                                    && forall j :: 0 <= j < i ==> !Hit(t[j], name, scope)
  {
    match FirstHit(t, name, scope)
    case Some(i) => Some(t[i].etype)
    case None => None
  }

  /** mainFunctionExists. */
  function MainFunctionExists(t: seq<Entry>): (r: bool)
    ensures r <==> exists i :: 0 <= i < |t| && t[i].declKind == FuncDecl && t[i].name == "principal"
  {
    if t == [] then false
    else if t[0].declKind == FuncDecl && t[0].name == "principal" then true
    else
      var rest := MainFunctionExists(t[1..]);
      assert forall i :: 1 <= i < |t| ==> t[i] == t[1..][i - 1];
      rest
  }

  // ---------------------------------------------------------------------
  // Position of a node.

  /** The index of the first ancestor that is a cabecalho whose first child
      is the ID wrapper. */
  function HeaderIndex(anc: seq<Node>): (r: Option<nat>)
    ensures r.Some? ==> r.value < |anc| && anc[r.value].name == "cabecalho"
                        && Child(anc[r.value], 0).name == "ID"
    ensures r.None? <==> forall j :: 0 <= j < |anc| ==> !(anc[j].name == "cabecalho" && Child(anc[j], 0).name == "ID")
  {
    if anc == [] then None
    else if anc[0].name == "cabecalho" && Child(anc[0], 0).name == "ID" then Some(0)
    else
      var rest := HeaderIndex(anc[1..]);
      assert forall j :: 1 <= j < |anc| ==> anc[j] == anc[1..][j - 1];
      if rest.Some? then Some(rest.value + 1) else None
  }

  /** getScope: the function name held by the outermost enclosing header,
      or "global" outside every function. */
  function ScopeOf(loc: Located): (r: string)
    ensures HeaderIndex(loc.ancestors).None? ==> r == "global"
    ensures HeaderIndex(loc.ancestors).Some? ==>
              r == Lexeme(Child(loc.ancestors[HeaderIndex(loc.ancestors).value], 0))
  {
    match HeaderIndex(loc.ancestors)
    case Some(i) => Lexeme(Child(loc.ancestors[i], 0))
    case None => "global"
  }

  /** Whether some ancestor of loc has the given name. */
  function UnderName(anc: seq<Node>, name: string): (r: bool)
    ensures r <==> exists j :: 0 <= j < |anc| && anc[j].name == name
  {
    if anc == [] then false
    else anc[0].name == name || UnderName(anc[1..], name)
  }

  /** valueIsIndex: loc lies inside an array index. */
  function ValueIsIndex(loc: Located): bool
  {
    UnderName(loc.ancestors, "indice")
  }

  /** valueIsArgument: loc lies inside the arguments of a call. */
  function ValueIsArgument(loc: Located): bool
  {
    UnderName(loc.ancestors, "lista_argumentos")
  }

  // ---------------------------------------------------------------------
  // Factors of an expression.

  /** One factor: "var", "func" or "numero" (or the name of whatever else
      stands first in the fator), its type and its value text. */
  datatype Factor = Factor(factor: string, ftype: string, value: string)

  /** The type of a literal class node: inteiro for NUM_INTEIRO, flutuante
      for the two other classes. */
  function LiteralType(cls: string): (r: string)
    ensures r == "inteiro" <==> cls == "NUM_INTEIRO"
    ensures r == "inteiro" || r == "flutuante"
  {
    if cls == "NUM_INTEIRO" then "inteiro" else "flutuante"
  }

  /** The factor one fator node contributes, if typed. A call is looked up
      in the global scope, a variable in the scope of the expression; a
      literal is always kept, a variable or call exactly when it is
      declared there, with the type getType finds. */
  function FactorOf(p: Node, t: seq<Entry>, scope: string): (r: Option<Factor>)
    ensures r.Some? ==> r.value.value == Child(Child(Child(p, 0), 0), 0).name
                        && r.value.factor == (if Child(p, 0).name == "chamada_funcao" then "func" else Child(p, 0).name)
    ensures Child(p, 0).name == "numero" ==>
              r.Some? && r.value.ftype == LiteralType(Child(Child(p, 0), 0).name)
    ensures Child(p, 0).name != "numero" ==>
              var factor := if Child(p, 0).name == "chamada_funcao" then "func" else Child(p, 0).name;
              var realScope := if factor == "func" then "global" else scope;
              (r.Some? <==> IsDeclared(t, Child(Child(Child(p, 0), 0), 0).name, realScope))
              && (r.Some? ==> GetType(t, r.value.value, realScope) == Some(r.value.ftype))
  {
    var first := Child(p, 0);
    var factor := if first.name == "chamada_funcao" then "func" else first.name;
    var value := Child(Child(first, 0), 0).name;
    var cls := Child(first, 0).name;
    if factor == "numero" then Some(Factor(factor, LiteralType(cls), value))
    else
      var realScope := if factor == "func" then "global" else scope;
      match GetType(t, value, realScope)
      case Some(ty) => Some(Factor(factor, ty, value))
      case None => None
  }

  /** The factors of the fator nodes in ls that lie neither in an index nor
      in an argument list, in order. */
  function FactorsOf(ls: seq<Located>, t: seq<Entry>, scope: string): (r: seq<Factor>)
    ensures |r| <= |ls|
  {
    if ls == [] then []
    else
      var p := ls[0];
      var here := if !ValueIsIndex(p) && !ValueIsArgument(p) then FactorOf(p.node, t, scope) else None;
      (if here.Some? then [here.value] else []) + FactorsOf(ls[1..], t, scope)
  }

  /** getFactors: the typed factors of the subtree at loc, in pre-order. */
  function GetFactors(loc: Located, t: seq<Entry>, scope: string): seq<Factor>
  {
    FactorsOf(FindAll(loc, "fator"), t, scope)
  }

  /** Whether every factor has type ty. */
  predicate AllOfType(fs: seq<Factor>, ty: string)
  {
    forall k :: 0 <= k < |fs| ==> fs[k].ftype == ty
  }

  /** getTypeFactors: ty when every factor has it, otherwise the type of the
      last factor whose type differs from ty. */
  function GetTypeFactors(fs: seq<Factor>, ty: string): (r: string)
    ensures AllOfType(fs, ty) ==> r == ty
    ensures !AllOfType(fs, ty) ==>
              exists k :: 0 <= k < |fs| && fs[k].ftype != ty && r == fs[k].ftype
                          && forall j :: k < j < |fs| ==> fs[j].ftype == ty
  {
    if fs == [] then ty
    else
      var last := fs[|fs| - 1];
      var init := fs[..|fs| - 1];
      assert forall j :: 0 <= j < |init| ==> init[j] == fs[j];
      if last.ftype != ty then last.ftype
      else GetTypeFactors(init, ty)
  }

  // ---------------------------------------------------------------------
  // Argument count.

  /** The lista_argumentos levels on the left spine from n whose second
      child is the comma. */
  function Commas(n: Node): (r: nat)
  {
    if n.name != "lista_argumentos" || |n.children| == 0 then 0
    else (if |n.children| > 1 && n.children[1].name == "VIRGULA" then 1 else 0) + Commas(n.children[0])
  }

  /** getCountParameters: one more than the commas on the spine. */
  function GetCountParameters(n: Node): (r: nat)
    ensures r >= 1
    ensures n.name != "lista_argumentos" ==> r == 1
  {
    1 + Commas(n)
  }

  // ---------------------------------------------------------------------
  // The source's loops, each proved to compute the definition above.

  /** The loop of mainFunctionExists. */
  method FindMainFunction(t: seq<Entry>) returns (r: bool)
    ensures r == MainFunctionExists(t)
  {
    for i := 0 to |t|
      invariant forall j :: 0 <= j < i ==> !(t[j].declKind == FuncDecl && t[j].name == "principal")
    {
      if t[i].declKind == FuncDecl && t[i].name == "principal" {
        return true;
      }
    }
    return false;
  }

  /** The inner loop over a function's parameters. */
  method ParamNamed(ps: seq<Param>, name: string) returns (r: bool)
    ensures r == HasParam(ps, name)
  {
    for j := 0 to |ps|
      invariant forall k :: 0 <= k < j ==> ps[k].pname != name
    {
      if ps[j].pname == name {
        return true;
      }
    }
    return false;
  }

  /** The loop shared by variableIsDeclared and getType: the index of the
      first entry the test selects. */
  method SearchTable(t: seq<Entry>, name: string, scope: string) returns (r: Option<nat>)
    ensures r == FirstHit(t, name, scope)
  {
    for i := 0 to |t|
      invariant forall j :: 0 <= j < i ==> !Hit(t[j], name, scope)
    {
      if t[i].name == name && (t[i].scope == "global" || t[i].scope == scope) {
        FirstHitAt(t, name, scope, i);
        return Some(i);
      } else if scope != "global" && t[i].declKind == FuncDecl {
        var p := ParamNamed(t[i].params, name);
        if p {
          FirstHitAt(t, name, scope, i);
          return Some(i);
        }
      }
    }
    return None;
  }

  /** The first entry that Hit selects is the one FirstHit finds. */
  lemma FirstHitAt(t: seq<Entry>, name: string, scope: string, i: nat)
    requires i < |t| && Hit(t[i], name, scope)
    requires forall j :: 0 <= j < i ==> !Hit(t[j], name, scope)
    ensures FirstHit(t, name, scope) == Some(i)
  {
    var r := FirstHit(t, name, scope);
    assert r.Some?;
    assert !(r.value < i);
    assert !(i < r.value);
  }

  /** variableIsDeclared. */
  method VariableIsDeclared(t: seq<Entry>, name: string, scope: string) returns (r: bool)
    ensures r == IsDeclared(t, name, scope)
  {
    var k := SearchTable(t, name, scope);
    r := k.Some?;
  }

  /** getType. */
  method TypeOfName(t: seq<Entry>, name: string, scope: string) returns (r: Option<string>)
    ensures r == GetType(t, name, scope)
  {
    var k := SearchTable(t, name, scope);
    r := if k.Some? then Some(t[k.value].etype) else None;
  }

  /** The loop of getScope. */
  method GetScope(loc: Located) returns (scope: string)
    ensures scope == ScopeOf(loc)
  {
    var anc := loc.ancestors;
    for i := 0 to |anc|
      invariant forall j :: 0 <= j < i ==> !(anc[j].name == "cabecalho" && Child(anc[j], 0).name == "ID")
    {
      if anc[i].name == "cabecalho" && Child(anc[i], 0).name == "ID" {
        assert HeaderIndex(anc) == Some(i) by {
          var h := HeaderIndex(anc);
          assert h.Some?;
          assert !(h.value < i);
          assert !(i < h.value) by {
            if i < h.value {
              HeaderIndexFirst(anc, i);
            }
          }
        }
        return Lexeme(Child(anc[i], 0));
      }
    }
    return "global";
  }

  /** No ancestor before the first header is a header. */
  lemma {:induction false} HeaderIndexFirst(anc: seq<Node>, i: nat)
    requires i < |anc| && anc[i].name == "cabecalho" && Child(anc[i], 0).name == "ID"
    ensures HeaderIndex(anc).Some? && HeaderIndex(anc).value <= i
  {
    if i > 0 && !(anc[0].name == "cabecalho" && Child(anc[0], 0).name == "ID") {
      assert anc[1..][i - 1] == anc[i];
      HeaderIndexFirst(anc[1..], i - 1);
    }
  }

  /** The loop of valueIsIndex and valueIsArgument. */
  method AncestorNamed(anc: seq<Node>, name: string) returns (r: bool)
    ensures r == UnderName(anc, name)
  {
    for i := 0 to |anc|
      invariant forall j :: 0 <= j < i ==> anc[j].name != name
    {
      if anc[i].name == name {
        return true;
      }
    }
    return false;
  }

  /** The loop of getTypeFactors. */
  method TypeOfFactors(fs: seq<Factor>, ty: string) returns (r: string)
    ensures r == GetTypeFactors(fs, ty)
  {
    r := ty;
    for i := 0 to |fs|
      invariant r == GetTypeFactors(fs[..i], ty)
    {
      assert fs[..i + 1][..i] == fs[..i];
      if fs[i].ftype != ty {
        r := fs[i].ftype;
      }
    }
    assert fs[..|fs|] == fs;
  }

  /** The while loop of getCountParameters, down the left spine. */
  method CountParameters(n: Node) returns (i: nat)
    ensures i == GetCountParameters(n)
  {
    i := 1;
    var item := n;
    while item.name == "lista_argumentos" && |item.children| > 0
      invariant i + Commas(item) == GetCountParameters(n)
      decreases item
    {
      if |item.children| > 1 && item.children[1].name == "VIRGULA" {
        i := i + 1;
      }
      item := item.children[0];
    }
  }
}
