/** The tree-building actions of the TPP grammar (tppparser.py). PLY drives the
    LALR automaton and calls one action per reduced production; each action
    receives the values of the production's symbols (child nodes, or lexemes
    for tokens) and the lexer's current line, and builds one node. Here every
    action is a function from those values to the node it builds; the
    `.parent` links the source sets are implicit in the children lists. */
module Parser {
  import opened Cst

  // ---------------------------------------------------------------------
  // Program, declarations, variables.

  /** p_programa: the root of the tree (the module-level `root`). */
  function Programa(decls: Node, line: int): Node
  {
    Node("programa", "PROGRAMA", Some(line), [decls])
  }

  /** p_lista_declaracoes: `lista_declaracoes declaracao` (prev present) or
      `declaracao`. */
  function ListaDeclaracoes(prev: Option<Node>, decl: Node, line: int): Node
  {
    Node("lista_declaracoes", "LISTA_DECLARACOES", Some(line),
         (if prev.Some? then [prev.value] else []) + [decl])
  }

  /** p_declaracao: one of declaracao_variaveis, inicializacao_variaveis,
      declaracao_funcao. */
  function Declaracao(d: Node, line: int): Node
  {
    Node("declaracao", "DECLARACAO", Some(line), [d])
  }

  /** p_declaracao_variaveis: `tipo DOIS_PONTOS lista_variaveis`. */
  function DeclaracaoVariaveis(tipo: Node, colon: string, vars: Node, line: int): Node
  {
    Node("declaracao_variaveis", "DECLARACAO_VARIAVEIS", Some(line),
         [tipo, Wrap("DOIS_PONTOS", "DOIS_PONTOS", colon, "SIMBOLO", line), vars])
  }

  /** p_inicializacao_variaveis: `atribuicao`. */
  function InicializacaoVariaveis(atrib: Node, line: int): Node
  {
    Node("inicializacao_variaveis", "INICIALIZACAO_VARIAVEIS", Some(line), [atrib])
  }

  /** p_lista_variaveis: `lista_variaveis VIRGULA var` (prev present) or
      `var`. The comma wrapper always holds ",". */
  function ListaVariaveis(prev: Option<Node>, v: Node, line: int): Node
  {
    Node("lista_variaveis", "LISTA_VARIAVEIS", Some(line),
         if prev.Some? then [prev.value, Wrap("virgula", "VIRGULA", ",", "SIMBOLO", line), v]
         else [v])
  }

  /** p_var: `ID` or `ID indice`. */
  function Var(id: string, indice: Option<Node>, line: int): Node
  {
    Node("var", "VAR", Some(line),
         [Wrap("ID", "ID", id, "ID", line)] + (if indice.Some? then [indice.value] else []))
  }

  /** p_indice: `indice [ expressao ]` (prev present) or `[ expressao ]`. */
  function Indice(prev: Option<Node>, open: string, expr: Node, close: string, line: int): Node
  {
    var brackets := [Wrap("abre_colchete", "ABRE_COLCHETE", open, "SIMBOLO", line), expr,
                     Wrap("fecha_colchete", "FECHA_COLCHETE", close, "SIMBOLO", line)];
    Node("indice", "INDICE", Some(line), (if prev.Some? then [prev.value] else []) + brackets)
  }

  /** p_tipo: the lexeme "inteiro" gives an INTEIRO wrapper, anything else a
      FLUTUANTE one; the leaf's tag is the upper-cased lexeme. */
  function Tipo(lexeme: string, line: int): (r: Node)
    ensures |r.children| == 1
    ensures r.children[0].name == "INTEIRO" <==> lexeme == "inteiro"
    ensures r.children[0].name == "INTEIRO" || r.children[0].name == "FLUTUANTE"
    ensures Lexeme(r.children[0]) == lexeme && Child(r.children[0], 0).kind == Upper(lexeme)
  {
    var cls := if lexeme == "inteiro" then "INTEIRO" else "FLUTUANTE";
    Node("tipo", "TIPO", Some(line), [Wrap(cls, cls, lexeme, Upper(lexeme), line)])
  }

  // ---------------------------------------------------------------------
  // Functions and parameters.

  /** p_declaracao_funcao: `tipo cabecalho` (tipo present) or `cabecalho`. */
  function DeclaracaoFuncao(tipo: Option<Node>, cabecalho: Node, line: int): Node
  {
    Node("declaracao_funcao", "DECLARACAO_FUNCAO", Some(line),
         (if tipo.Some? then [tipo.value] else []) + [cabecalho])
  }

  /** p_cabecalho: `ID ( lista_parametros ) corpo FIM`; the punctuation
      wrappers hold fixed lexemes. */
  function Cabecalho(id: string, params: Node, corpo: Node, line: int): Node
  {
    Node("cabecalho", "CABECALHO", Some(line),
         [Wrap("ID", "ID", id, "ID", line),
          Wrap("ABRE_PARENTESE", "ABRE_PARENTESE", "(", "SIMBOLO", line),
          params,
          Wrap("FECHA_PARENTESE", "FECHA_PARENTESE", ")", "SIMBOLO", line),
          corpo,
          Wrap("FIM", "FIM", "fim", "FIM", line)])
  }

  /** p_lista_parametros: `lista_parametros VIRGULA parametro` (prev present),
      `parametro` or `vazio`. */
  function ListaParametros(prev: Option<Node>, item: Node, line: int): Node
  {
    Node("lista_parametros", "LISTA_PARAMETROS", Some(line),
         if prev.Some? then [prev.value, Wrap("virgula", "VIRGULA", ",", "SIMBOLO", line), item]
         else [item])
  }

  /** p_parametro: `tipo DOIS_PONTOS ID` or `parametro [ ]`, told apart by
      whether the second symbol is ":"; third is the identifier in the first
      form and the closing bracket in the second. */
  function Parametro(first: Node, second: string, third: string, line: int): Node
  {
    Node("parametro", "PARAMETRO", Some(line),
         if second == ":" then
           [first, Wrap("DOIS_PONTOS", "DOIS_PONTOS", ":", "SIMBOLO", line),
            Wrap("id", "ID", third, "ID", line)]
         else
           [first, Wrap("abre_colchete", "ABRE_COLCHETE", "[", "SIMBOLO", line),
            Wrap("fecha_colchete", "FECHA_COLCHETE", "]", "SIMBOLO", line)])
  }

  // ---------------------------------------------------------------------
  // Statements.

  /** p_corpo: `corpo acao` (action present) or `vazio`. */
  function Corpo(first: Node, action: Option<Node>, line: int): Node
  {
    Node("corpo", "CORPO", Some(line), [first] + (if action.Some? then [action.value] else []))
  }

  /** p_acao: one statement. */
  function Acao(stmt: Node, line: int): Node
  {
    Node("acao", "ACAO", Some(line), [stmt])
  }

  /** The lexeme of SENAO and the else body of a two-armed `se`. */
  datatype ElsePart = ElsePart(senao: string, body: Node)

  /** p_se: `SE expressao ENTAO corpo FIM` or
      `SE expressao ENTAO corpo SENAO corpo FIM`. The closing wrapper is
      named "fim" in the first form and "FIM" in the second. */
  function Se(se: string, cond: Node, entao: string, body: Node, elsePart: Option<ElsePart>,
              fim: string, line: int): (r: Node)
    ensures |r.children| == (if elsePart.Some? then 7 else 5)
    ensures r.children[1] == cond && r.children[3] == body
    ensures elsePart.Some? ==> r.children[5] == elsePart.value.body
    ensures Lexeme(r.children[|r.children| - 1]) == fim
  {
    var head := [Wrap("SE", "SE", se, "SE", line), cond, Wrap("ENTAO", "ENTAO", entao, "ENTAO", line), body];
    Node("se", "SE", Some(line),
         if elsePart.Some? then
           head + [Wrap("SENAO", "SENAO", elsePart.value.senao, "SENAO", line), elsePart.value.body,
                   Wrap("FIM", "FIM", fim, "FIM", line)]
         else
           head + [Wrap("fim", "FIM", fim, "FIM", line)])
  }

  /** p_repita: `REPITA corpo ATE expressao`. */
  function Repita(repita: string, body: Node, ate: string, cond: Node, line: int): Node
  {
    Node("repita", "REPITA", Some(line),
         [Wrap("REPITA", "REPITA", repita, "REPITA", line), body, Wrap("ATE", "ATE", ate, "ATE", line), cond])
  }

  /** p_atribuicao: `var ATRIBUICAO expressao`; the operator wrapper holds ":=". */
  function Atribuicao(v: Node, expr: Node, line: int): Node
  {
    Node("atribuicao", "ATRIBUICAO", Some(line),
         [v, Wrap("ATRIBUICAO", "ATRIBUICAO", ":=", "SIMBOLO", line), expr])
  }

  /** The common shape of p_leia, p_escreva and p_retorna:
      `KEYWORD ( operand )`. */
  function KeywordCall(name: string, kind: string, keyword: string, operand: Node, line: int): Node
  {
    Node(name, kind, Some(line),
         [Wrap(kind, kind, keyword, kind, line),
          Wrap("ABRE_PARENTESE", "ABRE_PARENTESE", "(", "SIMBOLO", line),
          operand,
          Wrap("FECHA_PARENTESE", "FECHA_PARENTESE", ")", "SIMBOLO", line)])
  }

  /** p_leia: `LEIA ( var )`. */
  function Leia(keyword: string, v: Node, line: int): Node
  {
    KeywordCall("leia", "LEIA", keyword, v, line)
  }

  /** p_escreva: `ESCREVA ( expressao )`. */
  function Escreva(keyword: string, expr: Node, line: int): Node
  {
    KeywordCall("escreva", "ESCREVA", keyword, expr, line)
  }

  /** p_retorna: `RETORNA ( expressao )`. */
  function Retorna(keyword: string, expr: Node, line: int): Node
  {
    KeywordCall("retorna", "RETORNA", keyword, expr, line)
  }

  // ---------------------------------------------------------------------
  // Expressions.

  /** p_expressao: `expressao_logica` or `atribuicao`. */
  function Expressao(inner: Node, line: int): Node
  {
    Node("expressao", "EXPRESSAO", Some(line), [inner])
  }

  /** An operator and the right operand of one binary precedence level. */
  datatype Rhs = Rhs(op: Node, right: Node)

  /** The common shape of the four binary levels: `left` alone, or
      `left operator right`. */
  function Level(name: string, kind: string, left: Node, rhs: Option<Rhs>, line: int): (r: Node)
    ensures |r.children| == (if rhs.Some? then 3 else 1)
    ensures r.name == name && r.children[0] == left
    ensures rhs.Some? ==> r.children[1] == rhs.value.op && r.children[2] == rhs.value.right
  {
    Node(name, kind, Some(line), [left] + (if rhs.Some? then [rhs.value.op, rhs.value.right] else []))
  }

  /** p_expressao_logica. */
  function ExpressaoLogica(left: Node, rhs: Option<Rhs>, line: int): Node
  {
    Level("expressao_logica", "EXPRESSAO_LOGICA", left, rhs, line)
  }

  /** p_expressao_simples (the relational level). */
  function ExpressaoSimples(left: Node, rhs: Option<Rhs>, line: int): Node
  {
    Level("expressao_simples", "EXPRESSAO_SIMPLES", left, rhs, line)
  }

  /** p_expressao_aditiva. */
  function ExpressaoAditiva(left: Node, rhs: Option<Rhs>, line: int): Node
  {
    Level("expressao_aditiva", "EXPRESSAO_ADITIVA", left, rhs, line)
  }

  /** p_expressao_multiplicativa. */
  function ExpressaoMultiplicativa(left: Node, rhs: Option<Rhs>, line: int): Node
  {
    Level("expressao_multiplicativa", "EXPRESSAO_MULTIPLICATIVA", left, rhs, line)
  }

  /** p_expressao_unaria: `fator`, or a sign or negation operator node followed
      by `fator`. The source's test `p[1] == '!'` compares a node with a
      string and never holds, so the first symbol is always attached as is. */
  function ExpressaoUnaria(first: Node, fator: Option<Node>, line: int): Node
  {
    Node("expressao_unaria", "EXPRESSAO_UNARIA", Some(line),
         [first] + (if fator.Some? then [fator.value] else []))
  }

  /** The lexeme each relational class stands for: the inverse of
      RelationalClass. */
  function RelationalLexeme(cls: string): Option<string>
  {
    if cls == "MENOR" then Some("<")
    else if cls == "MAIOR" then Some(">")
    else if cls == "IGUAL" then Some("=")
    else if cls == "DIFERENTE" then Some("<>")
    else if cls == "MENOR_IGUAL" then Some("<=")
    else if cls == "MAIOR_IGUAL" then Some(">=")
    else None
  }

  /** The class node p_operador_relacional builds for a lexeme, if any: the
      six relational lexemes get a class each, and the class gives the
      lexeme back. */
  function RelationalClass(lexeme: string): (r: Option<string>)
    ensures r.Some? <==> lexeme in ["<", ">", "=", "<>", "<=", ">="]
    ensures r.Some? ==> RelationalLexeme(r.value) == Some(lexeme)
  {
    if lexeme == "<" then Some("MENOR")
    else if lexeme == ">" then Some("MAIOR")
    else if lexeme == "=" then Some("IGUAL")
    else if lexeme == "<>" then Some("DIFERENTE")
    else if lexeme == "<=" then Some("MENOR_IGUAL")
    else if lexeme == ">=" then Some("MAIOR_IGUAL")
    else None
  }

  /** p_operador_relacional. For a lexeme outside the six the source prints
      ERR-SYN-FATOR and then fails on an unbound local, so no node results. */
  function OperadorRelacional(lexeme: string, line: int): (r: Option<Node>)
    ensures r.Some? <==> lexeme in ["<", ">", "=", "<>", "<=", ">="]
    ensures r.Some? ==> |r.value.children| == 1 && Lexeme(r.value.children[0]) == lexeme
    ensures r.Some? ==> RelationalLexeme(r.value.children[0].name) == Some(lexeme)
  {
    match RelationalClass(lexeme)
    case Some(cls) =>
      Some(Node("operador_relacional", "OPERADOR_RELACIONAL", Some(line),
                [Wrap(cls, cls, lexeme, "SIMBOLO", line)]))
    case None => None
  }

  /** p_operador_soma: "+" gives MAIS, anything else MENOS; the leaf holds a
      fixed sign. */
  function OperadorSoma(lexeme: string, line: int): (r: Node)
    ensures |r.children| == 1
    ensures r.children[0].name == "MAIS" <==> lexeme == "+"
    ensures Lexeme(r.children[0]) == (if lexeme == "+" then "+" else "-")
  {
    Node("operador_soma", "OPERADOR_SOMA", Some(line),
         if lexeme == "+" then [Wrap("MAIS", "MAIS", "+", "SIMBOLO", line)]
         else [Wrap("MENOS", "MENOS", "-", "SIMBOLO", line)])
  }

  /** p_operador_logico: "&&" gives E, anything else OU. The OU node is
      tagged OPERADOR_SOMA in the source. */
  function OperadorLogico(lexeme: string, line: int): (r: Node)
    ensures r.name == "operador_logico" && |r.children| == 1
    ensures r.children[0].name == "E" <==> lexeme == "&&"
    ensures r.kind == "OPERADOR_LOGICO" <==> lexeme == "&&"
    ensures Lexeme(r.children[0]) == lexeme
  {
    if lexeme == "&&" then
      Node("operador_logico", "OPERADOR_LOGICO", Some(line), [Wrap("E", "E", lexeme, "SIMBOLO", line)])
    else
      Node("operador_logico", "OPERADOR_SOMA", Some(line), [Wrap("OU", "OU", lexeme, "SIMBOLO", line)])
  }

  /** p_operador_negacao: only "!" builds a node; otherwise the slot stays None. */
  function OperadorNegacao(lexeme: string, line: int): (r: Option<Node>)
    ensures r.Some? <==> lexeme == "!"
    ensures r.Some? ==> r.value.name == "operador_negacao" && |r.value.children| == 1 && Lexeme(r.value.children[0]) == "!"
  {
    if lexeme == "!" then
      Some(Node("operador_negacao", "OPERADOR_NEGACAO", Some(line), [Wrap("NAO", "NAO", lexeme, "SIMBOLO", line)]))
    else None
  }

  /** p_operador_multiplicacao: "*" gives VEZES, anything else DIVIDE. */
  function OperadorMultiplicacao(lexeme: string, line: int): (r: Node)
    ensures |r.children| == 1
    ensures r.children[0].name == "VEZES" <==> lexeme == "*"
    ensures Lexeme(r.children[0]) == lexeme
  {
    Node("operador_multiplicacao", "OPERADOR_MULTIPLICACAO", Some(line),
         if lexeme == "*" then [Wrap("VEZES", "VEZES", lexeme, "SIMBOLO", line)]
         else [Wrap("DIVIDE", "DIVIDE", lexeme, "SIMBOLO", line)])
  }

  /** p_fator for `var`, `chamada_funcao` and `numero`. */
  function Fator(inner: Node, line: int): Node
  {
    Node("fator", "FATOR", Some(line), [inner])
  }

  /** p_fator for `( expressao )`. */
  function FatorParenteses(open: string, expr: Node, close: string, line: int): Node
  {
    Node("fator", "FATOR", Some(line),
         [Wrap("ABRE_PARENTESE", "ABRE_PARENTESE", open, "SIMBOLO", line), expr,
          Wrap("FECHA_PARENTESE", "FECHA_PARENTESE", close, "SIMBOLO", line)])
  }

  /** The literal classification of p_numero: no '.' is an integer (even with
      an 'e'); a '.' and an 'e' is scientific notation; a '.' alone is a
      decimal float. */
  function NumberClass(text: string): (r: string)
    ensures r == "NUM_INTEIRO" <==> '.' !in text
    ensures r == "NUM_NOTACAO_CIENTIFICA" <==> '.' in text && 'e' in text
    ensures r == "NUM_PONTO_FLUTUANTE" <==> '.' in text && 'e' !in text
  {
    if IndexOf(text, '.') == -1 then "NUM_INTEIRO"
    else if IndexOf(text, 'e') >= 0 then "NUM_NOTACAO_CIENTIFICA"
    else "NUM_PONTO_FLUTUANTE"
  }

  /** p_numero: the class node holds the literal text as its VALOR leaf. */
  function Numero(text: string, line: int): (r: Node)
    ensures |r.children| == 1 && Lexeme(r.children[0]) == text
    ensures r.children[0].name == "NUM_INTEIRO" <==> '.' !in text
  {
    var cls := NumberClass(text);
    Node("numero", "NUMERO", Some(line), [Wrap(cls, cls, text, "VALOR", line)])
  }

  /** p_chamada_funcao: `ID ( lista_argumentos )`. */
  function ChamadaFuncao(id: string, open: string, args: Node, close: string, line: int): Node
  {
    Node("chamada_funcao", "CHAMADA_FUNCAO", Some(line),
         [Wrap("ID", "ID", id, "ID", line),
          Wrap("ABRE_PARENTESE", "ABRE_PARENTESE", open, "SIMBOLO", line),
          args,
          Wrap("FECHA_PARENTESE", "FECHA_PARENTESE", close, "SIMBOLO", line)])
  }

  /** p_lista_argumentos: `lista_argumentos VIRGULA expressao` (prev present),
      `expressao` or `vazio`. */
  function ListaArgumentos(prev: Option<Node>, comma: string, item: Node, line: int): Node
  {
    Node("lista_argumentos", "LISTA_ARGUMENTOS", Some(line),
         if prev.Some? then [prev.value, Wrap("VIRGULA", "VIRGULA", comma, "SIMBOLO", line), item]
         else [item])
  }

  /** p_vazio: the empty production. */
  function Vazio(line: int): Node
  {
    Leaf("vazio", "VAZIO", line)
  }

  // ---------------------------------------------------------------------
  // Error productions.

  /** The production families that carry an error rule. */
  datatype Family =
    | FListaDeclaracoes | FDeclaracaoVariaveis | FListaVariaveis | FVar | FIndice
    | FDeclaracaoFuncao | FCabecalho | FListaParametros | FParametro | FCorpo
    | FSe | FRepita | FAtribuicao | FLeia | FEscreva | FRetorna
    | FExpressaoLogica | FExpressaoSimples | FExpressaoAditiva | FExpressaoMultiplicativa
    | FExpressaoUnaria | FChamadaFuncao | FListaArgumentos | FFator

  /** The prefix shared by the keys of the syntax error rules. */
  const KeyPrefix := "ERR-SYN-"

  /** The ERR-SYN-* key of each family's error rule. */
  function ErrorKey(f: Family): (r: string)
    ensures FamilyOfKey(r) == Some(f)
  {
    var r := KeyPrefix + KeyName(f);
    assert r[..|KeyPrefix|] == KeyPrefix && r[|KeyPrefix|..] == KeyName(f);
    r
  }

  /** The family whose error rule uses a key: the inverse of ErrorKey. */
  function FamilyOfKey(key: string): Option<Family>
  {
    if |key| >= |KeyPrefix| && key[..|KeyPrefix|] == KeyPrefix then FamilyOfName(key[|KeyPrefix|..])
    else None
  }

  /** The part of each family's key after the prefix. */
  function KeyName(f: Family): (r: string)
    ensures FamilyOfName(r) == Some(f)
  {
    match f
    case FListaDeclaracoes => "LISTA-DECLARACOES"
    case FDeclaracaoVariaveis => "LISTA-DECLARACAO-VARIAVEIS"
    case FListaVariaveis => "LISTA-VARIAVEIS"
    case FVar => "VAR"
    case FIndice => "INDICE"
    case FDeclaracaoFuncao => "DECLARACAO-FUNCAO"
    case FCabecalho => "CABECALHO"
    case FListaParametros => "LISTA-PARAMETROS"
    case FParametro => "PARAMETRO"
    case FCorpo => "CORPO"
    case FSe => "SE"
    case FRepita => "REPITA"
    case FAtribuicao => "ATRIBUICAO"
    case FLeia => "LEIA"
    case FEscreva => "ESCREVA"
    case FRetorna => "RETORNA"
    case FExpressaoLogica => "EXPRESSAO-LOGICA"
    case FExpressaoSimples => "EXPRESSAO-SIMPLES"
    case FExpressaoAditiva => "EXPRESSAO-ADITIVA"
    case FExpressaoMultiplicativa => "EXPRESSAO-MULTIPLICATIVA"
    case FExpressaoUnaria => "EXPRESSAO-UNARIA"
    case FChamadaFuncao => "CHAMADA-FUNCAO"
    case FListaArgumentos => "LISTA-ARGUMENTOS"
    case FFator => "FATOR"
  }

  /** The family whose key ends in name: the inverse of KeyName. */
  function FamilyOfName(name: string): Option<Family>
  {
    if name == "LISTA-DECLARACOES" then Some(FListaDeclaracoes)
    else if name == "LISTA-DECLARACAO-VARIAVEIS" then Some(FDeclaracaoVariaveis)
    else if name == "LISTA-VARIAVEIS" then Some(FListaVariaveis)
    else if name == "VAR" then Some(FVar)
    else if name == "INDICE" then Some(FIndice)
    else if name == "DECLARACAO-FUNCAO" then Some(FDeclaracaoFuncao)
    else if name == "CABECALHO" then Some(FCabecalho)
    else if name == "LISTA-PARAMETROS" then Some(FListaParametros)
    else if name == "PARAMETRO" then Some(FParametro)
    else if name == "CORPO" then Some(FCorpo)
    else if name == "SE" then Some(FSe)
    else if name == "REPITA" then Some(FRepita)
    else if name == "ATRIBUICAO" then Some(FAtribuicao)
    else if name == "LEIA" then Some(FLeia)
    else if name == "ESCREVA" then Some(FEscreva)
    else if name == "RETORNA" then Some(FRetorna)
    else if name == "EXPRESSAO-LOGICA" then Some(FExpressaoLogica)
    else if name == "EXPRESSAO-SIMPLES" then Some(FExpressaoSimples)
    else if name == "EXPRESSAO-ADITIVA" then Some(FExpressaoAditiva)
    else if name == "EXPRESSAO-MULTIPLICATIVA" then Some(FExpressaoMultiplicativa)
    else if name == "EXPRESSAO-UNARIA" then Some(FExpressaoUnaria)
    else if name == "CHAMADA-FUNCAO" then Some(FChamadaFuncao)
    else if name == "LISTA-ARGUMENTOS" then Some(FListaArgumentos)
    else if name == "FATOR" then Some(FFator)
    else None
  }

  /** The placeholder an error rule builds: named by the catalog message of
      its key (the external message catalog is the parameter `catalog`),
      tagged by the key, without children. The lista_argumentos rule builds
      it without a line. The fator rule is ErrorFator. */
  function ErrorNode(f: Family, catalog: string -> string, line: int): (r: Node)
    ensures r.children == [] && FamilyOfKey(r.kind) == Some(f)
    ensures r.line.None? <==> f == FListaArgumentos
  {
    var key := ErrorKey(f);
    Node(catalog(key), key, if f == FListaArgumentos then None else Some(line), [])
  }

  /** p_fator_error as written: it builds the message with the line appended
      and then calls print with a `line` keyword argument, which print does
      not accept, so the action raises TypeError and no node results. */
  function ErrorFatorAsWritten(catalog: string -> string, line: int): (r: Option<Node>)
    ensures r.None?
  {
    None
  }

  /** p_fator_error as evidently intended: print the message, then build the
      placeholder named by the catalog message followed by ", line: <n>". */
  function ErrorFator(catalog: string -> string, line: int): (r: Node)
    ensures r.children == [] && FamilyOfKey(r.kind) == Some(FFator) && r.line == Some(line)
    ensures |r.name| > |catalog(r.kind)| && r.name[..|catalog(r.kind)|] == catalog(r.kind)
  {
    var key := ErrorKey(FFator);
    var msg := catalog(key);
    var suffix := ", line: " + IntToString(line);
    assert (msg + suffix)[..|msg|] == msg;
    Node(msg + suffix, key, Some(line), [])
  }

  // ---------------------------------------------------------------------
  // Column of a token.

  /** define_column: the 1-based column of the character at lexpos, counted
      from the character after the last newline before it. */
  function DefineColumn(input: string, lexpos: nat): (r: int)
    ensures r >= 1
    ensures forall k :: lexpos - r < k < lexpos && 0 <= k < |input| ==> input[k] != '\n'
    ensures lexpos - r == -1 || (0 <= lexpos - r < |input| && input[lexpos - r] == '\n')
  {
    var lineStart := RFind(input, '\n', lexpos) + 1;
    (lexpos - lineStart) + 1
  }
}
