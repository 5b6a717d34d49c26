/** The concrete syntax tree shared by the parser, the semantic analyser, the
    pruner and the code generator, together with the anytree queries the
    compiler uses (RenderTree as a pre-order list, findall_by_attr as a
    pre-order filter by name, and the ancestor list of a node) and the few
    Python string operations it relies on. */
module Cst {

  datatype Option<T> = None | Some(value: T)

  /** A tree node (MyNode): its name, its grammar tag (`type` in the source,
      `kind` here), the source line it was built on (absent for the one error
      node built without a line) and its ordered children. The parent link of
      the source is implicit: a node's parent is the node whose children hold
      it. */
  datatype Node = Node(name: string, kind: string, line: Option<int>, children: seq<Node>)

  /** Stands for a child that does not exist (the source would raise
      IndexError there). */
  const Missing: Node := Node("", "", None, [])

  /** The i-th child, or Missing past the end. */
  function Child(n: Node, i: nat): Node
  {
    if i < |n.children| then n.children[i] else Missing
  }

  /** The i-th element of a node list, or Missing past the end. */
  function At(s: seq<Node>, i: int): Node
  {
    if 0 <= i < |s| then s[i] else Missing
  }

  function Leaf(name: string, kind: string, line: int): Node
  {
    Node(name, kind, Some(line), [])
  }

  /** The wrapper the parser puts around a token: a node with one leaf child
      that holds the lexeme. */
  function Wrap(name: string, kind: string, lexeme: string, lexKind: string, line: int): Node
  {
    Node(name, kind, Some(line), [Leaf(lexeme, lexKind, line)])
  }

  /** The lexeme a token wrapper holds (the name of its leaf child). */
  function Lexeme(w: Node): string
  {
    Child(w, 0).name
  }

  /** RenderTree(n): every node of the subtree in pre-order. */
  function PreOrder(n: Node): (r: seq<Node>)
    ensures |r| >= 1 && r[0] == n
    decreases n, 1
  {
    [n] + PreOrderSeq(n.children)
  }

  function PreOrderSeq(s: seq<Node>): seq<Node>
    decreases s, 0
  {
    if s == [] then [] else PreOrder(s[0]) + PreOrderSeq(s[1..])
  }

  /** A node together with its ancestors, outermost first (anytree's
      `ancestors`, spelled `anchestors` in the source). */
  datatype Located = Located(node: Node, ancestors: seq<Node>)

  /** Pre-order walk of the subtree of n whose own ancestors are anc. */
  function Walk(n: Node, anc: seq<Node>): (r: seq<Located>)
    ensures |r| >= 1 && r[0] == Located(n, anc)
    decreases n, 1
  {
    [Located(n, anc)] + WalkSeq(n.children, anc + [n])
  }

  function WalkSeq(s: seq<Node>, anc: seq<Node>): seq<Located>
    decreases s, 0
  {
    if s == [] then [] else Walk(s[0], anc) + WalkSeq(s[1..], anc)
  }

  /** The entries of ls whose node has the given name, in order. */
  function FilterName(ls: seq<Located>, name: string): (r: seq<Located>)
    ensures |r| <= |ls|
    ensures forall k :: 0 <= k < |r| ==> r[k].node.name == name && r[k] in ls
    ensures forall k :: 0 <= k < |ls| && ls[k].node.name == name ==> ls[k] in r
  {
    if ls == [] then []
    else (if ls[0].node.name == name then [ls[0]] else []) + FilterName(ls[1..], name)
  }

  /** findall_by_attr(loc.node, name): the located nodes of the subtree of
      loc (loc itself included) named name, in pre-order. */
  function FindAll(loc: Located, name: string): seq<Located>
  {
    FilterName(Walk(loc.node, loc.ancestors), name)
  }

  /** Whether a node named name occurs in the subtree of n (a non-empty
      findall_by_attr result). */
  function Occurs(n: Node, name: string): bool
  {
    FindAll(Located(n, []), name) != []
  }

  // ---------------------------------------------------------------------
  // Python string operations.

  /** str.find for one character: the first index of c, or -1. */
  function IndexOf(s: string, c: char): (r: int)
    ensures -1 <= r < |s|
    ensures r >= 0 ==> s[r] == c && c !in s[..r]
    ensures r == -1 <==> c !in s
  {
    if s == [] then -1
    else if s[0] == c then 0
    else
      var k := IndexOf(s[1..], c);
      assert s == [s[0]] + s[1..];
      if k == -1 then -1 else k + 1
  }

  /** str.rfind(c, 0, end): the last index below end (clamped to |s|)
      holding c, or -1. */
  function RFind(s: string, c: char, end: nat): (r: int)
    ensures -1 <= r < |s| && r < end
    ensures r >= 0 ==> s[r] == c
    ensures forall k :: r < k < end && k < |s| ==> s[k] != c
    decreases end
  {
    var e := if end <= |s| then end else |s|;
    if e == 0 then -1
    else if s[e - 1] == c then e - 1
    else RFind(s, c, e - 1)
  }

  /** Python's `sub in s` for strings. */
  predicate Contains(s: string, sub: string)
  {
    (|sub| <= |s| && s[..|sub|] == sub) || (s != [] && Contains(s[1..], sub))
  }

  function UpperChar(c: char): char
  {
    if 'a' <= c <= 'z' then (c as int - 'a' as int + 'A' as int) as char else c
  }

  /** str.upper on ASCII letters. */
  function Upper(s: string): (r: string)
    ensures |r| == |s|
    ensures forall i :: 0 <= i < |s| ==> r[i] == UpperChar(s[i])
  {
    if s == [] then [] else [UpperChar(s[0])] + Upper(s[1..])
  }

  /** str(n) for an integer. */
  function IntToString(n: int): string
  {
    if n < 0 then "-" + NatToString(-n) else NatToString(n)
  }

  function NatToString(n: nat): (r: string)
    ensures |r| >= 1
    ensures forall i :: 0 <= i < |r| ==> '0' <= r[i] <= '9'
  {
    var d := ['0' + (n % 10) as char];
    if n < 10 then d else NatToString(n / 10) + d
  }
}
