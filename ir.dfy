/** An abstract stand-in for the llvmlite IR that tppgencode.py builds: types,
    values, instructions, basic blocks, functions, and the generator's state
    (the module's taken global names, the functions built so far, the
    builder's block cursor and the three name lists), with the few builder
    primitives the generator uses.

    llvmlite raises on a handful of misuses the generator can run into; the
    model records any of them as a sticky `failed` flag, after which every
    operation leaves the state unchanged (the source stops with an
    exception and saves no module). The modelled misuses are: a second
    terminator on a terminated block, a global name taken twice, any
    builder call while no builder exists, and a None operand in a builder
    call other than ret. */
module Ir {
  import opened Cst

  datatype Ty =
    | IntTy                        // i32
    | FloatTy                      // float
    | VoidTy
    | BoolTy                       // i1, the result of a comparison
    | ArrTy(elem: Ty, count: nat)
    | PtrTy(pointee: Ty)
    | FnTy(ret: Ty)

  /** getType: i32 for 'inteiro' and 'NUM_INTEIRO', float for anything else. */
  function GetType(typeName: string): (r: Ty)
    ensures r == IntTy <==> typeName == "inteiro" || typeName == "NUM_INTEIRO"
    ensures r == IntTy || r == FloatTy
  {
    if typeName == "inteiro" || typeName == "NUM_INTEIRO" then IntTy else FloatTy
  }

  /** An IR value. Instructions that produce a value are values themselves
      (as in llvmlite); a literal keeps its text (no float conversion). */
  datatype Value =
    | ConstV(ty: Ty, text: string)              // ir.Constant
    | ZeroV                                     // the shared i32 zero
    | GlobalV(name: string, ty: Ty)             // a global variable of type ty
    | AllocaV(name: string, ty: Ty)             // a stack slot of type ty
    | ArgV(name: string, ty: Ty)                // a function argument
    | FuncV(name: string, ret: Ty)              // a function
    | LoadV(ptr: Value)
    | GepV(ptr: Value, index: Value)            // gep(ptr, [0, index])
    | BinV(op: string, a: Value, b: Value)      // add, sub, mul, sdiv
    | CmpV(pred: string, a: Value, b: Value)    // icmp_signed
    | CallV(f: Value, args: seq<Value>)
    | NoneV                                     // Python's None

  /** The `type` of a value; None where the source would find no type. */
  function TypeOf(v: Value): Option<Ty>
  {
    match v
    case ConstV(ty, _) => Some(ty)
    case ZeroV => Some(IntTy)
    case GlobalV(_, ty) => Some(PtrTy(ty))
    case AllocaV(_, ty) => Some(PtrTy(ty))
    case ArgV(_, ty) => Some(ty)
    case FuncV(_, ret) => Some(PtrTy(FnTy(ret)))
    case LoadV(p) =>
      (match TypeOf(p) case Some(PtrTy(t)) => Some(t) case _ => None)
    case GepV(p, _) =>
      (match TypeOf(p) case Some(PtrTy(ArrTy(e, _))) => Some(PtrTy(e)) case _ => None)
    case BinV(_, a, _) => TypeOf(a)
    case CmpV(_, _, _) => Some(BoolTy)
    case CallV(f, _) => (match f case FuncV(_, ret) => Some(ret) case _ => None)
    case NoneV => None
  }

  /** The name a named value carries ("" for the others). */
  function NameOf(v: Value): string
  {
    match v
    case GlobalV(n, _) => n
    case AllocaV(n, _) => n
    case ArgV(n, _) => n
    case FuncV(n, _) => n
    case _ => ""
  }

  datatype Inst =
    | Emit(v: Value)                            // a value-producing instruction
    | Store(val: Value, ptr: Value)
    | Br(target: nat)                           // blocks are named by their index
    | CondBr(cond: Value, ifTrue: nat, ifFalse: nat)
    | Ret(v: Value)

  predicate IsTerminator(i: Inst)
  {
    i.Br? || i.CondBr? || i.Ret?
  }

  datatype Block = Block(name: string, insts: seq<Inst>)

  /** llvmlite's is_terminated: a terminator has been set on the block.
      The flag is sticky: instructions appended after the terminator do not
      clear it, so the block counts as terminated once any of its
      instructions is a terminator. */
  predicate Terminated(b: Block)
  {
    HasTerminator(b.insts)
  }

  /** Some instruction of s is a terminator, read from the end. */
  predicate HasTerminator(s: seq<Inst>)
  {
    |s| > 0 && (IsTerminator(s[|s| - 1]) || HasTerminator(s[..|s| - 1]))
  }

  /** A block is terminated exactly when one of its instructions is a
      terminator. */
  lemma {:induction false} TerminatedIff(s: seq<Inst>)
    ensures HasTerminator(s) <==> exists k :: 0 <= k < |s| && IsTerminator(s[k])
  {
    if |s| > 0 {
      var init := s[..|s| - 1];
      TerminatedIff(init);
      if HasTerminator(init) {
        var k :| 0 <= k < |init| && IsTerminator(init[k]);
        assert s[k] == init[k];
      }
      if !IsTerminator(s[|s| - 1]) && exists k :: 0 <= k < |s| && IsTerminator(s[k]) {
        var k :| 0 <= k < |s| && IsTerminator(s[k]);
        assert k < |init| && init[k] == s[k];
      }
    }
  }

  /** The block's last instruction is i. */
  predicate EndsWith(b: Block, i: Inst)
  {
    |b.insts| > 0 && b.insts[|b.insts| - 1] == i
  }

  /** The block ends in a conditional branch to t when true and f when false. */
  predicate EndsWithCondBr(b: Block, t: nat, f: nat)
  {
    |b.insts| > 0 && b.insts[|b.insts| - 1].CondBr?
    && b.insts[|b.insts| - 1].ifTrue == t && b.insts[|b.insts| - 1].ifFalse == f
  }

  datatype Func = Func(name: string, ret: Ty, args: seq<Value>, blocks: seq<Block>)

  /** The four runtime functions the generator declares up front. */
  const EscrevaInteiro: Value := FuncV("escrevaInteiro", VoidTy)
  const EscrevaFlutuante: Value := FuncV("escrevaFlutuante", VoidTy)
  const LeiaInteiro: Value := FuncV("leiaInteiro", IntTy)
  const LeiaFlutuante: Value := FuncV("leiaFlutuante", FloatTy)

  /** The generator's state. The builder exists once a function has been
      started, and sits on block `cur` of the last function. */
  datatype Gen = Gen(
    symbols: seq<string>,      // names taken in the module's global scope
    funcs: seq<Func>,          // self.functions; the last is being built
    cur: nat,                  // the builder's block in the last function
    globals: seq<Value>,       // vars_global
    locals: seq<Value>,        // vars_local
    args: seq<Value>,          // args_func
    exit: Option<nat>,         // exit_block
    failed: bool)

  /** The state after the constructor. */
  const Initial: Gen :=
    Gen(["escrevaInteiro", "escrevaFlutuante", "leiaInteiro", "leiaFlutuante"], [], 0, [], [], [], None, false)

  function Fail(g: Gen): Gen
  {
    g.(failed := true)
  }

  /** The blocks of the function being built. */
  function CurBlocks(g: Gen): seq<Block>
  {
    if g.funcs == [] then [] else g.funcs[|g.funcs| - 1].blocks
  }

  /** Whether the builder sits on an existing block. */
  predicate HasBuilder(g: Gen)
  {
    g.funcs != [] && g.cur < |CurBlocks(g)|
  }

  /** Replaces the blocks of the function being built. */
  function WithBlocks(g: Gen, bs: seq<Block>): (r: Gen)
    requires g.funcs != []
    ensures CurBlocks(r) == bs && |r.funcs| == |g.funcs|
  {
    var last := g.funcs[|g.funcs| - 1];
    g.(funcs := g.funcs[..|g.funcs| - 1] + [last.(blocks := bs)])
  }

  /** The blocks b' of a later state extend the blocks b of an earlier one
      whose builder sat on block c: blocks are only appended, only block c
      may gain instructions (at its end), and the cursor c' is either still
      c or on an appended block. */
  predicate BlocksExtend(b: seq<Block>, b': seq<Block>, c: nat, c': nat)
  {
    |b| <= |b'|
    && (forall i :: 0 <= i < |b| && i != c ==> b'[i] == b[i])
    && (c' == c || |b| <= c' < |b'|)
    && (c < |b| ==> b'[c].name == b[c].name && |b[c].insts| <= |b'[c].insts|
                    && b'[c].insts[..|b[c].insts|] == b[c].insts)
  }

  /** r is a successful continuation of g that leaves the earlier functions
      alone and extends the blocks of the one being built. */
  predicate Extends(g: Gen, r: Gen)
  {
    !r.failed ==>
      !g.failed && |r.funcs| == |g.funcs|
      && (forall i :: 0 <= i < |g.funcs| - 1 ==> r.funcs[i] == g.funcs[i])
      && (g.funcs != [] ==> SameHeader(r.funcs[|g.funcs| - 1], g.funcs[|g.funcs| - 1]))
      && BlocksExtend(CurBlocks(g), CurBlocks(r), g.cur, r.cur)
  }

  /** Two functions with the same name, return type and arguments. */
  predicate SameHeader(f: Func, f': Func)
  {
    f.name == f'.name && f.ret == f'.ret && f.args == f'.args
  }

  lemma ExtendsTrans(a: Gen, b: Gen, c: Gen)
    requires Extends(a, b) && Extends(b, c)
    ensures Extends(a, c)
  {
    if !c.failed {
      var ba, bb, bc := CurBlocks(a), CurBlocks(b), CurBlocks(c);
      if a.cur < |ba| && b.cur == a.cur {
        assert bc[a.cur].insts[..|ba[a.cur].insts|] == bb[a.cur].insts[..|ba[a.cur].insts|];
      }
    }
  }

  /** Moving the builder to a block appended since a keeps the extension. */
  lemma MoveFresh(a: Gen, g: Gen, k: nat)
    requires Extends(a, g)
    requires g.failed || |CurBlocks(a)| <= k < |CurBlocks(g)|
    ensures Extends(a, MoveTo(g, k))
  {
  }

  /** Appends instructions at the builder's position (the end of its
      block). An empty sequence needs no builder. */
  function EmitAll(g: Gen, code: seq<Inst>): (r: Gen)
    ensures !r.failed ==> !g.failed
    ensures !r.failed && code != [] ==>
              HasBuilder(g) && r.cur == g.cur
              && |CurBlocks(r)| == |CurBlocks(g)|
              && CurBlocks(r)[g.cur] == CurBlocks(g)[g.cur].(insts := CurBlocks(g)[g.cur].insts + code)
              && forall i :: 0 <= i < |CurBlocks(g)| && i != g.cur ==> CurBlocks(r)[i] == CurBlocks(g)[i]
    ensures code == [] ==> r == g
    ensures Extends(g, r) && r.cur == g.cur
    ensures r.locals == g.locals && r.globals == g.globals
  {
    if g.failed || code == [] then g
    else if !HasBuilder(g) then Fail(g)
    else
      var bs := CurBlocks(g);
      var r := WithBlocks(g, bs[g.cur := bs[g.cur].(insts := bs[g.cur].insts + code)]);
      assert (bs[g.cur].insts + code)[..|bs[g.cur].insts|] == bs[g.cur].insts;
      r
  }

  /** Whether the operands of a value-producing instruction include None. */
  predicate NoneOperand(v: Value)
  {
    match v
    case LoadV(p) => p == NoneV
    case GepV(p, x) => p == NoneV || x == NoneV
    case BinV(_, a, b) => a == NoneV || b == NoneV
    case CmpV(_, a, b) => a == NoneV || b == NoneV
    case CallV(f, xs) => f == NoneV || NoneV in xs
    case _ => false
  }

  /** Whether an instruction has a None operand. */
  predicate HasNone(i: Inst)
  {
    match i
    case Emit(v) => v == NoneV || NoneOperand(v)
    case Store(a, b) => a == NoneV || b == NoneV
    case Br(_) => false
    case CondBr(c, _, _) => c == NoneV
    case Ret(_) => false          // ret(None) builds a bare `ret`
  }

  /** Emits one non-terminator, refusing a None operand. */
  function Emit1(g: Gen, i: Inst): (r: Gen)
    requires !IsTerminator(i)
    ensures !r.failed ==> !g.failed && HasBuilder(g) && !HasNone(i) && r == EmitAll(g, [i])
    ensures Extends(g, r) && r.cur == g.cur
    ensures r.locals == g.locals && r.globals == g.globals
  {
    if g.failed then g
    else if HasNone(i) || !HasBuilder(g) then Fail(g)
    else EmitAll(g, [i])
  }

  /** Sets the terminator of the builder's block; llvmlite refuses a block
      that is already terminated. A return of None is a bare `ret`. */
  function Terminate(g: Gen, t: Inst): (r: Gen)
    requires IsTerminator(t)
    ensures !r.failed ==>
              !g.failed && HasBuilder(g) && !Terminated(CurBlocks(g)[g.cur]) && !HasNone(t)
              && r == EmitAll(g, [t])
    ensures Extends(g, r) && r.cur == g.cur
  {
    if g.failed then g
    else if !HasBuilder(g) || Terminated(CurBlocks(g)[g.cur]) || HasNone(t) then Fail(g)
    else EmitAll(g, [t])
  }

  /** ret(None) is a bare return: on an unterminated block it is accepted
      and ends the block. */
  lemma BareReturn(g: Gen)
    requires !g.failed && HasBuilder(g) && !Terminated(CurBlocks(g)[g.cur])
    ensures var r := Terminate(g, Ret(NoneV));
            !r.failed && EndsWith(CurBlocks(r)[g.cur], Ret(NoneV)) && Terminated(CurBlocks(r)[g.cur])
  {
    var r := Terminate(g, Ret(NoneV));
    var b := CurBlocks(r)[g.cur];
    assert b.insts[|b.insts| - 1] == Ret(NoneV);
  }

  /** The terminator flag is sticky: appending to a terminated block
      leaves it terminated. */
  lemma {:induction false} TerminatedStays(b: Block, code: seq<Inst>)
    requires Terminated(b)
    ensures Terminated(b.(insts := b.insts + code))
    decreases |code|
  {
    if code != [] {
      var front := code[..|code| - 1];
      TerminatedStays(b, front);
      assert (b.insts + code)[..|b.insts + code| - 1] == b.insts + front;
    } else {
      assert b.insts + code == b.insts;
    }
  }

  /** Once a terminator is set on the builder's block, a later terminator
      on it is refused, whatever was emitted in between (a `retorna`
      followed by an `escreva` and then a branch, say). */
  lemma SecondTerminatorFails(g: Gen, t: Inst, code: seq<Inst>, t2: Inst)
    requires IsTerminator(t) && IsTerminator(t2)
    ensures Terminate(EmitAll(Terminate(g, t), code), t2).failed
  {
    var g1 := Terminate(g, t);
    var g2 := EmitAll(g1, code);
    if !g2.failed {
      var b := CurBlocks(g1)[g1.cur];
      assert b.insts[|b.insts| - 1] == t;
      TerminatedStays(b, code);
      if code != [] {
        assert CurBlocks(g2)[g2.cur] == b.(insts := b.insts + code);
      } else {
        assert b.(insts := b.insts + code) == b;
      }
    }
  }

  /** append_basic_block on the function being built: the new block's
      index, which is the old number of blocks. */
  function AppendBlock(g: Gen, name: string): (r: (Gen, nat))
    ensures r.1 == |CurBlocks(g)|
    ensures !r.0.failed ==>
              !g.failed && g.funcs != [] && CurBlocks(r.0) == CurBlocks(g) + [Block(name, [])]
              && r.0 == WithBlocks(g, CurBlocks(g) + [Block(name, [])])
    ensures Extends(g, r.0) && r.0.cur == g.cur
  {
    if g.failed then (g, |CurBlocks(g)|)
    else if g.funcs == [] then (Fail(g), |CurBlocks(g)|)
    else (WithBlocks(g, CurBlocks(g) + [Block(name, [])]), |CurBlocks(g)|)
  }

  /** position_at_end (or a new builder on that block). */
  function MoveTo(g: Gen, k: nat): (r: Gen)
    ensures !r.failed ==> !g.failed && r == g.(cur := k)
  {
    if g.failed then g else g.(cur := k)
  }

  // ---------------------------------------------------------------------
  // Name resolution.

  predicate HasNamed(vs: seq<Value>, name: string)
  {
    exists i :: 0 <= i < |vs| && NameOf(vs[i]) == name
  }

  /** v is the first element of vs named name. */
  predicate FirstNamed(vs: seq<Value>, name: string, v: Value)
  {
    exists i :: 0 <= i < |vs| && vs[i] == v && NameOf(v) == name
                && forall j :: 0 <= j < i ==> NameOf(vs[j]) != name
  }

  /** The loop of getArgs and of each half of getVar: the first value named
      name, or None. */
  function Lookup(vs: seq<Value>, name: string): (r: Value)
    ensures HasNamed(vs, name) ==> FirstNamed(vs, name, r)
    ensures !HasNamed(vs, name) ==> r == NoneV
  {
    if vs == [] then NoneV
    else if NameOf(vs[0]) == name then
      assert FirstNamed(vs, name, vs[0]) by { assert vs[0] == vs[0]; }
      vs[0]
    else
      var r := Lookup(vs[1..], name);
      assert HasNamed(vs, name) ==> HasNamed(vs[1..], name) by {
        if HasNamed(vs, name) {
          var i :| 0 <= i < |vs| && NameOf(vs[i]) == name;
          assert NameOf(vs[1..][i - 1]) == name;
        }
      }
      assert HasNamed(vs[1..], name) ==> FirstNamed(vs, name, r) by {
        if HasNamed(vs[1..], name) {
          var i :| 0 <= i < |vs[1..]| && vs[1..][i] == r && NameOf(r) == name
                   && forall j :: 0 <= j < i ==> NameOf(vs[1..][j]) != name;
          assert vs[i + 1] == r;
          assert forall j :: 0 <= j < i + 1 ==> NameOf(vs[j]) != name by {
            forall j | 0 <= j < i + 1 ensures NameOf(vs[j]) != name {
              if j > 0 { assert vs[j] == vs[1..][j - 1]; }
            }
          }
        }
      }
      r
  }

  /** getVar: the globals are searched before the locals, so a global
      hides a local of the same name; None when neither has it. */
  function GetVar(g: Gen, name: string): (r: Value)
    ensures HasNamed(g.globals, name) ==> FirstNamed(g.globals, name, r)
    ensures !HasNamed(g.globals, name) && HasNamed(g.locals, name) ==> FirstNamed(g.locals, name, r)
    ensures !HasNamed(g.globals, name) && !HasNamed(g.locals, name) ==> r == NoneV
  {
    if HasNamed(g.globals, name) then Lookup(g.globals, name) else Lookup(g.locals, name)
  }

  /** getArgs. */
  function GetArgs(g: Gen, name: string): Value
  {
    Lookup(g.args, name)
  }

  /** The function values of the functions built so far. */
  function FuncValues(fs: seq<Func>): (r: seq<Value>)
    ensures |r| == |fs|
    ensures forall i :: 0 <= i < |fs| ==> r[i] == FuncV(fs[i].name, fs[i].ret)
  {
    if fs == [] then [] else [FuncV(fs[0].name, fs[0].ret)] + FuncValues(fs[1..])
  }

  /** getFunction: the first function built under that name, or None. */
  function GetFunction(g: Gen, name: string): (r: Value)
    ensures r == NoneV <==> forall i :: 0 <= i < |g.funcs| ==> g.funcs[i].name != name
    ensures r != NoneV ==>
              exists i :: 0 <= i < |g.funcs| && g.funcs[i].name == name && r == FuncV(name, g.funcs[i].ret)
                          && forall j :: 0 <= j < i ==> g.funcs[j].name != name
  {
    FirstFunction(g.funcs, name);
    Lookup(FuncValues(g.funcs), name)
  }

  /** Searching the function values finds the first function of that name. */
  lemma FirstFunction(fs: seq<Func>, name: string)
    ensures var r := Lookup(FuncValues(fs), name);
            (r == NoneV <==> forall i :: 0 <= i < |fs| ==> fs[i].name != name)
            && (r != NoneV ==>
                  exists i :: 0 <= i < |fs| && fs[i].name == name && r == FuncV(name, fs[i].ret)
                              && forall j :: 0 <= j < i ==> fs[j].name != name)
  {
    var fv := FuncValues(fs);
    var r := Lookup(fv, name);
    assert forall i :: 0 <= i < |fv| ==> NameOf(fv[i]) == fs[i].name;
    if HasNamed(fv, name) {
      var i :| 0 <= i < |fv| && fv[i] == r && NameOf(r) == name
               && forall j :: 0 <= j < i ==> NameOf(fv[j]) != name;
      assert fs[i].name == name && r == FuncV(name, fs[i].ret);
    } else {
      forall i | 0 <= i < |fs| ensures fs[i].name != name {
        assert NameOf(fv[i]) == fs[i].name;
      }
    }
  }
}
