/** The stack-machine code generator: each function becomes a prologue, the
    code of its statements and the code of its return. Expressions leave
    their value on the operand stack; statements leave the stack as they
    found it. The code each node produces is stated as a function of the node
    (ExprCode, StmtCode, FuncCode, ...); the class Generator appends that code
    to its output as the visits do. Node kinds whose visit is still a stub in
    the generator produce no code. */
module Codegen {
  import opened Wrappers
  import opened Ast
  import opened Concrete
  import opened Machine

  const WordSize: int := 4

  /** The `%ebp`-relative address of the slot of a symbol whose offset in the
      symbol table is `off`: the one address formula used by reads, stores and
      call results. */
  function FrameAddr(off: int): (r: int)
    ensures off >= 0 ==> r <= -WordSize
  {
    -(off + WordSize)
  }

  /** The instruction each arithmetic node kind uses. */
  function ArithOf(op: BinOp): Option<ArithOp>
  {
    match op
    case Plus => Some(Addl)
    case Minus => Some(Subl)
    case Times => Some(Imull)
    case Div => Some(Idivl)
    case _ => None
  }

  /** `emit_arith`: the right operand is popped into `%ebx`, the left into
      `%eax`; a division first sign-extends `%eax` into `%edx`. */
  function ArithCode(op: ArithOp): seq<Instr>
  {
    if op == Idivl then [Pop(Ebx), Pop(Eax), Mov(Eax, Edx), SignFill, Arith(Idivl), Push(Eax)]
    else [Pop(Ebx), Pop(Eax), Arith(op), Push(Eax)]
  }

  /** `emit_epilogue` */
  function EpilogueCode(): (r: seq<Instr>)
    ensures |r| > 0 && r[|r| - 1] == Ret
    ensures forall d: nat :: Run(r, d) == if d == 0 then None else Some(d - 1)
  {
    [Mov(Ebp, Esp), Pop(Ebp), Ret]
  }

  /** The code of an expression; `offset` is the symbol table. */
  function ExprCode(e: Expr, offset: string -> int): (r: seq<Instr>)
    ensures Emits(e) ==> |r| > 0 && (r[|r| - 1].Push? || r[|r| - 1].PushImm?)
  {
    match e
    case Binary(op, l, r) =>
      if ArithOf(op).Some? then ExprCode(l, offset) + ExprCode(r, offset) + ArithCode(ArithOf(op).value)
      else []
    case Ident(x) => [Load(FrameAddr(offset(x)), Ebx), Push(Ebx)]
    case IntLit(v) => [PushImm(v)]
    case _ => []
  }

  /** Expressions made only of the node kinds that produce code. */
  predicate Emits(e: Expr)
  {
    match e
    case Binary(op, l, r) => ArithOf(op).Some? && Emits(l) && Emits(r)
    case Ident(_) => true
    case IntLit(_) => true
    case _ => false
  }

  /** The code of the last `k` arguments, last argument first. */
  function ArgsCode(args: seq<Expr>, k: nat, offset: string -> int): seq<Instr>
    requires k <= |args|
  {
    if k == 0 then [] else ArgsCode(args, k - 1, offset) + ExprCode(args[|args| - k], offset)
  }

  /** A call whose argument loop visited the last `visited` arguments: their
      code, then one `popl %ebx; pushl %ebx` per visited argument (collected
      in a buffer and written after the arguments' code), the call, the
      store of `%eax` to the target's slot, and one pop per argument. */
  function CallCodeVisiting(target: string, callee: string, args: seq<Expr>, visited: nat, offset: string -> int): seq<Instr>
    requires visited <= |args|
  {
    ArgsCode(args, visited, offset)
      + Repeat([Pop(Ebx), Push(Ebx)], visited)
      + [CallFn(callee), Store(Eax, FrameAddr(offset(target)))]
      + Repeat([Pop(Ebx)], |args|)
  }

  /** `visitCall` as written: the loop counter is incremented twice per
      round, so only the last ceil(n/2) arguments are visited. */
  function CallCodeAsWritten(target: string, callee: string, args: seq<Expr>, offset: string -> int): seq<Instr>
  {
    CallCodeVisiting(target, callee, args, (|args| + 1) / 2, offset)
  }

  /** `visitCall` with one increment per round: every argument is visited,
      last argument first. */
  function CallCode(target: string, callee: string, args: seq<Expr>, offset: string -> int): seq<Instr>
  {
    CallCodeVisiting(target, callee, args, |args|, offset)
  }

  /** The code of a statement; the stub statement kinds produce none. */
  function StmtCode(s: Stmt, offset: string -> int): (r: seq<Instr>)
    ensures !(s.Assignment? || s.Call?) ==> r == []
    ensures s.Assignment? ==> |r| >= 2 && r[|r| - 1] == Store(Ebx, FrameAddr(offset(s.target)))
  {
    match s
    case Assignment(x, rhs) => ExprCode(rhs, offset) + [Pop(Ebx), Store(Ebx, FrameAddr(offset(x)))]
    case Call(target, callee, args) => CallCode(target, callee, args, offset)
    case _ => []
  }

  function StmtsCode(ss: seq<Stmt>, offset: string -> int): seq<Instr>
  {
    if |ss| == 0 then [] else StmtsCode(ss[..|ss| - 1], offset) + StmtCode(ss[|ss| - 1], offset)
  }

  /** `visitReturn`: the value into `%eax`, then the epilogue. */
  function ReturnCode(e: Expr, offset: string -> int): seq<Instr>
  {
    ExprCode(e, offset) + [Pop(Eax)] + EpilogueCode()
  }

  /** Bytes the prologue reserves below the saved `%ebp`. */
  function FrameSize(sizeLocals: nat, numArgs: nat): nat
  {
    (sizeLocals + numArgs + 1) * WordSize
  }

  /** Where parameter `i` is read from, above the saved `%ebp` and the return address. */
  function ParamSource(numArgs: nat, i: nat): int
  {
    (1 + numArgs - i) * WordSize
  }

  /** Where parameter `i` is copied to, below `%ebp`. */
  function ParamSlot(i: nat): int
  {
    -(4 * i + 4)
  }

  /** The copies of parameters `0 .. i-1`, through `%ebx`. */
  function CopyCode(numArgs: nat, i: nat): seq<Instr>
  {
    if i == 0 then []
    else CopyCode(numArgs, i - 1) + [Load(ParamSource(numArgs, i - 1), Ebx), Store(Ebx, ParamSlot(i - 1))]
  }

  /** `emit_prologue` */
  function PrologueCode(name: string, sizeLocals: nat, numArgs: nat): seq<Instr>
  {
    [Label(name), Push(Ebp), Mov(Esp, Ebp), SubEsp(FrameSize(sizeLocals, numArgs))] + CopyCode(numArgs, numArgs)
  }

  /** A function: the prologue sized by its number of declarations and
      parameters, its statements, its return. */
  function FuncCode(f: Func, offset: string -> int): seq<Instr>
  {
    PrologueCode(f.name, |f.body.decls|, |f.params|)
      + StmtsCode(f.body.stmts, offset) + ReturnCode(f.body.ret, offset)
  }

  function FuncsCode(fs: seq<Func>, offset: string -> int): seq<Instr>
  {
    if |fs| == 0 then [] else FuncsCode(fs[..|fs| - 1], offset) + FuncCode(fs[|fs| - 1], offset)
  }

  lemma StmtsCodeSnoc(ss: seq<Stmt>, i: nat, offset: string -> int)
    requires i < |ss|
    ensures StmtsCode(ss[..i + 1], offset) == StmtsCode(ss[..i], offset) + StmtCode(ss[i], offset)
  {
    assert ss[..i + 1][..i] == ss[..i];
  }

  lemma FuncsCodeSnoc(fs: seq<Func>, i: nat, offset: string -> int)
    requires i < |fs|
    ensures FuncsCode(fs[..i + 1], offset) == FuncsCode(fs[..i], offset) + FuncCode(fs[i], offset)
  {
    assert fs[..i + 1][..i] == fs[..i];
  }

  /** `visitProgram`: text mode, the `_Main` entry point, then every function. */
  function ProgramCode(p: Program, offset: string -> int): seq<Instr>
  {
    [TextSection, Globl("_Main")] + FuncsCode(p.funcs, offset)
  }

  // ---------------------------------------------------------------------
  // Operand-stack depth

  /** `emit_arith` pops two operands and pushes one result. */
  lemma ArithCodeDepth(op: ArithOp, d: nat)
    ensures Run(ArithCode(op), d) == if d >= 2 then Some(d - 1) else None
  {
    var code := ArithCode(op);
    if op == Idivl {
      assert code[1..] == [Pop(Eax), Mov(Eax, Edx), SignFill, Arith(Idivl), Push(Eax)];
      assert code[2..] == [Mov(Eax, Edx), SignFill, Arith(Idivl), Push(Eax)];
      assert code[3..] == [SignFill, Arith(Idivl), Push(Eax)];
      assert code[4..] == [Arith(Idivl), Push(Eax)];
      assert code[5..] == [Push(Eax)];
      assert code[6..] == [];
      if d >= 2 {
        assert Run(code, d) == Run(code[1..], d - 1) == Run(code[2..], d - 2);
        assert Run(code[2..], d - 2) == Run(code[3..], d - 2) == Run(code[4..], d - 2);
        assert Run(code[4..], d - 2) == Run(code[5..], d - 2) == Run(code[6..], d - 1);
      } else if d == 1 {
        assert Run(code, d) == Run(code[1..], 0);
      }
    } else {
      assert code[1..] == [Pop(Eax), Arith(op), Push(Eax)];
      assert code[2..] == [Arith(op), Push(Eax)];
      assert code[3..] == [Push(Eax)];
      assert code[4..] == [];
      if d >= 2 {
        assert Run(code, d) == Run(code[1..], d - 1) == Run(code[2..], d - 2);
        assert Run(code[2..], d - 2) == Run(code[3..], d - 2) == Run(code[4..], d - 1);
      } else if d == 1 {
        assert Run(code, d) == Run(code[1..], 0);
      }
    }
  }

  /** Every expression made of code-producing nodes pushes exactly one value. */
  lemma {:induction false} ExprCodeDepth(e: Expr, offset: string -> int, d: nat)
    requires Emits(e)
    ensures Run(ExprCode(e, offset), d) == Some(d + 1)
  {
    match e
    case Binary(op, l, r) =>
      var lc, rc, ac := ExprCode(l, offset), ExprCode(r, offset), ArithCode(ArithOf(op).value);
      ExprCodeDepth(l, offset, d);
      ExprCodeDepth(r, offset, d + 1);
      ArithCodeDepth(ArithOf(op).value, d + 2);
      RunAppend(lc, rc, d);
      RunAppend(lc + rc, ac, d);
    case Ident(x) =>
      var code := ExprCode(e, offset);
      assert code[1..] == [Push(Ebx)] && code[2..] == [];
      assert Run(code, d) == Run(code[1..], d) == Run(code[2..], d + 1);
    case IntLit(v) =>
      assert ExprCode(e, offset)[1..] == [];
  }

  /** The arguments' code pushes one value per visited argument. */
  lemma {:induction false} ArgsCodeDepth(args: seq<Expr>, k: nat, offset: string -> int, d: nat)
    requires k <= |args|
    requires forall i :: 0 <= i < |args| ==> Emits(args[i])
    ensures Run(ArgsCode(args, k, offset), d) == Some(d + k)
  {
    if k > 0 {
      ArgsCodeDepth(args, k - 1, offset, d);
      ExprCodeDepth(args[|args| - k], offset, d + k - 1);
      RunAppend(ArgsCode(args, k - 1, offset), ExprCode(args[|args| - k], offset), d);
    }
  }

  /** A call that visited `visited` of its `n` arguments changes the depth
      by `visited - n`, and underflows when the stack does not hold the
      difference. */
  lemma CallCodeVisitingDepth(target: string, callee: string, args: seq<Expr>, visited: nat, offset: string -> int, d: nat)
    requires visited <= |args|
    requires forall i :: 0 <= i < |args| ==> Emits(args[i])
    ensures Run(CallCodeVisiting(target, callee, args, visited, offset), d)
      == if d + visited >= |args| then Some(d + visited - |args|) else None
  {
    var a := ArgsCode(args, visited, offset);
    var pairs := Repeat([Pop(Ebx), Push(Ebx)], visited);
    var mid: seq<Instr> := [CallFn(callee), Store(Eax, FrameAddr(offset(target)))];
    var pops := Repeat([Pop(Ebx)], |args|);
    assert CallCodeVisiting(target, callee, args, visited, offset) == a + pairs + mid + pops;
    ArgsCodeDepth(args, visited, offset, d);
    PairsDepth(Ebx, visited, d + visited);
    RunNeutral(mid, d + visited);
    PopsDepth(Ebx, |args|, d + visited);
    RunAppend(a, pairs, d);
    RunAppend(a + pairs, mid, d);
    RunAppend(a + pairs + mid, pops, d);
  }

  /** The call as written keeps the stack balanced exactly when it has at
      most one argument. */
  lemma CallAsWrittenBalancedIff(target: string, callee: string, args: seq<Expr>, offset: string -> int, d: nat)
    requires forall i :: 0 <= i < |args| ==> Emits(args[i])
    ensures Run(CallCodeAsWritten(target, callee, args, offset), d) == Some(d) <==> |args| <= 1
  {
    var n, c := |args|, (|args| + 1) / 2;
    assert n <= 1 ==> c == n;
    assert n >= 2 ==> c < n;
    CallCodeVisitingDepth(target, callee, args, c, offset, d);
  }

  /** `f(1, 2)` as written, on an empty operand stack, pops a word it never pushed. */
  lemma CallAsWrittenUnderflows(target: string, callee: string, offset: string -> int)
    ensures Run(CallCodeAsWritten(target, callee, [IntLit(1), IntLit(2)], offset), 0) == None
  {
    CallCodeVisitingDepth(target, callee, [IntLit(1), IntLit(2)], 1, offset, 0);
  }

  /** With every argument visited, a call leaves the stack as it found it. */
  lemma CallBalanced(target: string, callee: string, args: seq<Expr>, offset: string -> int, d: nat)
    requires forall i :: 0 <= i < |args| ==> Emits(args[i])
    ensures Run(CallCode(target, callee, args, offset), d) == Some(d)
  {
    CallCodeVisitingDepth(target, callee, args, |args|, offset, d);
  }

  /** Statements whose expressions all produce code. */
  predicate Generates(s: Stmt)
  {
    match s
    case Assignment(_, rhs) => Emits(rhs)
    case Call(_, _, args) => forall i :: 0 <= i < |args| ==> Emits(args[i])
    case _ => true
  }

  /** Every statement leaves the operand stack as it found it. */
  lemma StmtCodeBalanced(s: Stmt, offset: string -> int, d: nat)
    requires Generates(s)
    ensures Run(StmtCode(s, offset), d) == Some(d)
  {
    match s
    case Assignment(x, rhs) =>
      var tail: seq<Instr> := [Pop(Ebx), Store(Ebx, FrameAddr(offset(x)))];
      ExprCodeDepth(rhs, offset, d);
      RunAppend(ExprCode(rhs, offset), tail, d);
      assert tail[1..][1..] == [];
      assert Run(tail, d + 1) == Run(tail[1..], d) == Run(tail[1..][1..], d);
    case Call(target, callee, args) => CallBalanced(target, callee, args, offset, d);
    case _ =>
  }

  lemma {:induction false} StmtsCodeBalanced(ss: seq<Stmt>, offset: string -> int, d: nat)
    requires forall i :: 0 <= i < |ss| ==> Generates(ss[i])
    ensures Run(StmtsCode(ss, offset), d) == Some(d)
  {
    if |ss| > 0 {
      StmtsCodeBalanced(ss[..|ss| - 1], offset, d);
      StmtCodeBalanced(ss[|ss| - 1], offset, d);
      RunAppend(StmtsCode(ss[..|ss| - 1], offset), StmtCode(ss[|ss| - 1], offset), d);
    }
  }

  /** A function body with code-producing statements and return value has an
      empty operand stack right before the epilogue. */
  lemma EmptyBeforeEpilogue(fb: FunctionBlock, offset: string -> int)
    requires forall i :: 0 <= i < |fb.stmts| ==> Generates(fb.stmts[i])
    requires Emits(fb.ret)
    ensures Run(StmtsCode(fb.stmts, offset) + ExprCode(fb.ret, offset) + [Pop(Eax)], 0) == Some(0)
  {
    StmtsCodeBalanced(fb.stmts, offset, 0);
    ExprCodeDepth(fb.ret, offset, 0);
    RunAppend(StmtsCode(fb.stmts, offset), ExprCode(fb.ret, offset), 0);
    RunAppend(StmtsCode(fb.stmts, offset) + ExprCode(fb.ret, offset), [Pop(Eax)], 0);
  }

  lemma {:induction false} CopyCodeKeepsDepth(numArgs: nat, i: nat, d: nat)
    ensures Run(CopyCode(numArgs, i), d) == Some(d)
  {
    if i > 0 {
      var step: seq<Instr> := [Load(ParamSource(numArgs, i - 1), Ebx), Store(Ebx, ParamSlot(i - 1))];
      CopyCodeKeepsDepth(numArgs, i - 1, d);
      RunAppend(CopyCode(numArgs, i - 1), step, d);
      RunNeutral(step, d);
    }
  }

  /** The prologue leaves the saved `%ebp` as the one word on the stack. */
  lemma PrologueDepth(name: string, sizeLocals: nat, numArgs: nat, d: nat)
    ensures Run(PrologueCode(name, sizeLocals, numArgs), d) == Some(d + 1)
  {
    var head: seq<Instr> := [Label(name), Push(Ebp), Mov(Esp, Ebp), SubEsp(FrameSize(sizeLocals, numArgs))];
    assert head[1..][1..] == [Mov(Esp, Ebp), SubEsp(FrameSize(sizeLocals, numArgs))];
    RunNeutral(head[1..][1..], d + 1);
    assert Run(head, d) == Run(head[1..], d) == Run(head[1..][1..], d + 1);
    CopyCodeKeepsDepth(numArgs, numArgs, d + 1);
    RunAppend(head, CopyCode(numArgs, numArgs), d);
  }

  /** Popping the value into `%eax`, then the epilogue: two words popped. */
  lemma ReturnTailDepth(d: nat)
    ensures Run([Pop(Eax)] + EpilogueCode(), d + 2) == Some(d)
  {
    var tail := [Pop(Eax)] + EpilogueCode();
    assert tail == [Pop(Eax), Mov(Ebp, Esp), Pop(Ebp), Ret];
    assert tail[1..] == [Mov(Ebp, Esp), Pop(Ebp), Ret];
    assert tail[1..][1..] == [Pop(Ebp), Ret];
    assert tail[1..][1..][1..] == [Ret];
    assert tail[1..][1..][1..][1..] == [];
    assert Run(tail, d + 2) == Run(tail[1..], d + 1) == Run(tail[1..][1..], d + 1);
    assert Run(tail[1..][1..], d + 1) == Run(tail[1..][1..][1..], d) == Run([], d);
  }

  /** The return pops its value into `%eax` and the epilogue pops the saved `%ebp`. */
  lemma ReturnDepth(e: Expr, offset: string -> int, d: nat)
    requires Emits(e)
    ensures Run(ReturnCode(e, offset), d + 1) == Some(d)
  {
    var ec := ExprCode(e, offset);
    ExprCodeDepth(e, offset, d + 1);
    ReturnTailDepth(d);
    Append2(ec, [Pop(Eax)], EpilogueCode());
    RunAppend(ec, [Pop(Eax)] + EpilogueCode(), d + 1);
  }

  /** A whole function pushes `%ebp` once, in its prologue, and pops it once,
      in its epilogue: its code leaves the stack as it found it. */
  lemma FuncCodeBalanced(f: Func, offset: string -> int, d: nat)
    requires forall i :: 0 <= i < |f.body.stmts| ==> Generates(f.body.stmts[i])
    requires Emits(f.body.ret)
    ensures Run(FuncCode(f, offset), d) == Some(d)
  {
    var p := PrologueCode(f.name, |f.body.decls|, |f.params|);
    var s := StmtsCode(f.body.stmts, offset);
    PrologueDepth(f.name, |f.body.decls|, |f.params|, d);
    StmtsCodeBalanced(f.body.stmts, offset, d + 1);
    ReturnDepth(f.body.ret, offset, d);
    RunAppend(p, s, d);
    RunAppend(p + s, ReturnCode(f.body.ret, offset), d);
  }

  /** Functions whose statements and return value all produce code. */
  predicate FuncGenerates(f: Func)
  {
    && (forall i :: 0 <= i < |f.body.stmts| ==> Generates(f.body.stmts[i]))
    && Emits(f.body.ret)
  }

  lemma {:induction false} FuncsCodeBalanced(fs: seq<Func>, offset: string -> int, d: nat)
    requires forall i :: 0 <= i < |fs| ==> FuncGenerates(fs[i])
    ensures Run(FuncsCode(fs, offset), d) == Some(d)
  {
    if |fs| > 0 {
      var init, last := fs[..|fs| - 1], fs[|fs| - 1];
      FuncsCodeBalanced(init, offset, d);
      FuncCodeBalanced(last, offset, d);
      RunAppend(FuncsCode(init, offset), FuncCode(last, offset), d);
    }
  }

  /** The program's code opens with the text section and the `_Main` entry
      point, then holds each function's code in order; when every function
      produces code throughout, the whole leaves the stack as it found it. */
  lemma ProgramCodeBalanced(p: Program, offset: string -> int, d: nat)
    requires forall i :: 0 <= i < |p.funcs| ==> FuncGenerates(p.funcs[i])
    ensures ProgramCode(p, offset)[..2] == [TextSection, Globl("_Main")]
    ensures forall i :: 0 <= i < |p.funcs| ==>
      FuncsCode(p.funcs[..i + 1], offset) == FuncsCode(p.funcs[..i], offset) + FuncCode(p.funcs[i], offset)
    ensures Run(ProgramCode(p, offset), d) == Some(d)
  {
    var head: seq<Instr> := [TextSection, Globl("_Main")];
    forall i | 0 <= i < |p.funcs|
      ensures FuncsCode(p.funcs[..i + 1], offset) == FuncsCode(p.funcs[..i], offset) + FuncCode(p.funcs[i], offset)
    {
      FuncsCodeSnoc(p.funcs, i, offset);
    }
    RunNeutral(head, d);
    FuncsCodeBalanced(p.funcs, offset, d);
    RunAppend(head, FuncsCode(p.funcs, offset), d);
  }

  // ---------------------------------------------------------------------
  // Frame layout and addresses

  /** The prologue: label, save `%ebp`, new frame base, `FrameSize` bytes
      reserved, then for each parameter `i` a load from its source and a
      store to its slot. */
  lemma {:induction false} CopyCodeLayout(numArgs: nat, k: nat)
    ensures |CopyCode(numArgs, k)| == 2 * k
    ensures forall i :: 0 <= i < k ==>
      CopyCode(numArgs, k)[2 * i] == Load(ParamSource(numArgs, i), Ebx)
      && CopyCode(numArgs, k)[2 * i + 1] == Store(Ebx, ParamSlot(i))
  {
    if k > 0 {
      CopyCodeLayout(numArgs, k - 1);
    }
  }

  lemma PrologueLayout(name: string, sizeLocals: nat, numArgs: nat)
    ensures var code := PrologueCode(name, sizeLocals, numArgs);
      && |code| == 4 + 2 * numArgs
      && code[..4] == [Label(name), Push(Ebp), Mov(Esp, Ebp), SubEsp((sizeLocals + numArgs + 1) * 4)]
      && forall i :: 0 <= i < numArgs ==>
           code[4 + 2 * i] == Load((1 + numArgs - i) * 4, Ebx) && code[5 + 2 * i] == Store(Ebx, -(4 * i + 4))
  {
    CopyCodeLayout(numArgs, numArgs);
  }

  /** The parameter sources lie above the saved `%ebp` (0) and the return
      address (4), one word apart, and are distinct; parameter `i` reads the
      word 8 + 4(n-1-i), where a call that pushes its arguments last first
      leaves argument n-1-i. The slots are distinct, lie in [-4n, -4] and
      inside the reserved frame. */
  lemma ParamOffsets(sizeLocals: nat, numArgs: nat, i: nat, j: nat)
    requires i < numArgs && j < numArgs
    ensures 8 <= ParamSource(numArgs, i) <= 4 * (numArgs + 1)
    ensures ParamSource(numArgs, i) == 8 + 4 * (numArgs - 1 - i)
    ensures -4 * numArgs <= ParamSlot(i) <= -4
    ensures ParamSlot(i) + FrameSize(sizeLocals, numArgs) > 0
    ensures i != j ==> ParamSource(numArgs, i) != ParamSource(numArgs, j) && ParamSlot(i) != ParamSlot(j)
  {
  }

  /** A read, an assignment and a call's result all use the same slot for a name. */
  lemma SameSlot(x: string, rhs: Expr, callee: string, args: seq<Expr>, offset: string -> int)
    ensures ExprCode(Ident(x), offset)[0] == Load(FrameAddr(offset(x)), Ebx)
    ensures var a := StmtCode(Assignment(x, rhs), offset); a[|a| - 1] == Store(Ebx, FrameAddr(offset(x)))
    ensures var c := CallCode(x, callee, args, offset);
      && |c| == |ArgsCode(args, |args|, offset)| + 3 * |args| + 2
      && c[|ArgsCode(args, |args|, offset)| + 2 * |args| + 1] == Store(Eax, FrameAddr(offset(x)))
  {
    var a := ArgsCode(args, |args|, offset);
    var pairs := Repeat([Pop(Ebx), Push(Ebx)], |args|);
    var mid: seq<Instr> := [CallFn(callee), Store(Eax, FrameAddr(offset(x)))];
    var pops := Repeat([Pop(Ebx)], |args|);
    RepeatLength([Pop(Ebx), Push(Ebx)], |args|);
    RepeatLength([Pop(Ebx)], |args|);
    assert |pairs| == 2 * |args| && |pops| == |args|;
    var c := CallCode(x, callee, args, offset);
    assert c == (a + pairs + mid) + pops;
    assert c[|a| + |pairs| + 1] == (a + pairs + mid)[|a| + |pairs| + 1] == mid[1];
  }

  // ---------------------------------------------------------------------
  // Values of the arithmetic code

  /** The two pops that start `emit_arith`: the right operand into `%ebx`,
      the left into `%eax`. */
  lemma PopOperands(code: seq<Instr>, rs: Regs, s: seq<int>, x: int, y: int)
    requires |code| >= 2 && code[0] == Pop(Ebx) && code[1] == Pop(Eax)
    ensures ExecAll(code, MState(rs, s + [x, y])) == ExecAll(code[2..], MState(rs.(ebx := y).(eax := x), s))
  {
    assert (s + [x, y])[..|s + [x, y]| - 1] == s + [x];
    assert (s + [x])[..|s + [x]| - 1] == s;
    assert code[1..][1..] == code[2..];
  }

  /** `idivl` on a sign-extended 32-bit dividend. */
  lemma IdivlAfterSignFill(rs: Regs, s: seq<int>, x: int, y: int)
    requires IsInt32(x) && y != 0
    requires rs.eax == x && rs.ebx == y && rs.edx == (if x < 0 then -1 else 0)
    ensures Exec(Arith(Idivl), MState(rs, s))
      == Some(MState(rs.(eax := TruncDiv(x, y), edx := x - TruncDiv(x, y) * y), s))
  {
    SignFillDividend(x, 0);
    assert Dividend(rs) == Dividend(Regs(x, 0, rs.edx));
  }

  /** `movl %eax,%edx; sar $31,%edx` fills `%edx` with the sign of `%eax`. */
  lemma SignExtendStep(rs: Regs, s: seq<int>, tail: seq<Instr>)
    ensures ExecAll([Mov(Eax, Edx), SignFill] + tail, MState(rs, s))
      == ExecAll(tail, MState(rs.(edx := if rs.eax < 0 then -1 else 0), s))
  {
    var code := [Mov(Eax, Edx), SignFill] + tail;
    assert code[1..] == [SignFill] + tail;
    assert code[1..][1..] == tail;
    assert ExecAll(code, MState(rs, s)) == ExecAll(code[1..], MState(rs.(edx := rs.eax), s));
  }

  /** `idivl %ebx; pushl %eax` on a sign-extended dividend pushes the quotient. */
  lemma DivideAndPush(rs: Regs, s: seq<int>, x: int, y: int)
    requires IsInt32(x) && y != 0
    requires rs.eax == x && rs.ebx == y && rs.edx == (if x < 0 then -1 else 0)
    ensures ExecAll([Arith(Idivl), Push(Eax)], MState(rs, s))
      == Some(MState(rs.(eax := TruncDiv(x, y), edx := x - TruncDiv(x, y) * y), s + [TruncDiv(x, y)]))
  {
    IdivlAfterSignFill(rs, s, x, y);
    var code := [Arith(Idivl), Push(Eax)];
    assert code[1..] == [Push(Eax)] && code[1..][1..] == [];
  }

  /** The division sequence: sign extension, then `idivl`, gives C's
      truncating quotient of a 32-bit dividend. */
  lemma DivCodeComputes(rs: Regs, s: seq<int>, x: int, y: int)
    requires IsInt32(x) && y != 0
    ensures var r := ExecAll(ArithCode(Idivl), MState(rs, s + [x, y]));
      && r.Some?
      && r.value.stack == s + [TruncDiv(x, y)]
      && r.value.regs.eax == TruncDiv(x, y)
      && r.value.regs.ebx == y
  {
    var code := ArithCode(Idivl);
    var tail: seq<Instr> := [Arith(Idivl), Push(Eax)];
    PopOperands(code, rs, s, x, y);
    var rs2 := rs.(ebx := y).(eax := x);
    assert code[2..] == [Mov(Eax, Edx), SignFill] + tail;
    SignExtendStep(rs2, s, tail);
    DivideAndPush(rs2.(edx := if x < 0 then -1 else 0), s, x, y);
  }

  /** `emit_arith` on a stack whose top two values are the left operand `x`
      and the right operand `y` replaces them by `x op y`; division truncates
      toward zero and needs a 32-bit dividend, which the sign extension
      turns into the 64-bit value `idivl` divides. */
  lemma ArithCodeComputes(op: BinOp, rs: Regs, s: seq<int>, x: int, y: int)
    requires ArithOf(op).Some?
    requires op == Div ==> IsInt32(x) && y != 0
    ensures var r := ExecAll(ArithCode(ArithOf(op).value), MState(rs, s + [x, y]));
      && r.Some?
      && r.value.stack == s + [Apply(op, x, y).value]
      && r.value.regs.eax == Apply(op, x, y).value
      && r.value.regs.ebx == y
  {
    if op == Div {
      DivCodeComputes(rs, s, x, y);
    } else {
      var a := ArithOf(op).value;
      var code := ArithCode(a);
      PopOperands(code, rs, s, x, y);
      assert code[2..] == [Arith(a), Push(Eax)];
      ApplyAndPush(op, rs.(ebx := y).(eax := x), s);
    }
  }

  /** `addl`, `subl` or `imull` of `%ebx` into `%eax`, then `pushl %eax`. */
  lemma ApplyAndPush(op: BinOp, rs: Regs, s: seq<int>)
    requires op == Plus || op == Minus || op == Times
    ensures var v := Apply(op, rs.eax, rs.ebx).value;
      ExecAll([Arith(ArithOf(op).value), Push(Eax)], MState(rs, s)) == Some(MState(rs.(eax := v), s + [v]))
  {
    var v := Apply(op, rs.eax, rs.ebx).value;
    var st3 := MState(rs.(eax := v), s);
    match op
    case Plus => PushAfter(Arith(Addl), MState(rs, s), st3);
    case Minus => PushAfter(Arith(Subl), MState(rs, s), st3);
    case Times => PushAfter(Arith(Imull), MState(rs, s), st3);
  }

  /** An instruction followed by `pushl %eax` pushes what it leaves in `%eax`. */
  lemma PushAfter(i: Instr, st: MState, st3: MState)
    requires Exec(i, st) == Some(st3)
    ensures ExecAll([i, Push(Eax)], st) == Some(st3.(stack := st3.stack + [st3.regs.eax]))
  {
    var code := [i, Push(Eax)];
    assert code[1..] == [Push(Eax)] && code[1..][1..] == [];
    assert ExecAll(code, st) == ExecAll(code[1..], st3);
  }

  // ---------------------------------------------------------------------
  // Scenario

  /** `int f(int n) { return n + 1; }` with `n` at symbol-table offset 0:
      eight bytes reserved, `n` copied from 8(%ebp) to -4(%ebp), read back
      from the same slot, added to 1, popped into `%eax`, then the epilogue. */
  lemma ScenarioIncrement(offset: string -> int)
    requires offset("n") == 0
    ensures FuncCode(Func("f", ["n"], FunctionBlock([], [], Binary(Plus, Ident("n"), IntLit(1)))), offset)
      == [Label("f"), Push(Ebp), Mov(Esp, Ebp), SubEsp(8), Load(8, Ebx), Store(Ebx, -4),
          Load(-4, Ebx), Push(Ebx), PushImm(1), Pop(Ebx), Pop(Eax), Arith(Addl), Push(Eax),
          Pop(Eax), Mov(Ebp, Esp), Pop(Ebp), Ret]
    ensures Run(StmtsCode([], offset) + ExprCode(Binary(Plus, Ident("n"), IntLit(1)), offset) + [Pop(Eax)], 0) == Some(0)
  {
    EmptyBeforeEpilogue(FunctionBlock([], [], Binary(Plus, Ident("n"), IntLit(1))), offset);
  }

  // ---------------------------------------------------------------------
  // The generator

  /** The generator's state: the code written so far and the label counter.
      `issued` records the labels handed out. */
  class Generator {
    var code: seq<Instr>
    var labelCount: nat
    ghost var issued: set<nat>
    const offset: string -> int

    ghost predicate Valid()
      reads this
    {
      forall l: nat :: l in issued <==> l < labelCount
    }

    constructor (offset: string -> int)
      ensures Valid()
      ensures this.offset == offset && code == [] && labelCount == 0 && issued == {}
    {
      this.offset := offset;
      code := [];
      labelCount := 0;
      issued := {};
    }

    /** `new_label`: the labels come out 0, 1, 2, ... and none twice. */
    method NewLabel() returns (l: nat)
      requires Valid()
      modifies this
      ensures Valid()
      ensures l == old(labelCount) && labelCount == l + 1
      ensures l !in old(issued) && issued == old(issued) + {l}
      ensures code == old(code)
    {
      l := labelCount;
      labelCount := labelCount + 1;
      issued := issued + {l};
    }

    method Emit(instrs: seq<Instr>)
      modifies this
      ensures code == old(code) + instrs
      ensures labelCount == old(labelCount) && issued == old(issued)
    {
      code := code + instrs;
    }

    /** `emit_prologue`: the frame set up, then one copy per parameter. */
    method EmitPrologue(name: string, sizeLocals: nat, numArgs: nat)
      modifies this
      ensures code == old(code) + PrologueCode(name, sizeLocals, numArgs)
      ensures labelCount == old(labelCount) && issued == old(issued)
    {
      var totalSize := (sizeLocals + numArgs + 1) * WordSize;
      var buffer := [Label(name), Push(Ebp), Mov(Esp, Ebp), SubEsp(totalSize)];
      var i := 0;
      while i < numArgs
        invariant 0 <= i <= numArgs
        invariant buffer == [Label(name), Push(Ebp), Mov(Esp, Ebp), SubEsp(totalSize)] + CopyCode(numArgs, i)
      {
        var paramOff := (1 + numArgs - i) * WordSize;
        var localOff := -(4 * i + 4);
        buffer := buffer + [Load(paramOff, Ebx), Store(Ebx, localOff)];
        i := i + 1;
      }
      Emit(buffer);
    }

    /** `emit_arith` */
    method EmitArith(op: ArithOp)
      modifies this
      ensures code == old(code) + ArithCode(op)
      ensures labelCount == old(labelCount) && issued == old(issued)
    {
      if op == Idivl {
        Emit([Pop(Ebx), Pop(Eax), Mov(Eax, Edx), SignFill, Arith(op), Push(Eax)]);
      } else {
        Emit([Pop(Ebx), Pop(Eax), Arith(op), Push(Eax)]);
      }
    }

    /** `emit_epilogue` */
    method EmitEpilogue()
      modifies this
      ensures code == old(code) + EpilogueCode()
      ensures labelCount == old(labelCount) && issued == old(issued)
    {
      Emit([Mov(Ebp, Esp), Pop(Ebp), Ret]);
    }

    /** The expression visits: arithmetic nodes visit both operands, then
      `emit_arith`; a variable is loaded from its slot and pushed; a literal
      is pushed. */
    method VisitExpr(e: Expr)
      modifies this
      ensures code == old(code) + ExprCode(e, offset)
      ensures labelCount == old(labelCount) && issued == old(issued)
    {
      match e
      case Binary(op, l, r) =>
        var kind := ArithOf(op);
        if kind.Some? {
          ghost var start := code;
          VisitExpr(l);
          VisitExpr(r);
          EmitArith(kind.value);
          Append3(start, ExprCode(l, offset), ExprCode(r, offset), ArithCode(kind.value));
        }
      case Ident(x) =>
        var off := -offset(x) - 4;
        Emit([Load(off, Ebx), Push(Ebx)]);
      case IntLit(v) =>
        Emit([PushImm(v)]);
      case _ =>
    }

    /** `visitAssignment`: the value, popped into `%ebx` and stored to the target's slot. */
    method VisitAssignment(x: string, rhs: Expr)
      modifies this
      ensures code == old(code) + StmtCode(Assignment(x, rhs), offset)
      ensures labelCount == old(labelCount) && issued == old(issued)
    {
      ghost var start := code;
      VisitExpr(rhs);
      var off := -(offset(x) + 4);
      Emit([Pop(Ebx), Store(Ebx, off)]);
      Append2(start, ExprCode(rhs, offset), [Pop(Ebx), Store(Ebx, off)]);
    }

    /** `visitCall` as written: the argument loop, then the buffered tail. */
    method VisitCallAsWritten(target: string, callee: string, args: seq<Expr>)
      modifies this
      ensures code == old(code) + CallCodeAsWritten(target, callee, args, offset)
      ensures labelCount == old(labelCount) && issued == old(issued)
    {
      ghost var start := code;
      ghost var rounds;
      var buffer;
      rounds, buffer := VisitArgsAsWritten(args);
      FinishCall(target, callee, args, rounds, buffer);
      Append4(start, ArgsCode(args, rounds, offset), buffer,
        [CallFn(callee), Store(Eax, FrameAddr(offset(target)))], Repeat([Pop(Ebx)], |args|));
    }

    /** The argument loop of `visitCall` as written: each round visits the
      back of a copy of the argument list, drops it, buffers a pop/push pair,
      and increments the counter twice, so ceil(n/2) rounds run. */
    method VisitArgsAsWritten(args: seq<Expr>) returns (ghost rounds: nat, buffer: seq<Instr>)
      modifies this
      ensures rounds == (|args| + 1) / 2
      ensures code == old(code) + ArgsCode(args, rounds, offset)
      ensures buffer == Repeat([Pop(Ebx), Push(Ebx)], rounds)
      ensures labelCount == old(labelCount) && issued == old(issued)
    {
      var paramSize := |args|;
      var ab := args;
      buffer := [];
      var i := 0;
      rounds := 0;
      while i < paramSize
        invariant i == 2 * rounds && rounds <= paramSize && i <= paramSize + 1
        invariant ab == args[..paramSize - rounds]
        invariant code == old(code) + ArgsCode(args, rounds, offset)
        invariant buffer == Repeat([Pop(Ebx), Push(Ebx)], rounds)
        invariant labelCount == old(labelCount) && issued == old(issued)
      {
        assert ab[|ab| - 1] == args[|args| - (rounds + 1)];
        VisitExpr(ab[|ab| - 1]);
        Append2(old(code), ArgsCode(args, rounds, offset), ExprCode(args[|args| - (rounds + 1)], offset));
        ab := ab[..|ab| - 1];
        buffer := buffer + [Pop(Ebx), Push(Ebx)];
        i := i + 1;
        i := i + 1;
        rounds := rounds + 1;
      }
    }

    /** `visitCall` with one increment per round: the argument loop, then
      the buffered tail. */
    method VisitCall(target: string, callee: string, args: seq<Expr>)
      modifies this
      ensures code == old(code) + CallCode(target, callee, args, offset)
      ensures labelCount == old(labelCount) && issued == old(issued)
    {
      ghost var start := code;
      var buffer := VisitArgs(args);
      FinishCall(target, callee, args, |args|, buffer);
      Append4(start, ArgsCode(args, |args|, offset), buffer,
        [CallFn(callee), Store(Eax, FrameAddr(offset(target)))], Repeat([Pop(Ebx)], |args|));
    }

    /** The corrected argument loop: every argument visited, last first, and
      one pop/push pair buffered per argument. */
    method VisitArgs(args: seq<Expr>) returns (buffer: seq<Instr>)
      modifies this
      ensures code == old(code) + ArgsCode(args, |args|, offset)
      ensures buffer == Repeat([Pop(Ebx), Push(Ebx)], |args|)
      ensures labelCount == old(labelCount) && issued == old(issued)
    {
      var paramSize := |args|;
      var ab := args;
      buffer := [];
      var i := 0;
      while i < paramSize
        invariant i <= paramSize
        invariant ab == args[..paramSize - i]
        invariant code == old(code) + ArgsCode(args, i, offset)
        invariant buffer == Repeat([Pop(Ebx), Push(Ebx)], i)
        invariant labelCount == old(labelCount) && issued == old(issued)
      {
        assert ab[|ab| - 1] == args[|args| - (i + 1)];
        VisitExpr(ab[|ab| - 1]);
        Append2(old(code), ArgsCode(args, i, offset), ExprCode(args[|args| - (i + 1)], offset));
        ab := ab[..|ab| - 1];
        buffer := buffer + [Pop(Ebx), Push(Ebx)];
        i := i + 1;
      }
    }

    /** The end of `visitCall`: the buffered pairs, the call, the store of
      `%eax` to the target's slot, one pop per argument. */
    method FinishCall(target: string, callee: string, args: seq<Expr>, ghost visited: nat, buffer: seq<Instr>)
      requires visited <= |args|
      requires buffer == Repeat([Pop(Ebx), Push(Ebx)], visited)
      modifies this
      ensures code == old(code) + buffer + [CallFn(callee), Store(Eax, FrameAddr(offset(target)))] + Repeat([Pop(Ebx)], |args|)
      ensures labelCount == old(labelCount) && issued == old(issued)
    {
      var off := -offset(target) - 4;
      var tail := buffer + [CallFn(callee), Store(Eax, off)];
      var k := 0;
      while k < |args|
        invariant 0 <= k <= |args|
        invariant tail == buffer + [CallFn(callee), Store(Eax, off)] + Repeat([Pop(Ebx)], k)
      {
        tail := tail + [Pop(Ebx)];
        k := k + 1;
      }
      ghost var start := code;
      Emit(tail);
      Append3(start, buffer, [CallFn(callee), Store(Eax, off)], Repeat([Pop(Ebx)], |args|));
    }

    /** `visitReturn`: the value popped into `%eax`, then the epilogue. */
    method VisitReturn(e: Expr)
      modifies this
      ensures code == old(code) + ReturnCode(e, offset)
      ensures labelCount == old(labelCount) && issued == old(issued)
    {
      ghost var start := code;
      VisitExpr(e);
      Emit([Pop(Eax)]);
      EmitEpilogue();
      Append3(start, ExprCode(e, offset), [Pop(Eax)], EpilogueCode());
    }

    /** Statement visits; the stub statement kinds write nothing. */
    method VisitStmt(s: Stmt)
      modifies this
      ensures code == old(code) + StmtCode(s, offset)
      ensures labelCount == old(labelCount) && issued == old(issued)
    {
      match s
      case Assignment(x, rhs) => VisitAssignment(x, rhs);
      case Call(target, callee, args) => VisitCall(target, callee, args);
      case _ =>
    }

    method VisitStmts(ss: seq<Stmt>)
      modifies this
      ensures code == old(code) + StmtsCode(ss, offset)
      ensures labelCount == old(labelCount) && issued == old(issued)
    {
      var i := 0;
      while i < |ss|
        invariant 0 <= i <= |ss|
        invariant code == old(code) + StmtsCode(ss[..i], offset)
        invariant labelCount == old(labelCount) && issued == old(issued)
      {
        StmtsCodeSnoc(ss, i, offset);
        VisitStmt(ss[i]);
        Append2(old(code), StmtsCode(ss[..i], offset), StmtCode(ss[i], offset));
        i := i + 1;
      }
      assert ss[..i] == ss;
    }

    /** `visitFunc`: the prologue, sized by the number of declarations and
      parameters, then the body's statements and return. */
    method VisitFunc(f: Func)
      modifies this
      ensures code == old(code) + FuncCode(f, offset)
      ensures labelCount == old(labelCount) && issued == old(issued)
    {
      ghost var start := code;
      EmitPrologue(f.name, |f.body.decls|, |f.params|);
      VisitStmts(f.body.stmts);
      VisitReturn(f.body.ret);
      Append3(start, PrologueCode(f.name, |f.body.decls|, |f.params|),
        StmtsCode(f.body.stmts, offset), ReturnCode(f.body.ret, offset));
    }

    /** `visitProgram`: text mode, the entry point, then each function in turn. */
    method VisitProgram(p: Program)
      modifies this
      ensures code == old(code) + ProgramCode(p, offset)
      ensures labelCount == old(labelCount) && issued == old(issued)
    {
      ghost var start := code;
      Emit([TextSection, Globl("_Main")]);
      VisitFuncs(p.funcs);
      Append2(start, [TextSection, Globl("_Main")], FuncsCode(p.funcs, offset));
    }

    method VisitFuncs(fs: seq<Func>)
      modifies this
      ensures code == old(code) + FuncsCode(fs, offset)
      ensures labelCount == old(labelCount) && issued == old(issued)
    {
      var i := 0;
      while i < |fs|
        invariant i <= |fs|
        invariant code == old(code) + FuncsCode(fs[..i], offset)
        invariant labelCount == old(labelCount) && issued == old(issued)
      {
        FuncsCodeSnoc(fs, i, offset);
        VisitFunc(fs[i]);
        Append2(old(code), FuncsCode(fs[..i], offset), FuncCode(fs[i], offset));
        i := i + 1;
      }
      assert fs[..i] == fs;
    }
  }
}
