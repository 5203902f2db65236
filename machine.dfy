/** The abstract instructions the code generator emits, in place of the
    assembler text, with two meanings: how each instruction changes the depth
    of the operand stack, and (for the instructions of arithmetic) what it
    does to the registers and the stack's values. */
module Machine {
  import opened Wrappers
  import opened Concrete

  datatype Reg = Eax | Ebx | Edx | Ebp | Esp

  datatype ArithOp = Addl | Subl | Imull | Idivl

  datatype Instr =
    | TextSection
      /** `.globl symbol` */
    | Globl(symbol: string)
      /** `_symbol:` */
    | Label(symbol: string)
    | Push(src: Reg)
      /** `pushl $value` */
    | PushImm(value: int)
    | Pop(dst: Reg)
      /** `movl from,to` between registers */
    | Mov(from: Reg, to: Reg)
      /** `subl $bytes,%esp` */
    | SubEsp(bytes: int)
      /** `movl offset(%ebp),dst` */
    | Load(offset: int, dst: Reg)
      /** `movl src,offset(%ebp)` */
    | Store(src: Reg, offset: int)
      /** `op %ebx,%eax`; for Idivl, `idivl %ebx` */
    | Arith(op: ArithOp)
      /** `sar $0x1f,%edx` */
    | SignFill
      /** `call _symbol` */
    | CallFn(symbol: string)
    | Ret

  // ---------------------------------------------------------------------
  // Operand-stack depth

  /** The depth after one instruction; `None` when a pop finds the stack empty. */
  function Step(i: Instr, d: nat): Option<nat>
  {
    match i
    case Push(_) => Some(d + 1)
    case PushImm(_) => Some(d + 1)
    case Pop(_) => if d == 0 then None else Some(d - 1)
    case _ => Some(d)
  }

  /** The depth after a sequence of instructions started at depth `d`. */
  function Run(code: seq<Instr>, d: nat): Option<nat>
    decreases |code|
  {
    if |code| == 0 then Some(d)
    else
      match Step(code[0], d)
      case None => None
      case Some(d') => Run(code[1..], d')
  }

  /** Running `b` from wherever `a` left the stack. */
  function Then(r: Option<nat>, b: seq<Instr>): Option<nat>
  {
    match r
    case None => None
    case Some(d) => Run(b, d)
  }

  lemma {:induction false} RunAppend(a: seq<Instr>, b: seq<Instr>, d: nat)
    ensures Run(a + b, d) == Then(Run(a, d), b)
    decreases |a|
  {
    if |a| == 0 {
      assert a + b == b;
    } else {
      assert (a + b)[0] == a[0];
      assert (a + b)[1..] == a[1..] + b;
      match Step(a[0], d)
      case None =>
      case Some(d') => RunAppend(a[1..], b, d');
    }
  }

  lemma Append2(a: seq<Instr>, b: seq<Instr>, c: seq<Instr>)
    ensures a + b + c == a + (b + c)
  {
  }

  lemma Append3(a: seq<Instr>, b: seq<Instr>, c: seq<Instr>, d: seq<Instr>)
    ensures a + b + c + d == a + (b + c + d)
  {
  }

  lemma Append4(a: seq<Instr>, b: seq<Instr>, c: seq<Instr>, d: seq<Instr>, e: seq<Instr>)
    ensures a + b + c + d + e == a + (b + c + d + e)
  {
  }

  /** Instructions that neither push nor pop. */
  predicate Neutral(i: Instr)
  {
    !(i.Push? || i.PushImm? || i.Pop?)
  }

  lemma {:induction false} RunNeutral(code: seq<Instr>, d: nat)
    requires forall k :: 0 <= k < |code| ==> Neutral(code[k])
    ensures Run(code, d) == Some(d)
    decreases |code|
  {
    if |code| > 0 {
      RunNeutral(code[1..], d);
    }
  }

  /** `k` copies of `block` one after another. */
  function Repeat(block: seq<Instr>, k: nat): seq<Instr>
  {
    if k == 0 then [] else Repeat(block, k - 1) + block
  }

  lemma {:induction false} RepeatLength(block: seq<Instr>, k: nat)
    ensures |Repeat(block, k)| == k * |block|
  {
    if k > 0 {
      RepeatLength(block, k - 1);
      assert k * |block| == (k - 1) * |block| + |block|;
    }
  }

  /** `n` pops in a row need `n` values and leave `d - n`. */
  lemma {:induction false} PopsDepth(r: Reg, n: nat, d: nat)
    ensures Run(Repeat([Pop(r)], n), d) == if d >= n then Some(d - n) else None
  {
    if n > 0 {
      assert Repeat([Pop(r)], n) == Repeat([Pop(r)], n - 1) + [Pop(r)];
      RunAppend(Repeat([Pop(r)], n - 1), [Pop(r)], d);
      PopsDepth(r, n - 1, d);
      assert [Pop(r)][1..] == [];
      if d >= n {
        assert Run([Pop(r)], d - (n - 1)) == Run([], d - n);
      }
    }
  }

  /** A pop followed by a push of the same register, `k` times, leaves the
      depth as it was, provided there is a value to pop. */
  lemma {:induction false} PairsDepth(r: Reg, k: nat, d: nat)
    requires k == 0 || d >= 1
    ensures Run(Repeat([Pop(r), Push(r)], k), d) == Some(d)
  {
    if k > 0 {
      assert Repeat([Pop(r), Push(r)], k) == Repeat([Pop(r), Push(r)], k - 1) + [Pop(r), Push(r)];
      RunAppend(Repeat([Pop(r), Push(r)], k - 1), [Pop(r), Push(r)], d);
      PairsDepth(r, k - 1, d);
      assert [Pop(r), Push(r)][1..] == [Push(r)] && [Push(r)][1..] == [];
      assert Run([Pop(r), Push(r)], d) == Run([Push(r)], d - 1) == Run([], d);
    }
  }

  // ---------------------------------------------------------------------
  // Values, for the arithmetic sequences

  /** The registers arithmetic uses. */
  datatype Regs = Regs(eax: int, ebx: int, edx: int)

  /** Registers and operand stack, top of stack last. */
  datatype MState = MState(regs: Regs, stack: seq<int>)

  function ReadReg(rs: Regs, r: Reg): Option<int>
  {
    match r
    case Eax => Some(rs.eax)
    case Ebx => Some(rs.ebx)
    case Edx => Some(rs.edx)
    case _ => None
  }

  function WriteReg(rs: Regs, r: Reg, v: int): Option<Regs>
  {
    match r
    case Eax => Some(rs.(eax := v))
    case Ebx => Some(rs.(ebx := v))
    case Edx => Some(rs.(edx := v))
    case _ => None
  }

  const Two32: int := 0x1_0000_0000

  /** The 64-bit dividend `idivl` divides: `%edx` is the high word and the
      low 32 bits of `%eax` the low word. */
  function Dividend(rs: Regs): int
  {
    rs.edx * Two32 + rs.eax % Two32
  }

  predicate IsInt32(v: int)
  {
    -0x8000_0000 <= v < 0x8000_0000
  }

  /** One instruction on registers and stack. `None` for a pop from an empty
      stack, a division by zero, a register outside `Regs`, and the
      instructions that touch memory or control, which this meaning leaves out. */
  function Exec(i: Instr, st: MState): Option<MState>
  {
    match i
    case Push(r) =>
      var v := ReadReg(st.regs, r);
      if v.None? then None else Some(st.(stack := st.stack + [v.value]))
    case PushImm(v) => Some(st.(stack := st.stack + [v]))
    case Pop(r) =>
      if |st.stack| == 0 then None
      else
        var rs := WriteReg(st.regs, r, st.stack[|st.stack| - 1]);
        if rs.None? then None else Some(MState(rs.value, st.stack[..|st.stack| - 1]))
    case Mov(from, to) =>
      var v := ReadReg(st.regs, from);
      if v.None? then None
      else
        var rs := WriteReg(st.regs, to, v.value);
        if rs.None? then None else Some(st.(regs := rs.value))
    case SignFill => Some(st.(regs := st.regs.(edx := if st.regs.edx < 0 then -1 else 0)))
    case Arith(op) =>
      var rs := st.regs;
      (match op
       case Addl => Some(st.(regs := rs.(eax := rs.eax + rs.ebx)))
       case Subl => Some(st.(regs := rs.(eax := rs.eax - rs.ebx)))
       case Imull => Some(st.(regs := rs.(eax := rs.eax * rs.ebx)))
       case Idivl =>
         if rs.ebx == 0 then None
         else
           var q := TruncDiv(Dividend(rs), rs.ebx);
           Some(st.(regs := rs.(eax := q, edx := Dividend(rs) - q * rs.ebx))))
    case _ => None
  }

  function ExecAll(code: seq<Instr>, st: MState): Option<MState>
    decreases |code|
  {
    if |code| == 0 then Some(st)
    else
      match Exec(code[0], st)
      case None => None
      case Some(st') => ExecAll(code[1..], st')
  }

  /** Sign extension makes the 64-bit dividend equal `%eax` for every
      32-bit value; without it, a negative `%eax` with `%edx` 0 is read as a
      large positive number. */
  lemma SignFillDividend(eax: int, edx: int)
    requires IsInt32(eax)
    ensures Dividend(Regs(eax, 0, if eax < 0 then -1 else 0)) == eax
    ensures eax < 0 ==> Dividend(Regs(eax, 0, 0)) == eax + Two32
  {
  }
}
