/** The constant-propagation analyser: a flow-sensitive traversal that
    threads a lattice environment through the statements of one function and
    gives every expression node a lattice element.

    The analysis itself is stated as functions (Fold for expressions,
    Analyze for statements, LoopFix for the for-loop fixpoint); the visit
    methods below update the environment step by step as the analyser does
    and are proved to compute those functions. */
module ConstantFolding {
  import opened Wrappers
  import opened Ast
  import opened Lattice
  import opened Concrete
  import opened Transfer

  // ---------------------------------------------------------------------
  // Expressions

  /** The variables an expression reads: the keys its visit may add. */
  function ReadNames(e: Expr): set<string>
  {
    match e
    case Binary(_, l, r) => ReadNames(l) + ReadNames(r)
    case Not(x) => ReadNames(x)
    case Uminus(x) => ReadNames(x)
    case Magnitude(x) => ReadNames(x)
    case Ident(x) => {x}
    case IntLit(_) => {}
    case BoolLit(_) => {}
    case ArrayAccess(_, i) => ReadNames(i)
  }

  function ArgNames(args: seq<Expr>): set<string>
  {
    if |args| == 0 then {} else ArgNames(args[..|args| - 1]) + ReadNames(args[|args| - 1])
  }

  /** `later` is `env` with the keys `added` inserted, each bound to BOTTOM:
      the only change reading a variable makes to the environment. */
  predicate Extends(env: Env, later: Env, added: set<string>)
  {
    && later.Keys == env.Keys + added
    && (forall x :: x in env ==> later[x] == env[x])
    && (forall x :: x in later && x !in env ==> later[x] == Bottom)
  }

  lemma ExtendsKeepsValues(env: Env, later: Env, added: set<string>)
    requires Extends(env, later, added)
    ensures forall x :: Get(later, x) == Get(env, x)
    ensures added <= env.Keys ==> later == env
  {
  }

  /** A variable read: a name missing from the map is inserted, bound to BOTTOM. */
  function Lookup(env: Env, x: string): (r: Env)
    ensures x in r
    ensures Extends(env, r, {x})
  {
    if x in env then env else env[x := Bottom]
  }

  /** Or and the six comparisons visit their operands a second time after
      computing their own element. */
  predicate RevisitsOperands(op: BinOp)
  {
    op in {Or, Compare, Noteq, Gt, Gteq, Lt, Lteq}
  }

  /** The element an expression node receives and the environment after its visit. */
  datatype Folded = Folded(elem: LatticeElem, env: Env)

  /** Visit of an expression. Operands are visited left to right, each in
      the environment the previous one left. Uminus, Magnitude and array
      reads set no element, so their node keeps the default BOTTOM. */
  function Fold(e: Expr, env: Env): (r: Folded)
    ensures Extends(env, r.env, ReadNames(e))
  {
    match e
    case Binary(op, l, rt) =>
      var a := Fold(l, env);
      var b := Fold(rt, a.env);
      var elem := BinRule(op, a.elem, b.elem);
      if RevisitsOperands(op) then
        var a' := Fold(l, b.env);
        Folded(elem, Fold(rt, a'.env).env)
      else
        Folded(elem, b.env)
    case Not(x) =>
      var a := Fold(x, env);
      Folded(NotRule(a.elem), a.env)
    case Uminus(x) => Folded(Bottom, Fold(x, env).env)
    case Magnitude(x) => Folded(Bottom, Fold(x, env).env)
    case Ident(x) => Folded(IdentRule(Get(env, x)), Lookup(env, x))
    case IntLit(v) => Folded(Const(v), env)
    case BoolLit(b) => Folded(Const(Bool(b)), env)
    case ArrayAccess(_, i) => Folded(Bottom, Fold(i, env).env)
  }

  function FoldEnv(e: Expr, env: Env): Env
  {
    Fold(e, env).env
  }

  /** Visit of an argument list, first argument first. */
  function FoldArgs(args: seq<Expr>, env: Env): (r: Env)
    ensures Extends(env, r, ArgNames(args))
  {
    if |args| == 0 then env else FoldEnv(args[|args| - 1], FoldArgs(args[..|args| - 1], env))
  }

  lemma FoldArgsSnoc(args: seq<Expr>, i: nat, env: Env)
    requires i < |args|
    ensures FoldArgs(args[..i + 1], env) == FoldEnv(args[i], FoldArgs(args[..i], env))
  {
    assert args[..i + 1][..i] == args[..i];
  }

  /** An expression's element depends only on the values its variables have,
      not on which absent names happen to be present as BOTTOM. */
  lemma {:induction false} FoldDependsOnValues(e: Expr, env1: Env, env2: Env)
    requires forall x :: x in ReadNames(e) ==> Get(env1, x) == Get(env2, x)
    ensures Fold(e, env1).elem == Fold(e, env2).elem
  {
    match e
    case Binary(op, l, rt) =>
      FoldDependsOnValues(l, env1, env2);
      var a1, a2 := Fold(l, env1), Fold(l, env2);
      ExtendsKeepsValues(env1, a1.env, ReadNames(l));
      ExtendsKeepsValues(env2, a2.env, ReadNames(l));
      FoldDependsOnValues(rt, a1.env, a2.env);
      assert Fold(e, env1).elem == BinRule(op, a1.elem, Fold(rt, a1.env).elem);
      assert Fold(e, env2).elem == BinRule(op, a2.elem, Fold(rt, a2.env).elem);
    case Not(x) => FoldDependsOnValues(x, env1, env2);
    case Uminus(x) =>
    case Magnitude(x) =>
    case Ident(x) =>
    case IntLit(v) =>
    case BoolLit(b) =>
    case ArrayAccess(_, i) =>
  }

  /** Visiting an expression a second time, as Or and the comparisons do
      with their operands, changes neither its element nor the environment. */
  lemma RevisitChangesNothing(e: Expr, env: Env)
    ensures Fold(e, Fold(e, env).env) == Fold(e, env)
  {
    var first := Fold(e, env);
    ExtendsKeepsValues(env, first.env, ReadNames(e));
    FoldDependsOnValues(e, env, first.env);
    var second := Fold(e, first.env);
    ExtendsKeepsValues(first.env, second.env, ReadNames(e));
  }

  // ---------------------------------------------------------------------
  // Soundness of the expression analysis

  /** The fragment in which every node receives an element from a rule:
      no unary minus, magnitude or array read (left at BOTTOM). */
  predicate Tracked(e: Expr)
  {
    match e
    case Binary(_, l, r) => Tracked(l) && Tracked(r)
    case Not(x) => Tracked(x)
    case Uminus(_) => false
    case Magnitude(_) => false
    case Ident(_) => true
    case IntLit(_) => true
    case BoolLit(_) => true
    case ArrayAccess(_, _) => false
  }

  lemma {:induction false} TrackedHasNoArrays(e: Expr)
    requires Tracked(e)
    ensures NoArrays(e)
  {
    match e
    case Binary(_, l, r) => TrackedHasNoArrays(l); TrackedHasNoArrays(r);
    case Not(x) => TrackedHasNoArrays(x);
    case Ident(_) =>
    case IntLit(_) =>
    case BoolLit(_) =>
  }

  /** A run-time state agrees with an environment when every bound variable
      has a value the element admits. */
  predicate Models(state: map<string, int>, env: Env)
  {
    forall x :: x in env ==> x in state && Admits(env[x], state[x])
  }

  /** The analysis over-approximates evaluation: in every state the
      environment describes, a defined value of a tracked expression is
      admitted by the element the expression receives. */
  lemma {:induction false} FoldSound(e: Expr, env: Env, state: map<string, int>)
    requires Tracked(e) && ReadNames(e) <= env.Keys && Models(state, env)
    ensures NoArrays(e)
    ensures Fold(e, env).env == env
    ensures Value(e, state).Some? ==> Admits(Fold(e, env).elem, Value(e, state).value)
  {
    TrackedHasNoArrays(e);
    ExtendsKeepsValues(env, Fold(e, env).env, ReadNames(e));
    match e
    case Binary(op, l, rt) =>
      FoldSound(l, env, state);
      FoldSound(rt, env, state);
      if Value(e, state).Some? {
        BinRuleSound(op, Fold(l, env).elem, Fold(rt, env).elem, Value(l, state).value, Value(rt, state).value);
      }
    case Not(x) =>
      FoldSound(x, env, state);
      if Value(x, state).Some? {
        NotRuleSound(Fold(x, env).elem, Value(x, state).value);
      }
    case Ident(x) =>
    case IntLit(v) =>
    case BoolLit(b) =>
  }


  // ---------------------------------------------------------------------
  // Statements

  function NamesOf(names: seq<string>): set<string>
  {
    if |names| == 0 then {} else NamesOf(names[..|names| - 1]) + {names[|names| - 1]}
  }

  function DeclNames(ds: seq<Decl>): set<string>
  {
    if |ds| == 0 then {} else DeclNames(ds[..|ds| - 1]) + NamesOf(ds[|ds| - 1].names)
  }

  /** `env` with every name of `names` bound to TOP. */
  function BindTop(env: Env, names: set<string>): (r: Env)
    ensures r.Keys == env.Keys + names
  {
    env + map x | x in names :: Top
  }

  /** Declarations bind every declared name to TOP. */
  function Declare(ds: seq<Decl>, env: Env): (r: Env)
    ensures r.Keys == env.Keys + DeclNames(ds)
  {
    BindTop(env, DeclNames(ds))
  }

  /** After a call every name present in the environment is TOP. */
  function KillAll(env: Env): (r: Env)
    ensures r.Keys == env.Keys
  {
    map x | x in env :: Top
  }

  /** The names a statement's analysis may add as keys. */
  function StmtNames(s: Stmt): set<string>
  {
    match s
    case Assignment(x, rhs) => {x} + ReadNames(rhs)
    case ArrayAssignment(_, i, rhs) => ReadNames(i) + ReadNames(rhs)
    case Call(_, _, args) => ArgNames(args)
    case ArrayCall(_, i, _, args) => ReadNames(i) + ArgNames(args)
    case IfNoElse(c, body) => ReadNames(c) + BlockNames(body)
    case IfWithElse(c, b1, b2) => ReadNames(c) + BlockNames(b1) + BlockNames(b2)
    case ForLoop(init, c, incr, body) => StmtNames(init) + ReadNames(c) + StmtNames(incr) + BlockNames(body)
  }

  function BlockNames(b: Block): set<string>
  {
    DeclNames(b.decls) + SeqNames(b.stmts)
  }

  function SeqNames(ss: seq<Stmt>): set<string>
  {
    if |ss| == 0 then {} else SeqNames(ss[..|ss| - 1]) + StmtNames(ss[|ss| - 1])
  }

  /** Names that are not yet TOP, and names still BOTTOM, among `universe`. */
  function NotTop(universe: set<string>, env: Env): set<string>
  {
    set x | x in universe && Get(env, x) != Top
  }

  function StillBottom(universe: set<string>, env: Env): set<string>
  {
    set x | x in universe && Get(env, x) == Bottom
  }

  /** How far the names of `universe` can still rise in the lattice: two
      steps for BOTTOM, one for a constant, none for TOP. */
  function Potential(universe: set<string>, env: Env): nat
  {
    |NotTop(universe, env)| + |StillBottom(universe, env)|
  }

  lemma SubsetCardinality(a: set<string>, b: set<string>, x: string)
    requires a <= b
    ensures |a| <= |b|
    ensures x in b && x !in a ==> |a| < |b|
  {
    assert b == a + (b - a);
  }

  /** A round that only raises values and changes one of them lowers the potential. */
  lemma PotentialDecreases(universe: set<string>, env: Env, next: Env)
    requires env.Keys <= universe && next.Keys <= universe
    requires EnvLeq(env, next) && !MapsEqual(env, next)
    ensures Potential(universe, next) < Potential(universe, env)
  {
    var x :| x in env.Keys + next.Keys && Get(env, x) != Get(next, x);
    assert Leq(Get(env, x), Get(next, x));
    assert NotTop(universe, next) <= NotTop(universe, env) by {
      forall y | y in NotTop(universe, next) ensures y in NotTop(universe, env) {
        if y in env.Keys + next.Keys { assert Leq(Get(env, y), Get(next, y)); }
      }
    }
    assert StillBottom(universe, next) <= StillBottom(universe, env) by {
      forall y | y in StillBottom(universe, next) ensures y in StillBottom(universe, env) {
        if y in env.Keys + next.Keys { assert Leq(Get(env, y), Get(next, y)); }
      }
    }
    SubsetCardinality(NotTop(universe, next), NotTop(universe, env), x);
    SubsetCardinality(StillBottom(universe, next), StillBottom(universe, env), x);
  }

  lemma EnvLeqTransitive(a: Env, b: Env, c: Env)
    requires EnvLeq(a, b) && EnvLeq(b, c)
    ensures EnvLeq(a, c)
  {
    forall x | x in a.Keys + c.Keys ensures Leq(Get(a, x), Get(c, x)) {
      assert Leq(Get(a, x), Get(b, x)) by {
        if x !in a.Keys + b.Keys { assert Get(a, x) == Bottom; }
      }
      LeqIsPartialOrder(Get(a, x), Get(b, x), Get(c, x));
    }
  }

  /** Reading variables only inserts BOTTOM bindings, which raise nothing. */
  lemma ExtendsIsAbove(env: Env, later: Env, added: set<string>)
    requires Extends(env, later, added)
    ensures EnvLeq(env, later)
  {
    ExtendsKeepsValues(env, later, added);
  }

  /** Analysis of one statement: the environment after it. */
  function Analyze(s: Stmt, env: Env): (out: Env)
    ensures env.Keys <= out.Keys <= env.Keys + StmtNames(s)
    decreases s, 3, 0
  {
    match s
    case Assignment(x, rhs) =>
      var f := Fold(rhs, env);
      f.env[x := f.elem]
    case ArrayAssignment(_, i, rhs) => FoldEnv(rhs, FoldEnv(i, env))
    case Call(_, _, args) => KillAll(FoldArgs(args, env))
    case ArrayCall(_, i, _, args) => FoldArgs(args, FoldEnv(i, env))
    case IfNoElse(_, _) => AnalyzeIf(s, env)
    case IfWithElse(_, _, _) => AnalyzeIfElse(s, env)
    case ForLoop(_, _, _, _) => AnalyzeLoop(s, env)
  }

  /** `if (c) body`: the body runs on a copy of the environment left by the
      condition, and the copy is joined back. */
  function AnalyzeIf(s: Stmt, env: Env): (out: Env)
    requires s.IfNoElse?
    ensures env.Keys <= out.Keys <= env.Keys + StmtNames(s)
    decreases s, 2, 0
  {
    var afterCond := FoldEnv(s.cond, env);
    var bodyOut := AnalyzeBlock(s.body, afterCond);
    assert afterCond.Keys <= env.Keys + StmtNames(s);
    assert bodyOut.Keys <= env.Keys + StmtNames(s);
    JoinMaps(bodyOut, afterCond)
  }

  /** `if (c) b1 else b2`: the then-branch runs on a copy taken before the
      condition is visited, the else-branch on the environment the condition
      left, and the two results are joined. */
  function AnalyzeIfElse(s: Stmt, env: Env): (out: Env)
    requires s.IfWithElse?
    ensures env.Keys <= out.Keys <= env.Keys + StmtNames(s)
    decreases s, 2, 0
  {
    var afterCond := FoldEnv(s.cond, env);
    var thenOut := AnalyzeBlock(s.thenBody, env);
    var elseOut := AnalyzeBlock(s.elseBody, afterCond);
    assert thenOut.Keys <= env.Keys + StmtNames(s);
    assert elseOut.Keys <= env.Keys + StmtNames(s);
    JoinMaps(thenOut, elseOut)
  }

  /** `for (init; c; incr) body`: init, then the condition, then rounds up to the fixpoint. */
  function AnalyzeLoop(s: Stmt, env: Env): (out: Env)
    requires s.ForLoop?
    ensures env.Keys <= out.Keys <= env.Keys + StmtNames(s)
    decreases s, 2, 0
  {
    var start := FoldEnv(s.cond, Analyze(s.init, env));
    LoopFix(s, start.Keys + StmtNames(s), start)
  }

  /** One more round of a for loop: body and increment on a copy, joined
      with the round's input, then the condition. */
  function LoopPass(s: Stmt, env: Env): (out: Env)
    requires s.ForLoop?
    ensures env.Keys <= out.Keys <= env.Keys + StmtNames(s)
    ensures EnvLeq(env, out)
    decreases s, 0, 0
  {
    var afterBody := AnalyzeBlock(s.body, env);
    var round := Analyze(s.incr, afterBody);
    assert round.Keys <= env.Keys + StmtNames(s);
    var joined := JoinMaps(round, env);
    JoinMapsIsLub(round, env, joined);
    var out := FoldEnv(s.cond, joined);
    ExtendsIsAbove(joined, out, ReadNames(s.cond));
    EnvLeqTransitive(env, joined, out);
    out
  }

  /** The for-loop fixpoint: rounds are repeated until one leaves the
      environment equal to the previous one. It terminates because a round
      only raises values, each name of the finite `universe` can rise at most
      twice, and no round adds a name outside `universe`. */
  function LoopFix(s: Stmt, universe: set<string>, env: Env): (out: Env)
    requires s.ForLoop?
    requires env.Keys <= universe && StmtNames(s) <= universe
    ensures env.Keys <= out.Keys <= universe
    ensures EnvLeq(env, out)
    decreases s, 1, Potential(universe, env)
  {
    var next := LoopPass(s, env);
    if MapsEqual(env, next) then
      next
    else
      PotentialDecreases(universe, env, next);
      var out := LoopFix(s, universe, next);
      EnvLeqTransitive(env, next, out);
      out
  }

  function AnalyzeBlock(b: Block, env: Env): (out: Env)
    ensures env.Keys <= out.Keys <= env.Keys + BlockNames(b)
    decreases b, 2, 0
  {
    AnalyzeSeq(b.stmts, Declare(b.decls, env))
  }

  /** Statements analysed in order, each on the environment the previous one left. */
  function AnalyzeSeq(ss: seq<Stmt>, env: Env): (out: Env)
    ensures env.Keys <= out.Keys <= env.Keys + SeqNames(ss)
    decreases ss, 2, 0
  {
    if |ss| == 0 then env else Analyze(ss[|ss| - 1], AnalyzeSeq(ss[..|ss| - 1], env))
  }

  lemma AnalyzeSeqSnoc(ss: seq<Stmt>, i: nat, env: Env)
    requires i < |ss|
    ensures AnalyzeSeq(ss[..i + 1], env) == Analyze(ss[i], AnalyzeSeq(ss[..i], env))
  {
    assert ss[..i + 1][..i] == ss[..i];
  }

  /** A function body: declarations, statements, then the returned expression. */
  function AnalyzeFunctionBlock(fb: FunctionBlock, env: Env): (out: Env)
    ensures env.Keys <= out.Keys <= env.Keys + DeclNames(fb.decls) + SeqNames(fb.stmts) + ReadNames(fb.ret)
  {
    FoldEnv(fb.ret, AnalyzeSeq(fb.stmts, Declare(fb.decls, env)))
  }

  // ---------------------------------------------------------------------
  // What each statement rule changes

  lemma {:induction false} NamesOfIsElements(names: seq<string>)
    ensures forall x :: x in NamesOf(names) <==> x in names
  {
    if |names| > 0 {
      NamesOfIsElements(names[..|names| - 1]);
      assert names == names[..|names| - 1] + [names[|names| - 1]];
    }
  }

  lemma {:induction false} DeclNamesAreDeclared(ds: seq<Decl>)
    ensures forall x :: x in DeclNames(ds) <==> exists k :: 0 <= k < |ds| && x in ds[k].names
  {
    if |ds| > 0 {
      var n := |ds| - 1;
      DeclNamesAreDeclared(ds[..n]);
      NamesOfIsElements(ds[n].names);
      forall x ensures x in DeclNames(ds) <==> exists k :: 0 <= k < |ds| && x in ds[k].names {
        if k :| 0 <= k < |ds| && x in ds[k].names {
          if k < n { assert ds[..n][k] == ds[k]; }
        }
        if x in DeclNames(ds[..n]) {
          var k :| 0 <= k < n && x in ds[..n][k].names;
          assert ds[k] == ds[..n][k];
        }
      }
    }
  }

  /** Declarations bind each declared name to TOP; every other name keeps its value. */
  lemma DeclareRule(ds: seq<Decl>, env: Env)
    ensures forall k, j :: 0 <= k < |ds| && 0 <= j < |ds[k].names| ==> Get(Declare(ds, env), ds[k].names[j]) == Top
    ensures forall y :: (forall k :: 0 <= k < |ds| ==> y !in ds[k].names) ==> Get(Declare(ds, env), y) == Get(env, y)
  {
    DeclNamesAreDeclared(ds);
    forall k, j | 0 <= k < |ds| && 0 <= j < |ds[k].names|
      ensures ds[k].names[j] in DeclNames(ds)
    {
      assert ds[k].names[j] in ds[k].names;
    }
  }

  /** An assignment binds its target to the element of its right-hand side;
      every other name keeps its value. */
  lemma AssignmentRule(x: string, rhs: Expr, env: Env)
    ensures x in Analyze(Assignment(x, rhs), env)
    ensures Analyze(Assignment(x, rhs), env)[x] == Fold(rhs, env).elem
    ensures forall y :: y != x ==> Get(Analyze(Assignment(x, rhs), env), y) == Get(env, y)
  {
    ExtendsKeepsValues(env, Fold(rhs, env).env, ReadNames(rhs));
  }

  /** A call makes every name of the environment TOP, including those its
      arguments read; it removes none. */
  lemma CallRule(target: string, callee: string, args: seq<Expr>, env: Env)
    ensures Analyze(Call(target, callee, args), env).Keys == env.Keys + ArgNames(args)
    ensures forall x :: x in env ==> Analyze(Call(target, callee, args), env)[x] == Top
    ensures forall x :: x !in env.Keys + ArgNames(args) ==> Get(Analyze(Call(target, callee, args), env), x) == Bottom
  {
  }

  /** After `if (c) body` a name keeps a value only where the body's result
      and the condition's result agree; different constants give TOP. */
  lemma IfNoElseRule(c: Expr, body: Block, env: Env, x: string)
    ensures var afterCond := FoldEnv(c, env);
      var bodyOut := AnalyzeBlock(body, afterCond);
      var out := Analyze(IfNoElse(c, body), env);
      && EnvLeq(afterCond, out) && EnvLeq(bodyOut, out)
      && (Get(bodyOut, x) == Get(afterCond, x) ==> Get(out, x) == Get(afterCond, x))
      && (Get(bodyOut, x).Const? && Get(afterCond, x).Const? && Get(bodyOut, x) != Get(afterCond, x) ==> Get(out, x) == Top)
  {
    var afterCond := FoldEnv(c, env);
    var bodyOut := AnalyzeBlock(body, afterCond);
    AnalyzeIfCase(IfNoElse(c, body), env);
    JoinMapsIsLub(bodyOut, afterCond, JoinMaps(bodyOut, afterCond));
    JoinAlgebra(Get(bodyOut, x), Get(afterCond, x), Bottom);
  }

  /** After `if (c) b1 else b2` a name keeps a value only where both
      branches agree; different constants give TOP. */
  lemma IfWithElseRule(c: Expr, b1: Block, b2: Block, env: Env, x: string)
    ensures var thenOut := AnalyzeBlock(b1, env);
      var elseOut := AnalyzeBlock(b2, FoldEnv(c, env));
      var out := Analyze(IfWithElse(c, b1, b2), env);
      && EnvLeq(thenOut, out) && EnvLeq(elseOut, out)
      && (Get(thenOut, x) == Get(elseOut, x) ==> Get(out, x) == Get(thenOut, x))
      && (Get(thenOut, x).Const? && Get(elseOut, x).Const? && Get(thenOut, x) != Get(elseOut, x) ==> Get(out, x) == Top)
  {
    var thenOut := AnalyzeBlock(b1, env);
    var elseOut := AnalyzeBlock(b2, FoldEnv(c, env));
    var out := Analyze(IfWithElse(c, b1, b2), env);
    AnalyzeIfElseCase(IfWithElse(c, b1, b2), env);
    JoinMapsIsLub(thenOut, elseOut, out);
    assert Get(out, x) == Join(Get(thenOut, x), Get(elseOut, x));
    JoinAlgebra(Get(thenOut, x), Get(elseOut, x), Bottom);
  }

  /** One unfolding of the loop: it stops on a round that leaves the
      environment equal, and otherwise goes on from the round's result. */
  lemma LoopFixStep(s: Stmt, universe: set<string>, env: Env)
    requires s.ForLoop?
    requires env.Keys <= universe && StmtNames(s) <= universe
    ensures LoopPass(s, env).Keys <= universe
    ensures MapsEqual(env, LoopPass(s, env)) ==> LoopFix(s, universe, env) == LoopPass(s, env)
    ensures !MapsEqual(env, LoopPass(s, env)) ==> LoopFix(s, universe, env) == LoopFix(s, universe, LoopPass(s, env))
  {
  }

  /** The loop stops on a round whose input it equals: the result is one
      round applied to an environment that lies above the loop's entry and
      equals that result. */
  lemma {:induction false} LoopFixStops(s: Stmt, universe: set<string>, env: Env)
    requires s.ForLoop?
    requires env.Keys <= universe && StmtNames(s) <= universe
    ensures exists prev ::
      (EnvLeq(env, prev) && prev.Keys <= universe
       && LoopFix(s, universe, env) == LoopPass(s, prev) && MapsEqual(prev, LoopPass(s, prev)))
    decreases Potential(universe, env)
  {
    var next := LoopPass(s, env);
    LoopFixStep(s, universe, env);
    if MapsEqual(env, next) {
      assert EnvLeq(env, env);
      assert EnvLeq(env, env) && env.Keys <= universe
        && LoopFix(s, universe, env) == LoopPass(s, env) && MapsEqual(env, LoopPass(s, env));
    } else {
      PotentialDecreases(universe, env, next);
      LoopFixStops(s, universe, next);
      var prev :| EnvLeq(next, prev) && prev.Keys <= universe
        && LoopFix(s, universe, next) == LoopPass(s, prev) && MapsEqual(prev, LoopPass(s, prev));
      EnvLeqTransitive(env, next, prev);
      assert EnvLeq(env, prev) && prev.Keys <= universe
        && LoopFix(s, universe, env) == LoopPass(s, prev) && MapsEqual(prev, LoopPass(s, prev));
    }
  }

  // ---------------------------------------------------------------------
  // Scenarios

  /** A literal gets its value and leaves the environment as it was. */
  lemma FoldIntLit(v: int, env: Env)
    ensures Fold(IntLit(v), env) == Folded(Const(v), env)
  {
  }

  /** A variable read gives the element the variable is bound to, BOTTOM
      for a name not in the map. */
  lemma FoldIdent(x: string, env: Env)
    ensures Fold(Ident(x), env).elem == Get(env, x)
  {
  }

  /** `x = 5; y = x + 3;` leaves `y` at the constant 8. */
  lemma ScenarioStraightLine(env: Env)
    ensures var after := AnalyzeSeq([Assignment("x", IntLit(5)), Assignment("y", Binary(Plus, Ident("x"), IntLit(3)))], env);
      Get(after, "y") == Const(8) && Get(after, "x") == Const(5)
  {
    var s1 := Assignment("x", IntLit(5));
    var rhs := Binary(Plus, Ident("x"), IntLit(3));
    AnalyzeSeqPair(s1, Assignment("y", rhs), env);
    var mid := Analyze(s1, env);
    FoldIntLit(5, env);
    AssignmentRule("x", IntLit(5), env);
    FoldIdent("x", mid);
    FoldIntLit(3, Fold(Ident("x"), mid).env);
    FoldPlusConstants(Ident("x"), IntLit(3), mid, 5, 3);
    AssignmentRule("y", rhs, mid);
  }

  lemma FoldPlusConstants(l: Expr, r: Expr, env: Env, v: int, w: int)
    requires Fold(l, env).elem == Const(v)
    requires Fold(r, Fold(l, env).env).elem == Const(w)
    ensures Fold(Binary(Plus, l, r), env).elem == Const(v + w)
  {
    var a := Fold(l, env);
    var b := Fold(r, a.env);
    assert Fold(Binary(Plus, l, r), env).elem == BinRule(Plus, a.elem, b.elem);
    BinRuleOnConstants(Plus, v, w);
  }

  /** `if (c) { x = 1; } else { x = 1; }` leaves `x` at 1; with `x = 2` in the
      else-branch, at TOP. */
  lemma ScenarioBranches(c: Expr, env: Env)
    ensures Get(Analyze(IfWithElse(c, NestedBlock([], [Assignment("x", IntLit(1))]), NestedBlock([], [Assignment("x", IntLit(1))])), env), "x") == Const(1)
    ensures Get(Analyze(IfWithElse(c, NestedBlock([], [Assignment("x", IntLit(1))]), NestedBlock([], [Assignment("x", IntLit(2))])), env), "x") == Top
  {
    var one := NestedBlock([], [Assignment("x", IntLit(1))]);
    var two := NestedBlock([], [Assignment("x", IntLit(2))]);
    assert [Assignment("x", IntLit(1))][..0] == [];
    assert [Assignment("x", IntLit(2))][..0] == [];
    assert Get(AnalyzeBlock(one, env), "x") == Const(1);
    assert Get(AnalyzeBlock(one, FoldEnv(c, env)), "x") == Const(1);
    assert Get(AnalyzeBlock(two, FoldEnv(c, env)), "x") == Const(2);
    IfWithElseRule(c, one, one, env, "x");
    IfWithElseRule(c, one, two, env, "x");
  }

  /** `x = 0; z = x * y;` leaves `z` at the constant 0 whatever `y` is,
      TOP included. */
  lemma ScenarioAbsorbingZero(env: Env)
    ensures Get(AnalyzeSeq([Assignment("x", IntLit(0)), Assignment("z", Binary(Times, Ident("x"), Ident("y")))], env), "z") == Const(0)
  {
    var s1 := Assignment("x", IntLit(0));
    var rhs := Binary(Times, Ident("x"), Ident("y"));
    var s2 := Assignment("z", rhs);
    AnalyzeSeqPair(s1, s2, env);
    var mid := Analyze(s1, env);
    FoldIntLit(0, env);
    AssignmentRule("x", IntLit(0), env);
    FoldIdent("x", mid);
    FoldTimesZero(Ident("x"), Ident("y"), mid);
    AssignmentRule("z", rhs, mid);
  }

  lemma FoldTimesZero(l: Expr, r: Expr, env: Env)
    requires Fold(l, env).elem == Const(0)
    ensures Fold(Binary(Times, l, r), env).elem == Const(0)
  {
    var a := Fold(l, env);
    var b := Fold(r, a.env);
    assert Fold(Binary(Times, l, r), env).elem == BinRule(Times, a.elem, b.elem);
    BinRuleTimes(a.elem, b.elem);
    TimesRuleCases(a.elem, b.elem);
  }

  /** `a = 1; foo(a, b); z = a;` leaves `z` at TOP. */
  lemma ScenarioCallKills(env: Env)
    ensures AnalyzeSeq([Assignment("a", IntLit(1)), Call("r", "foo", [Ident("a"), Ident("b")]), Assignment("z", Ident("a"))], env)["z"] == Top
  {
    var s1 := Assignment("a", IntLit(1));
    var s2 := Call("r", "foo", [Ident("a"), Ident("b")]);
    var s3 := Assignment("z", Ident("a"));
    assert [s1, s2, s3][..2] == [s1, s2];
    AnalyzeSeqPair(s1, s2, env);
    var afterCall := Analyze(s2, Analyze(s1, env));
    CallRule("r", "foo", [Ident("a"), Ident("b")], Analyze(s1, env));
    assert afterCall["a"] == Top;
  }

  // ---------------------------------------------------------------------
  // The visits, updating the environment step by step

  lemma BindTopStep(env: Env, names: set<string>, x: string)
    ensures BindTop(env, names)[x := Top] == BindTop(env, names + {x})
  {
  }

  /** `visitDecl`: each declared name is set to TOP in turn. */
  method VisitDecl(d: Decl, env: Env) returns (out: Env)
    ensures out == BindTop(env, NamesOf(d.names))
  {
    out := env;
    var i := 0;
    while i < |d.names|
      invariant 0 <= i <= |d.names|
      invariant out == BindTop(env, NamesOf(d.names[..i]))
    {
      assert d.names[..i + 1][..i] == d.names[..i];
      BindTopStep(env, NamesOf(d.names[..i]), d.names[i]);
      out := out[d.names[i] := Top];
      i := i + 1;
    }
    assert d.names[..i] == d.names;
  }

  lemma BindTopUnion(env: Env, a: set<string>, b: set<string>)
    ensures BindTop(BindTop(env, a), b) == BindTop(env, a + b)
  {
  }

  /** A declaration list, one declaration after another. */
  method VisitDecls(ds: seq<Decl>, env: Env) returns (out: Env)
    ensures out == Declare(ds, env)
  {
    out := env;
    var i := 0;
    while i < |ds|
      invariant 0 <= i <= |ds|
      invariant out == Declare(ds[..i], env)
    {
      assert ds[..i + 1][..i] == ds[..i];
      BindTopUnion(env, DeclNames(ds[..i]), NamesOf(ds[i].names));
      out := VisitDecl(ds[i], out);
      i := i + 1;
    }
    assert ds[..i] == ds;
  }

  /** An argument list, first argument first. */
  method VisitArgs(args: seq<Expr>, env: Env) returns (out: Env)
    ensures out == FoldArgs(args, env)
  {
    out := env;
    var i := 0;
    while i < |args|
      invariant 0 <= i <= |args|
      invariant out == FoldArgs(args[..i], env)
    {
      FoldArgsSnoc(args, i, env);
      out := FoldEnv(args[i], out);
      i := i + 1;
    }
    assert args[..i] == args;
  }

  /** The iteration of `visitCall` over the map, setting each entry to TOP. */
  method SetAllTop(env: Env) returns (out: Env)
    ensures out == KillAll(env)
  {
    out := env;
    var pending := env.Keys;
    while pending != {}
      invariant pending <= env.Keys && out.Keys == env.Keys
      invariant forall x :: x in out ==> out[x] == if x in pending then env[x] else Top
      decreases pending
    {
      var x :| x in pending;
      out := out[x := Top];
      pending := pending - {x};
    }
  }

  method VisitStmt(s: Stmt, env: Env) returns (out: Env)
    ensures out == Analyze(s, env)
    decreases s, 2
  {
    match s
    case Assignment(_, _) => out := VisitAssignment(s, env);
    case ArrayAssignment(_, _, _) => out := VisitArrayAssignment(s, env);
    case Call(_, _, _) => out := VisitCall(s, env);
    case ArrayCall(_, _, _, _) => out := VisitArrayCall(s, env);
    case IfNoElse(_, _) => out := VisitIfNoElse(s, env);
    case IfWithElse(_, _, _) => out := VisitIfWithElse(s, env);
    case ForLoop(_, _, _, _) => out := VisitForLoop(s, env);
  }

  /** `visitAssignment`: the right-hand side, then the target bound to its element. */
  method VisitAssignment(s: Stmt, env: Env) returns (out: Env)
    requires s.Assignment?
    ensures out == Analyze(s, env)
  {
    var f := Fold(s.rhs, env);
    out := f.env[s.target := f.elem];
  }

  /** `visitArrayAssignment`: the index, then the right-hand side. */
  method VisitArrayAssignment(s: Stmt, env: Env) returns (out: Env)
    requires s.ArrayAssignment?
    ensures out == Analyze(s, env)
  {
    out := FoldEnv(s.index, env);
    out := FoldEnv(s.rhs, out);
  }

  /** `visitCall`: the arguments, then every entry set to TOP. */
  method VisitCall(s: Stmt, env: Env) returns (out: Env)
    requires s.Call?
    ensures out == Analyze(s, env)
  {
    out := VisitArgs(s.args, env);
    out := SetAllTop(out);
  }

  /** `visitArrayCall`: the index, then the arguments. */
  method VisitArrayCall(s: Stmt, env: Env) returns (out: Env)
    requires s.ArrayCall?
    ensures out == Analyze(s, env)
  {
    out := FoldEnv(s.index, env);
    out := VisitArgs(s.args, out);
  }

  /** `visitIfNoElse`: the condition, the body on a clone, the clone joined back. */
  method VisitIfNoElse(s: Stmt, env: Env) returns (out: Env)
    requires s.IfNoElse?
    ensures out == Analyze(s, env)
    decreases s, 0
  {
    out := FoldEnv(s.cond, env);
    var clone := VisitBlock(s.body, out);
    out := JoinMaps(clone, out);
    AnalyzeIfCase(s, env);
  }

  /** `visitIfWithElse`: a clone taken before the condition runs the
      then-branch, the condition's map runs the else-branch, then the join. */
  method VisitIfWithElse(s: Stmt, env: Env) returns (out: Env)
    requires s.IfWithElse?
    ensures out == Analyze(s, env)
    decreases s, 0
  {
    var clone := env;
    out := FoldEnv(s.cond, env);
    clone := VisitBlock(s.thenBody, clone);
    out := VisitBlock(s.elseBody, out);
    out := JoinMaps(clone, out);
    AnalyzeIfElseCase(s, env);
  }

  /** `visitForLoop`: init, condition, then rounds on a clone until a round
      leaves the map equal to its input. */
  method VisitForLoop(s: Stmt, env: Env) returns (out: Env)
    requires s.ForLoop?
    ensures out == Analyze(s, env)
    decreases s, 1
  {
    var cur := VisitStmt(s.init, env);
    cur := FoldEnv(s.cond, cur);
    ghost var universe := cur.Keys + StmtNames(s);
    AnalyzeLoopCase(s, env);
    assert AnalyzeLoop(s, env) == LoopFix(s, universe, cur);
    while true
      invariant cur.Keys <= universe
      invariant LoopFix(s, universe, cur) == Analyze(s, env)
      decreases Potential(universe, cur)
    {
      var clone := VisitRound(s, cur);
      LoopFixStep(s, universe, cur);
      var equal := MapsEqual(cur, clone);
      if equal {
        return clone;
      }
      PotentialDecreases(universe, cur, clone);
      cur := clone;
    }
  }

  lemma AnalyzeLoopCase(s: Stmt, env: Env)
    requires s.ForLoop?
    ensures Analyze(s, env) == AnalyzeLoop(s, env)
  {
  }

  lemma AnalyzeIfCase(s: Stmt, env: Env)
    requires s.IfNoElse?
    ensures Analyze(s, env) == JoinMaps(AnalyzeBlock(s.body, FoldEnv(s.cond, env)), FoldEnv(s.cond, env))
  {
    AnalyzeIsIf(s, env);
    AnalyzeIfUnfold(s, env);
  }

  lemma AnalyzeIsIf(s: Stmt, env: Env)
    requires s.IfNoElse?
    ensures Analyze(s, env) == AnalyzeIf(s, env)
  {
  }

  lemma AnalyzeIfUnfold(s: Stmt, env: Env)
    requires s.IfNoElse?
    ensures AnalyzeIf(s, env) == JoinMaps(AnalyzeBlock(s.body, FoldEnv(s.cond, env)), FoldEnv(s.cond, env))
  {
  }

  lemma AnalyzeIfElseCase(s: Stmt, env: Env)
    requires s.IfWithElse?
    ensures Analyze(s, env) == JoinMaps(AnalyzeBlock(s.thenBody, env), AnalyzeBlock(s.elseBody, FoldEnv(s.cond, env)))
  {
    AnalyzeIsIfElse(s, env);
    AnalyzeIfElseUnfold(s, env);
  }

  lemma AnalyzeIsIfElse(s: Stmt, env: Env)
    requires s.IfWithElse?
    ensures Analyze(s, env) == AnalyzeIfElse(s, env)
  {
  }

  lemma AnalyzeIfElseUnfold(s: Stmt, env: Env)
    requires s.IfWithElse?
    ensures AnalyzeIfElse(s, env) == JoinMaps(AnalyzeBlock(s.thenBody, env), AnalyzeBlock(s.elseBody, FoldEnv(s.cond, env)))
  {
  }

  lemma AnalyzeSeqPair(s1: Stmt, s2: Stmt, env: Env)
    ensures AnalyzeSeq([s1, s2], env) == Analyze(s2, Analyze(s1, env))
  {
    var ss := [s1, s2];
    AnalyzeSeqSnoc(ss, 0, env);
    AnalyzeSeqSnoc(ss, 1, env);
    assert ss[..0] == [] && ss[..2] == ss;
  }

  /** One round of `visitForLoop`: body and increment on a clone, joined
      with the round's input, then the condition. */
  method VisitRound(s: Stmt, env: Env) returns (clone: Env)
    requires s.ForLoop?
    ensures clone == LoopPass(s, env)
    decreases s, 0
  {
    clone := VisitBlock(s.body, env);
    clone := VisitStmt(s.incr, clone);
    clone := JoinMaps(clone, env);
    clone := FoldEnv(s.cond, clone);
  }

  method VisitBlock(b: Block, env: Env) returns (out: Env)
    ensures out == AnalyzeBlock(b, env)
    decreases b, 1
  {
    out := VisitDecls(b.decls, env);
    out := VisitSeq(b.stmts, out);
  }

  method VisitSeq(ss: seq<Stmt>, env: Env) returns (out: Env)
    ensures out == AnalyzeSeq(ss, env)
    decreases ss, 0
  {
    out := env;
    var i := 0;
    while i < |ss|
      invariant 0 <= i <= |ss|
      invariant out == AnalyzeSeq(ss[..i], env)
    {
      AnalyzeSeqSnoc(ss, i, env);
      out := VisitStmt(ss[i], out);
      i := i + 1;
    }
    assert ss[..i] == ss;
  }

  /** The environment a function's body leaves: analysed from a blank map. */
  function BodyResult(f: Func): Env
  {
    AnalyzeFunctionBlock(f.body, map[])
  }

  /** `visitFunc`: the body is analysed on a new blank map; the caller's map is returned as it was. */
  method VisitFunc(f: Func, env: Env) returns (out: Env, bodyOut: Env)
    ensures out == env
    ensures bodyOut == BodyResult(f)
  {
    bodyOut := VisitDecls(f.body.decls, map[]);
    bodyOut := VisitSeq(f.body.stmts, bodyOut);
    bodyOut := FoldEnv(f.body.ret, bodyOut);
    out := env;
  }

  /** `visitProgram`: every function analysed in turn, each from a blank map. */
  method VisitProgram(p: Program, env: Env) returns (out: Env, bodies: seq<Env>)
    ensures out == env
    ensures |bodies| == |p.funcs|
    ensures forall i :: 0 <= i < |p.funcs| ==> bodies[i] == BodyResult(p.funcs[i])
  {
    out := env;
    bodies := [];
    var i := 0;
    while i < |p.funcs|
      invariant 0 <= i <= |p.funcs|
      invariant out == env && |bodies| == i
      invariant forall k :: 0 <= k < i ==> bodies[k] == BodyResult(p.funcs[k])
    {
      var caller, bodyOut := VisitFunc(p.funcs[i], out);
      out := caller;
      ghost var before := bodies;
      bodies := bodies + [bodyOut];
      forall k | 0 <= k <= i
        ensures bodies[k] == BodyResult(p.funcs[k])
      {
        if k < i {
          assert bodies[k] == before[k];
        }
      }
      i := i + 1;
    }
  }

  // ---------------------------------------------------------------------
  // Parameters on entry

  /** The map a function's analysis would start from if its parameters,
      like every other variable, started unknown: each parameter bound to
      TOP. `visitFunc` starts from the blank map instead, so a parameter is
      absent until its first read, which binds it to BOTTOM. */
  function EntryEnv(f: Func): (r: Env)
    ensures r.Keys == NamesOf(f.params)
    ensures forall x :: x in r ==> r[x] == Top
  {
    BindTop(map[], NamesOf(f.params))
  }

  /** The environment a function's body leaves when analysed from `EntryEnv`. */
  function BodyResultFromEntry(f: Func): (r: Env)
    ensures NamesOf(f.params) <= r.Keys
    ensures r.Keys <= NamesOf(f.params) + DeclNames(f.body.decls) + SeqNames(f.body.stmts) + ReadNames(f.body.ret)
  {
    AnalyzeFunctionBlock(f.body, EntryEnv(f))
  }

  /** `int f(int n) { int x; x = n; if (n > 0) { x = 1; } return x; }` */
  function ParamBranchFunc(): Func
  {
    Func("f", ["n"], FunctionBlock([Decl(["x"])],
      [Assignment("x", Ident("n")), IfNoElse(Binary(Gt, Ident("n"), IntLit(0)), NestedBlock([], [Assignment("x", IntLit(1))]))],
      Ident("x")))
  }

  /** `if (n > 0) { x = 1; }`, the second statement of `ParamBranchFunc`. */
  function ParamBranchIfStmt(): Stmt
  {
    IfNoElse(Binary(Gt, Ident("n"), IntLit(0)), NestedBlock([], [Assignment("x", IntLit(1))]))
  }

  /** `if (c) { x = v; }` joins `v` into whatever `x` was bound to. */
  lemma IfAssignsConst(c: Expr, x: string, v: int, env: Env)
    ensures Get(Analyze(IfNoElse(c, NestedBlock([], [Assignment(x, IntLit(v))])), env), x) == Join(Const(v), Get(env, x))
  {
    var one := [Assignment(x, IntLit(v))];
    var body := NestedBlock([], one);
    var afterCond := FoldEnv(c, env);
    ExtendsKeepsValues(env, afterCond, ReadNames(c));
    assert one[..0] == [] && one[..1] == one;
    assert Declare([], afterCond) == afterCond by {
      assert DeclNames([]) == {};
    }
    AnalyzeSeqSnoc(one, 0, afterCond);
    AssignmentRule(x, IntLit(v), afterCond);
    assert AnalyzeBlock(body, afterCond) == Analyze(one[0], afterCond);
    AnalyzeIfCase(IfNoElse(c, body), env);
  }

  /** The body of `ParamBranchFunc` leaves `x` at whatever `n` was bound to
      on entry, joined with 1. */
  lemma ParamBranchResult(env: Env)
    ensures Get(AnalyzeFunctionBlock(ParamBranchFunc().body, env), "x") == Join(Const(1), Get(env, "n"))
  {
    var fb := ParamBranchFunc().body;
    var declared := Declare(fb.decls, env);
    assert DeclNames(fb.decls) == NamesOf(["x"]) == {"x"};
    assert Get(declared, "n") == Get(env, "n");
    var s1 := Assignment("x", Ident("n"));
    assert fb.stmts == [s1, ParamBranchIfStmt()];
    AnalyzeSeqPair(s1, ParamBranchIfStmt(), declared);
    AssignmentRule("x", Ident("n"), declared);
    FoldIdent("n", declared);
    IfAssignsConst(Binary(Gt, Ident("n"), IntLit(0)), "x", 1, Analyze(s1, declared));
    var seqOut := AnalyzeSeq(fb.stmts, declared);
    ExtendsKeepsValues(seqOut, FoldEnv(fb.ret, seqOut), ReadNames(fb.ret));
  }

  /** `n + 1` read from the blank map: `n` is inserted at BOTTOM, and so is
      the sum, although the sum is 5 when `n` is 4. */
  lemma ParamPlusOne()
    ensures var e := Binary(Plus, Ident("n"), IntLit(1));
      && NoArrays(e)
      && Fold(e, map[]).elem == Bottom
      && Value(e, map["n" := 4]) == Some(5)
  {
    var e := Binary(Plus, Ident("n"), IntLit(1));
    FoldIdent("n", map[]);
    FoldIntLit(1, Fold(Ident("n"), map[]).env);
    assert Fold(e, map[]).elem == BinRule(Plus, Bottom, Const(1));
    var st := map["n" := 4];
    assert Value(Ident("n"), st) == Some(4);
    assert Value(IntLit(1), st) == Some(1);
  }

  /** As written, a parameter read is unsound. `n + 1` folds to BOTTOM, which
      admits no value, although it evaluates to 5 when `n` is 4; and in
      `ParamBranchFunc` the analysis ends with `x` at the constant 1,
      although `x` is 0 when `n` is 0. */
  lemma ParamReadAsWritten()
    ensures var e := Binary(Plus, Ident("n"), IntLit(1));
      && NoArrays(e)
      && Fold(e, map[]).elem == Bottom
      && Value(e, map["n" := 4]) == Some(5)
      && !Admits(Fold(e, map[]).elem, 5)
    ensures Get(BodyResult(ParamBranchFunc()), "x") == Const(1)
  {
    ParamPlusOne();
    ParamBranchResult(map[]);
    assert BodyResult(ParamBranchFunc()) == AnalyzeFunctionBlock(ParamBranchFunc().body, map[]);
  }

  /** From `EntryEnv`, every read of a parameter is sound: in every state
      giving each parameter a value, a tracked expression over the parameters
      has its value admitted by its element. */
  lemma EntryParamsSound(f: Func, e: Expr, state: map<string, int>)
    requires Tracked(e) && ReadNames(e) <= NamesOf(f.params)
    requires NamesOf(f.params) <= state.Keys
    ensures NoArrays(e)
    ensures Value(e, state).Some? ==> Admits(Fold(e, EntryEnv(f)).elem, Value(e, state).value)
  {
    FoldSound(e, EntryEnv(f), state);
  }

  /** From `EntryEnv`, `ParamBranchFunc` ends with `x` at TOP, which admits
      both of its run-time values. */
  lemma ParamBranchFromEntry()
    ensures Get(BodyResultFromEntry(ParamBranchFunc()), "x") == Top
  {
    var f := ParamBranchFunc();
    assert NamesOf(f.params) == NamesOf(["n"]) == {"n"};
    ParamBranchResult(EntryEnv(f));
  }

  // Array elements and array calls

  /** An array call `a[i] = f(args)` visits the index and the arguments and
      resets nothing: every name keeps its value, where a plain call sends
      every name to TOP (`CallRule`). */
  lemma ArrayCallKeepsValues(a: string, i: Expr, callee: string, args: seq<Expr>, env: Env)
    ensures var out := Analyze(ArrayCall(a, i, callee, args), env);
      && (forall x :: x in env ==> x in out && out[x] == env[x])
      && (forall x :: Get(out, x) == Get(env, x))
  {
    var afterIndex := FoldEnv(i, env);
    ExtendsKeepsValues(env, afterIndex, ReadNames(i));
    ExtendsKeepsValues(afterIndex, FoldArgs(args, afterIndex), ArgNames(args));
  }

  /** An array element read is BOTTOM, which admits no value at all, where
      array elements are meant to be TOP. */
  lemma ArrayReadAdmitsNothing(a: string, i: Expr, env: Env, v: int)
    ensures !Admits(Fold(ArrayAccess(a, i), env).elem, v)
  {
  }

  /** `x = a[0]; if (c) { x = 1; }` leaves `x` at the constant 1, whatever
      the condition and the map before, although `x` holds `a[0]` when `c`
      is false. */
  lemma ArrayReadBranch(a: string, c: Expr, env: Env)
    ensures var s1 := Assignment("x", ArrayAccess(a, IntLit(0)));
      var s2 := IfNoElse(c, NestedBlock([], [Assignment("x", IntLit(1))]));
      Get(AnalyzeSeq([s1, s2], env), "x") == Const(1)
  {
    var s1 := Assignment("x", ArrayAccess(a, IntLit(0)));
    var s2 := IfNoElse(c, NestedBlock([], [Assignment("x", IntLit(1))]));
    AnalyzeSeqPair(s1, s2, env);
    AssignmentRule("x", ArrayAccess(a, IntLit(0)), env);
    IfAssignsConst(c, "x", 1, Analyze(s1, env));
  }
}
