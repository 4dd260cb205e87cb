/**
 * Code generation for statements (`Stmt::Emit`, `Stmt::GetMemBytes`).
 *
 * Like expressions, statements are emitted from a laid-out tree: every
 * expression in it is an `ExprEmit.Expr`, and a printed argument carries the
 * runtime routine its type prints with (`Type::GetPrint`).
 *
 * Loops keep the exit labels of the loops being emitted on a `BreakStack`
 * (the source's `Program::gBreakLabels`): a loop pushes its exit label
 * before its body and pops it after, and `break` jumps to the top.
 * `StmtCode` says what a statement appends when the counters stand at
 * `t` and `l` and the break stack holds `breaks`; the emitting methods are
 * proved to append exactly that, to give the break stack back as they found
 * it, and to draw the frame bytes that `GetMemBytes` estimates once the
 * locals are placed (the estimate a function declares is taken before
 * that; see `FnEmit`).
 */
module StmtEmit {
  import opened Wrappers
  import opened CodeGen
  import opened AstType
  import opened AstDecl
  import opened ExprEmit
  import Layout

  /** An argument of `Print`, with the routine its type prints with. */
  datatype PrintArg = PrintArg(arg: Expr, fn: BuiltIn)

  datatype Stmt =
    | Block(decls: seq<VarDecl>, stmts: seq<Stmt>)
    | ExprStmt(e: Expr)
    | If(test: Expr, body: Stmt, elseBody: Option<Stmt>)
    | While(test: Expr, body: Stmt)
    | For(init: Expr, test: Expr, step: Expr, body: Stmt)
    | Break
    | Return(value: Option<Expr>)
    | Print(args: seq<PrintArg>)

  /** The routines `Type::GetPrint` can name: a checked program prints only ints, bools and strings. */
  predicate IsPrint(fn: BuiltIn)
  {
    fn == PrintInt || fn == PrintBool || fn == PrintString
  }

  /** An expression whose value is used: it is well formed and yields a location. */
  predicate Test(e: Expr)
  {
    Valued(e) && WellFormed(e)
  }

  predicate PrintableArgs(args: seq<PrintArg>)
  {
    forall i :: 0 <= i < |args| ==> Test(args[i].arg) && IsPrint(args[i].fn)
  }

  /**
   * What a checked program guarantees of a statement emitted under `depth`
   * exit labels: its expressions are well formed, its tests and printed
   * values yield locations, each block's locals are distinct declarations,
   * and every `break` has an exit label to jump to.
   */
  predicate Emittable(st: Stmt, depth: nat)
    decreases st
  {
    match st
    case Block(ds, ss) => Layout.DistinctVarSlots(ds) && forall i :: 0 <= i < |ss| ==> Emittable(ss[i], depth)
    case ExprStmt(e) => WellFormed(e)
    case If(c, b, eb) => Test(c) && Emittable(b, depth) && (eb.Some? ==> Emittable(eb.value, depth))
    case While(c, b) => Test(c) && Emittable(b, depth + 1)
    case For(i, c, s, b) => WellFormed(i) && Test(c) && WellFormed(s) && Emittable(b, depth + 1)
    case Break => depth > 0
    case Return(v) => v.Some? ==> WellFormed(v.value)
    case Print(args) => PrintableArgs(args)
  }

  // ----- the estimate -----

  /** `Stmt::GetMemBytes`: one word per local a block declares, plus the estimates of the parts. */
  function StmtBytes(st: Stmt): nat
    decreases st, 1, 0
  {
    match st
    case Block(ds, ss) => VarSize * |ds| + BlockBytes(st, |ss|)
    case ExprStmt(e) => ExprBytes(e)
    case If(c, b, eb) => ExprBytes(c) + StmtBytes(b) + (if eb.Some? then StmtBytes(eb.value) else 0)
    case While(c, b) => ExprBytes(c) + StmtBytes(b)
    case For(i, c, s, b) => ExprBytes(i) + ExprBytes(c) + StmtBytes(b) + ExprBytes(s)
    case Break => 0
    case Return(v) => if v.Some? then ExprBytes(v.value) else 0
    case Print(args) => PrintBytes(args, |args|)
  }

  /** The estimates of the first `n` statements of a block, summed. */
  function BlockBytes(st: Stmt, n: nat): nat
    requires st.Block? && n <= |st.stmts|
    decreases st, 0, n
  {
    if n == 0 then 0 else BlockBytes(st, n - 1) + StmtBytes(st.stmts[n - 1])
  }

  /** The estimates of the first `n` printed arguments, summed. */
  function PrintBytes(args: seq<PrintArg>, n: nat): nat
    requires n <= |args|
  {
    if n == 0 then 0 else PrintBytes(args, n - 1) + ExprBytes(args[n - 1].arg)
  }

  /** How many locals the blocks of a statement declare. */
  function Locals(st: Stmt): nat
    decreases st, 1, 0
  {
    match st
    case Block(ds, ss) => |ds| + BlockLocals(st, |ss|)
    case If(_, b, eb) => Locals(b) + (if eb.Some? then Locals(eb.value) else 0)
    case While(_, b) => Locals(b)
    case For(_, _, _, b) => Locals(b)
    case _ => 0
  }

  function BlockLocals(st: Stmt, n: nat): nat
    requires st.Block? && n <= |st.stmts|
    decreases st, 0, n
  {
    if n == 0 then 0 else BlockLocals(st, n - 1) + Locals(st.stmts[n - 1])
  }

  /** The annotation records of the locals the blocks of a statement declare. */
  function LocalSlots(st: Stmt): set<VarSlot>
    decreases st, 1, 0
  {
    match st
    case Block(ds, ss) => Layout.FormalSlots(ds) + BlockSlots(st, |ss|)
    case If(_, b, eb) => LocalSlots(b) + (if eb.Some? then LocalSlots(eb.value) else {})
    case While(_, b) => LocalSlots(b)
    case For(_, _, _, b) => LocalSlots(b)
    case _ => {}
  }

  function BlockSlots(st: Stmt, n: nat): set<VarSlot>
    requires st.Block? && n <= |st.stmts|
    decreases st, 0, n
  {
    if n == 0 then {} else BlockSlots(st, n - 1) + LocalSlots(st.stmts[n - 1])
  }

  // ----- the emitted code -----

  /** What emitting a statement appends; `breaks` is the break stack, its last label on top. */
  function StmtCode(st: Stmt, t: nat, l: nat, breaks: seq<Label>): (r: Emitted)
    requires Emittable(st, |breaks|)
    decreases st, 1, 0
  {
    match st
    case Block(_, ss) => BlockCode(st, |ss|, t, l, breaks)
    case ExprStmt(e) =>
      var E := ExprCode(e, t, l);
      Emitted(E.code, None, E.temps, E.labels)
    case If(_, _, _) => IfCode(st, t, l, breaks)
    case While(_, _) => WhileCode(st, t, l, breaks)
    case For(_, _, _, _) => ForCode(st, t, l, breaks)
    case Break => Emitted([Goto(breaks[|breaks| - 1])], None, 0, 0)
    case Return(v) =>
      if v.None? then Emitted([Instr.Return(None)], None, 0, 0)
      else
        var E := ExprCode(v.value, t, l);
        Emitted(E.code + [Instr.Return(E.result)], None, E.temps, E.labels)
    case Print(args) => PrintCode(args, |args|, t, l)
  }

  /** `StmtBlock::Emit` after its locals are placed: the first `n` statements in order. */
  function BlockCode(st: Stmt, n: nat, t: nat, l: nat, breaks: seq<Label>): (r: Emitted)
    requires st.Block? && n <= |st.stmts| && Emittable(st, |breaks|)
    decreases st, 0, n
  {
    if n == 0 then Emitted([], None, 0, 0)
    else
      var P := BlockCode(st, n - 1, t, l, breaks);
      var S := StmtCode(st.stmts[n - 1], t + P.temps, l + P.labels, breaks);
      Emitted(P.code + S.code, None, P.temps + S.temps, P.labels + S.labels)
  }

  /**
   * `IfStmt::Emit`: labels `els` and `bot` are drawn first; the test, a jump
   * to `els` when it is zero, then the tail of the statement.
   */
  function IfCode(st: Stmt, t: nat, l: nat, breaks: seq<Label>): (r: Emitted)
    requires st.If? && Emittable(st, |breaks|)
    decreases st, 0, 2
  {
    var T := ExprCode(st.test, t, l + 2);
    var K := IfTail(st, t + T.temps, l + 2 + T.labels, l, breaks);
    Emitted(T.code + [IfZ(T.result.value, Fresh(l))] + K.code, None, T.temps + K.temps, 2 + T.labels + K.labels)
  }

  /** The tail of an `if` at labels `els` and `els + 1` (`bot`): the body, a jump to `bot`, `els`, the else branch if any, and `bot`. */
  function IfTail(st: Stmt, t: nat, l: nat, els: nat, breaks: seq<Label>): (r: Emitted)
    requires st.If? && Emittable(st, |breaks|)
    decreases st, 0, 1
  {
    var B := StmtCode(st.body, t, l, breaks);
    var E := ElseCode(st, t + B.temps, l + B.labels, breaks);
    Emitted(B.code + [Goto(Fresh(els + 1))] + [MkLabel(Fresh(els))] + E.code + [MkLabel(Fresh(els + 1))], None, B.temps + E.temps, B.labels + E.labels)
  }

  /** The else branch of an `if`, or nothing. */
  function ElseCode(st: Stmt, t: nat, l: nat, breaks: seq<Label>): (r: Emitted)
    requires st.If? && Emittable(st, |breaks|)
    decreases st, 0, 0
  {
    if st.elseBody.Some? then StmtCode(st.elseBody.value, t, l, breaks) else Emitted([], None, 0, 0)
  }

  /**
   * `WhileStmt::Emit`: labels `top` and `bot` are drawn first and `bot` is
   * pushed for the body; `top`, the test, a jump to `bot` when it is zero,
   * then the tail of the loop.
   */
  function WhileCode(st: Stmt, t: nat, l: nat, breaks: seq<Label>): (r: Emitted)
    requires st.While? && Emittable(st, |breaks|)
    decreases st, 0, 1
  {
    var T := ExprCode(st.test, t, l + 2);
    var K := WhileTail(st, t + T.temps, l + 2 + T.labels, l, breaks);
    Emitted([MkLabel(Fresh(l))] + T.code + [IfZ(T.result.value, Fresh(l + 1))] + K.code, None, T.temps + K.temps, 2 + T.labels + K.labels)
  }

  /** The tail of a `while` loop whose labels start at `top`: the body under `bot`, a jump back to `top`, then `bot`. */
  function WhileTail(st: Stmt, t: nat, l: nat, top: nat, breaks: seq<Label>): (r: Emitted)
    requires st.While? && Emittable(st, |breaks|)
    decreases st, 0, 0
  {
    var B := StmtCode(st.body, t, l, breaks + [Fresh(top + 1)]);
    Emitted(B.code + [Goto(Fresh(top))] + [MkLabel(Fresh(top + 1))], None, B.temps, B.labels)
  }

  /**
   * `ForStmt::Emit`: labels `top` and `bot` are drawn first and `bot` is
   * pushed; then the head and the tail of the loop.
   */
  function ForCode(st: Stmt, t: nat, l: nat, breaks: seq<Label>): (r: Emitted)
    requires st.For? && Emittable(st, |breaks|)
    decreases st, 0, 1
  {
    var H := ForHead(st, t, l);
    var K := ForTail(st, t + H.temps, l + 2 + H.labels, l, breaks);
    Emitted(H.code + K.code, None, H.temps + K.temps, 2 + H.labels + K.labels)
  }

  /** The head of a `for` loop at labels `top` = `l` and `bot` = `l + 1`: the initialisation, `top`, the test, a jump to `bot` when it is zero. */
  function ForHead(st: Stmt, t: nat, l: nat): (r: Emitted)
    requires st.For? && WellFormed(st.init) && Test(st.test)
  {
    var I := ExprCode(st.init, t, l + 2);
    var T := ExprCode(st.test, t + I.temps, l + 2 + I.labels);
    Emitted(I.code + [MkLabel(Fresh(l))] + T.code + [IfZ(T.result.value, Fresh(l + 1))], None, I.temps + T.temps, I.labels + T.labels)
  }

  /** The tail of a `for` loop whose labels start at `top`: the body under `bot`, the step, a jump back to `top`, then `bot`. */
  function ForTail(st: Stmt, t: nat, l: nat, top: nat, breaks: seq<Label>): (r: Emitted)
    requires st.For? && Emittable(st, |breaks|)
    decreases st, 0, 0
  {
    var B := StmtCode(st.body, t, l, breaks + [Fresh(top + 1)]);
    var S := ExprCode(st.step, t + B.temps, l + B.labels);
    Emitted(B.code + S.code + [Goto(Fresh(top))] + [MkLabel(Fresh(top + 1))], None, B.temps + S.temps, B.labels + S.labels)
  }

  /** `PrintStmt::Emit` for the first `n` arguments: each value, then its print routine. */
  function PrintCode(args: seq<PrintArg>, n: nat, t: nat, l: nat): (r: Emitted)
    requires n <= |args| && PrintableArgs(args)
  {
    if n == 0 then Emitted([], None, 0, 0)
    else
      var P := PrintCode(args, n - 1, t, l);
      var A := ExprCode(args[n - 1].arg, t + P.temps, l + P.labels);
      Emitted(P.code + A.code + [BuiltInCall(None, args[n - 1].fn, [A.result.value])], None, P.temps + A.temps, P.labels + A.labels)
  }

  // ----- the estimate is exact -----

  /** The estimate for `st` is one word per temporary its code draws and one per local its blocks declare. */
  predicate StmtTempsMatch(st: Stmt, t: nat, l: nat, breaks: seq<Label>)
    requires Emittable(st, |breaks|)
  {
    StmtBytes(st) == VarSize * (StmtCode(st, t, l, breaks).temps + Locals(st))
  }

  /**
   * `GetMemBytes` is exact for statements: a statement's estimate is one
   * word per temporary its code draws plus one word per local its blocks
   * declare, wherever the counters stand and whatever the break stack holds.
   */
  lemma {:induction false} StmtBytesMatch(st: Stmt, t: nat, l: nat, breaks: seq<Label>)
    requires Emittable(st, |breaks|)
    ensures StmtTempsMatch(st, t, l, breaks)
    decreases st, 1, 0
  {
    match st
    case Block(_, ss) => BlockBytesMatch(st, |ss|, t, l, breaks);
    case ExprStmt(e) => BytesMatchTemps(e, t, l);
    case If(_, _, _) => IfBytesMatch(st, t, l, breaks);
    case While(_, _) => WhileBytesMatch(st, t, l, breaks);
    case For(_, _, _, _) => ForBytesMatch(st, t, l, breaks);
    case Break =>
    case Return(v) =>
      if v.Some? {
        BytesMatchTemps(v.value, t, l);
      }
    case Print(args) => PrintBytesMatch(args, |args|, t, l);
  }

  lemma {:induction false} IfBytesMatch(st: Stmt, t: nat, l: nat, breaks: seq<Label>)
    requires st.If? && Emittable(st, |breaks|)
    ensures StmtBytes(st) == VarSize * (IfCode(st, t, l, breaks).temps + Locals(st))
    decreases st, 0, 3
  {
    var c, b := st.test, st.body;
    var l1 := l + 2;
    var T := ExprCode(c, t, l1);
    var t2, l2 := t + T.temps, l1 + T.labels;
    var B := StmtCode(b, t2, l2, breaks);
    var t3, l3 := t2 + B.temps, l2 + B.labels;
    var E := ElseCode(st, t3, l3, breaks);
    assert IfTail(st, t2, l2, l, breaks).temps == B.temps + E.temps;
    BytesMatchTemps(c, t, l1);
    StmtBytesMatch(b, t2, l2, breaks);
    if st.elseBody.Some? {
      var eb := st.elseBody.value;
      StmtBytesMatch(eb, t3, l3, breaks);
    }
  }

  lemma {:induction false} WhileBytesMatch(st: Stmt, t: nat, l: nat, breaks: seq<Label>)
    requires st.While? && Emittable(st, |breaks|)
    ensures StmtBytes(st) == VarSize * (WhileCode(st, t, l, breaks).temps + Locals(st))
    decreases st, 0, 2
  {
    var c, b := st.test, st.body;
    var l1 := l + 2;
    var T := ExprCode(c, t, l1);
    var t2, l2, inner := t + T.temps, l1 + T.labels, breaks + [Fresh(l + 1)];
    BytesMatchTemps(c, t, l1);
    StmtBytesMatch(b, t2, l2, inner);
    assert WhileTail(st, t2, l2, l, breaks).temps == StmtCode(b, t2, l2, inner).temps;
  }

  lemma {:induction false} ForBytesMatch(st: Stmt, t: nat, l: nat, breaks: seq<Label>)
    requires st.For? && Emittable(st, |breaks|)
    ensures StmtBytes(st) == VarSize * (ForCode(st, t, l, breaks).temps + Locals(st))
    decreases st, 0, 2
  {
    var i, c, s, b := st.init, st.test, st.step, st.body;
    var l1 := l + 2;
    var I := ExprCode(i, t, l1);
    var t2, l2 := t + I.temps, l1 + I.labels;
    var H := ForHead(st, t, l);
    var t3, l3, inner := t + H.temps, l1 + H.labels, breaks + [Fresh(l + 1)];
    var B := StmtCode(b, t3, l3, inner);
    var t4, l4 := t3 + B.temps, l3 + B.labels;
    BytesMatchTemps(i, t, l1);
    BytesMatchTemps(c, t2, l2);
    StmtBytesMatch(b, t3, l3, inner);
    BytesMatchTemps(s, t4, l4);
  }

  lemma {:induction false} BlockBytesMatch(st: Stmt, n: nat, t: nat, l: nat, breaks: seq<Label>)
    requires st.Block? && n <= |st.stmts| && Emittable(st, |breaks|)
    ensures BlockBytes(st, n) == VarSize * (BlockCode(st, n, t, l, breaks).temps + BlockLocals(st, n))
    decreases st, 0, n
  {
    if n > 0 {
      var k := n - 1;
      var x := st.stmts[k];
      var P := BlockCode(st, k, t, l, breaks);
      var t2, l2 := t + P.temps, l + P.labels;
      BlockBytesMatch(st, k, t, l, breaks);
      StmtBytesMatch(x, t2, l2, breaks);
    }
  }

  lemma {:induction false} PrintBytesMatch(args: seq<PrintArg>, n: nat, t: nat, l: nat)
    requires n <= |args| && PrintableArgs(args)
    ensures PrintBytes(args, n) == VarSize * PrintCode(args, n, t, l).temps
  {
    if n > 0 {
      var k := n - 1;
      var a := args[k].arg;
      var P := PrintCode(args, k, t, l);
      var t2, l2 := t + P.temps, l + P.labels;
      PrintBytesMatch(args, k, t, l);
      BytesMatchTemps(a, t2, l2);
    }
  }

  /** The locals of every statement of a block are among the block's locals. */
  lemma {:induction false} SlotsWithin(st: Stmt, n: nat, i: nat)
    requires st.Block? && i < n <= |st.stmts|
    ensures LocalSlots(st.stmts[i]) <= BlockSlots(st, n)
    decreases n
  {
    if i < n - 1 {
      SlotsWithin(st, n - 1, i);
    }
  }

  // ----- emission -----

  /**
   * The first loop of `StmtBlock::Emit`: each local draws the next
   * `VarDecl::GetMemBytes` bytes of the frame, below the first local's
   * offset, and records that location.
   */
  method PlaceLocals(cg: CodeGenerator, decls: seq<VarDecl>)
    requires Layout.DistinctVarSlots(decls)
    modifies cg, Layout.FormalSlots(decls)
    ensures forall i :: 0 <= i < |decls| ==>
      decls[i].slot.memLoc == Some(Loc(FpRelative, OffsetToFirstLocal - (old(cg.frameBytes) + VarSize * i), decls[i].name))
    ensures cg.frameBytes == old(cg.frameBytes) + VarSize * |decls|
    ensures cg.code == old(cg.code) && cg.nextTemp == old(cg.nextTemp) && cg.nextLabel == old(cg.nextLabel)
  {
    var i := 0;
    while i < |decls|
      invariant 0 <= i <= |decls|
      invariant cg.frameBytes == old(cg.frameBytes) + VarSize * i
      invariant cg.code == old(cg.code) && cg.nextTemp == old(cg.nextTemp) && cg.nextLabel == old(cg.nextLabel)
      invariant forall j :: 0 <= j < i ==>
        decls[j].slot.memLoc == Some(Loc(FpRelative, OffsetToFirstLocal - (old(cg.frameBytes) + VarSize * j), decls[j].name))
    {
      var d := decls[i];
      var loc := cg.GenLocalVar(d.name, MemBytes(d.typ));
      d.slot.SetMemLoc(Some(loc));
      i := i + 1;
    }
  }

  /** Locals placed by one block take distinct words, all at or below the first local's offset. */
  lemma LocalOffsetsDistinct(base: nat, i: nat, j: nat)
    requires i < j
    ensures OffsetToFirstLocal - (base + VarSize * j) < OffsetToFirstLocal - (base + VarSize * i) <= OffsetToFirstLocal
  {
  }

  /**
   * `Expr::Emit` where the counters stand at `t` and `l` (the ghost
   * parameters name them, so that callers can state where each piece of a
   * statement's code starts).
   */
  method EmitExprAt(cg: CodeGenerator, e: Expr, ghost t: nat, ghost l: nat) returns (loc: Option<Location>)
    requires WellFormed(e) && cg.nextTemp == t && cg.nextLabel == l
    modifies cg
    ensures loc == ExprCode(e, t, l).result
    ensures cg.code == old(cg.code) + ExprCode(e, t, l).code
    ensures cg.nextTemp == t + ExprCode(e, t, l).temps
    ensures cg.nextLabel == l + ExprCode(e, t, l).labels
    ensures cg.frameBytes == old(cg.frameBytes) + VarSize * (cg.nextTemp - t)
  {
    loc := EmitExpr(cg, e);
  }

  /**
   * `Stmt::Emit`: appends the statement's code, gives the break stack back
   * as it found it, and draws one frame word per temporary and per local.
   * The ghost parameters name the counters and the break stack as the call
   * finds them.
   */
  method EmitStmt(cg: CodeGenerator, bs: BreakStack, st: Stmt, ghost t: nat, ghost l: nat, ghost breaks: seq<Label>)
    requires cg.nextTemp == t && cg.nextLabel == l && bs.labels == breaks && Emittable(st, |breaks|)
    modifies cg, bs, LocalSlots(st)
    ensures bs.labels == breaks
    ensures cg.code == old(cg.code) + StmtCode(st, t, l, breaks).code
    ensures cg.nextTemp == t + StmtCode(st, t, l, breaks).temps
    ensures cg.nextLabel == l + StmtCode(st, t, l, breaks).labels
    ensures cg.frameBytes == old(cg.frameBytes) + VarSize * (cg.nextTemp - t + Locals(st))
    decreases st, 3
  {
    match st
    case Block(_, _) => EmitBlock(cg, bs, st, t, l, breaks);
    case ExprStmt(e) =>
      var loc := EmitExprAt(cg, e, t, l);
    case If(_, _, _) => EmitIf(cg, bs, st, t, l, breaks);
    case While(_, _) => EmitWhile(cg, bs, st, t, l, breaks);
    case For(_, _, _, _) => EmitFor(cg, bs, st, t, l, breaks);
    case Break =>
      cg.Append(Goto(bs.Top()));
    case Return(v) =>
      if v.None? {
        cg.Append(Instr.Return(None));
      } else {
        var loc := EmitExprAt(cg, v.value, t, l);
        cg.Append(Instr.Return(loc));
      }
    case Print(args) => EmitPrint(cg, args, t, l);
  }

  /** `StmtBlock::Emit`: the locals are placed, then the statements are emitted in order. */
  method EmitBlock(cg: CodeGenerator, bs: BreakStack, st: Stmt, ghost t: nat, ghost l: nat, ghost breaks: seq<Label>)
    requires st.Block? && cg.nextTemp == t && cg.nextLabel == l && bs.labels == breaks && Emittable(st, |breaks|)
    modifies cg, bs, LocalSlots(st)
    ensures bs.labels == breaks
    ensures cg.code == old(cg.code) + StmtCode(st, t, l, breaks).code
    ensures cg.nextTemp == t + StmtCode(st, t, l, breaks).temps
    ensures cg.nextLabel == l + StmtCode(st, t, l, breaks).labels
    ensures cg.frameBytes == old(cg.frameBytes) + VarSize * (cg.nextTemp - t + Locals(st))
    decreases st, 2
  {
    PlaceLocals(cg, st.decls);
    var i := 0;
    while i < |st.stmts|
      invariant 0 <= i <= |st.stmts|
      invariant bs.labels == breaks
      invariant cg.code == old(cg.code) + BlockCode(st, i, t, l, breaks).code
      invariant cg.nextTemp == t + BlockCode(st, i, t, l, breaks).temps
      invariant cg.nextLabel == l + BlockCode(st, i, t, l, breaks).labels
      invariant cg.frameBytes == old(cg.frameBytes) + VarSize * (|st.decls| + cg.nextTemp - t + BlockLocals(st, i))
    {
      ghost var P := BlockCode(st, i, t, l, breaks);
      ghost var t1, l1 := t + P.temps, l + P.labels;
      var s := st.stmts[i];
      SlotsWithin(st, |st.stmts|, i);
      EmitStmt(cg, bs, s, t1, l1, breaks);
      i := i + 1;
    }
  }

  /** `IfStmt::Emit`. */
  method EmitIf(cg: CodeGenerator, bs: BreakStack, st: Stmt, ghost t: nat, ghost l: nat, ghost breaks: seq<Label>)
    requires st.If? && cg.nextTemp == t && cg.nextLabel == l && bs.labels == breaks && Emittable(st, |breaks|)
    modifies cg, bs, LocalSlots(st)
    ensures bs.labels == breaks
    ensures cg.code == old(cg.code) + StmtCode(st, t, l, breaks).code
    ensures cg.nextTemp == t + StmtCode(st, t, l, breaks).temps
    ensures cg.nextLabel == l + StmtCode(st, t, l, breaks).labels
    ensures cg.frameBytes == old(cg.frameBytes) + VarSize * (cg.nextTemp - t + Locals(st))
    decreases st, 2
  {
    ghost var c0 := cg.code;
    ghost var T := ExprCode(st.test, t, l + 2);
    ghost var K := IfTail(st, t + T.temps, l + 2 + T.labels, l, breaks);
    var els := cg.NewLabel();
    var bot := cg.NewLabel();
    var test := EmitExprAt(cg, st.test, t, l + 2);
    cg.Append(IfZ(test.value, els));
    Regroup(c0, T.code, [IfZ(T.result.value, Fresh(l))]);
    EmitIfTail(cg, bs, st, els, bot, t + T.temps, l + 2 + T.labels, l, breaks);
    Regroup(c0, T.code + [IfZ(T.result.value, Fresh(l))], K.code);
  }

  /** The tail of `IfStmt::Emit`. */
  method EmitIfTail(cg: CodeGenerator, bs: BreakStack, st: Stmt, els: Label, bot: Label,
                    ghost t: nat, ghost l: nat, ghost elsId: nat, ghost breaks: seq<Label>)
    requires els == Fresh(elsId) && bot == Fresh(elsId + 1)
    requires st.If? && cg.nextTemp == t && cg.nextLabel == l && bs.labels == breaks && Emittable(st, |breaks|)
    modifies cg, bs, LocalSlots(st)
    ensures bs.labels == breaks
    ensures cg.code == old(cg.code) + IfTail(st, t, l, elsId, breaks).code
    ensures cg.nextTemp == t + IfTail(st, t, l, elsId, breaks).temps
    ensures cg.nextLabel == l + IfTail(st, t, l, elsId, breaks).labels
    ensures cg.frameBytes == old(cg.frameBytes) + VarSize * (cg.nextTemp - t + Locals(st))
    decreases st, 1
  {
    ghost var c0 := cg.code;
    ghost var B := StmtCode(st.body, t, l, breaks);
    ghost var E := ElseCode(st, t + B.temps, l + B.labels, breaks);
    EmitStmt(cg, bs, st.body, t, l, breaks);
    cg.Append(Goto(bot));
    Regroup(c0, B.code, [Goto(Fresh(elsId + 1))]);
    cg.Append(MkLabel(els));
    Regroup(c0, B.code + [Goto(Fresh(elsId + 1))], [MkLabel(Fresh(elsId))]);
    EmitElse(cg, bs, st, t + B.temps, l + B.labels, breaks);
    Regroup(c0, B.code + [Goto(Fresh(elsId + 1))] + [MkLabel(Fresh(elsId))], E.code);
    cg.Append(MkLabel(bot));
    Regroup(c0, B.code + [Goto(Fresh(elsId + 1))] + [MkLabel(Fresh(elsId))] + E.code, [MkLabel(Fresh(elsId + 1))]);
  }

  /** The else branch of `IfStmt::Emit`, if there is one. */
  method EmitElse(cg: CodeGenerator, bs: BreakStack, st: Stmt, ghost t: nat, ghost l: nat, ghost breaks: seq<Label>)
    requires st.If? && cg.nextTemp == t && cg.nextLabel == l && bs.labels == breaks && Emittable(st, |breaks|)
    modifies cg, bs, LocalSlots(st)
    ensures bs.labels == breaks
    ensures cg.code == old(cg.code) + ElseCode(st, t, l, breaks).code
    ensures cg.nextTemp == t + ElseCode(st, t, l, breaks).temps
    ensures cg.nextLabel == l + ElseCode(st, t, l, breaks).labels
    ensures cg.frameBytes == old(cg.frameBytes) + VarSize * (cg.nextTemp - t + if st.elseBody.Some? then Locals(st.elseBody.value) else 0)
    decreases st, 0
  {
    if st.elseBody.Some? {
      EmitStmt(cg, bs, st.elseBody.value, t, l, breaks);
    }
  }

  /** `WhileStmt::Emit`: the exit label is on top of the break stack while the body is emitted. */
  method EmitWhile(cg: CodeGenerator, bs: BreakStack, st: Stmt, ghost t: nat, ghost l: nat, ghost breaks: seq<Label>)
    requires st.While? && cg.nextTemp == t && cg.nextLabel == l && bs.labels == breaks && Emittable(st, |breaks|)
    modifies cg, bs, LocalSlots(st)
    ensures bs.labels == breaks
    ensures cg.code == old(cg.code) + StmtCode(st, t, l, breaks).code
    ensures cg.nextTemp == t + StmtCode(st, t, l, breaks).temps
    ensures cg.nextLabel == l + StmtCode(st, t, l, breaks).labels
    ensures cg.frameBytes == old(cg.frameBytes) + VarSize * (cg.nextTemp - t + Locals(st))
    decreases st, 2
  {
    ghost var c0 := cg.code;
    ghost var T := ExprCode(st.test, t, l + 2);
    ghost var K := WhileTail(st, t + T.temps, l + 2 + T.labels, l, breaks);
    var top := cg.NewLabel();
    var bot := cg.NewLabel();
    bs.Push(bot);
    cg.Append(MkLabel(top));
    var test := EmitExprAt(cg, st.test, t, l + 2);
    Regroup(c0, [MkLabel(Fresh(l))], T.code);
    cg.Append(IfZ(test.value, bot));
    Regroup(c0, [MkLabel(Fresh(l))] + T.code, [IfZ(T.result.value, Fresh(l + 1))]);
    EmitWhileTail(cg, bs, st, top, bot, t + T.temps, l + 2 + T.labels, l, breaks);
    Regroup(c0, [MkLabel(Fresh(l))] + T.code + [IfZ(T.result.value, Fresh(l + 1))], K.code);
    bs.Pop();
    assert bs.labels == (breaks + [Fresh(l + 1)])[..|breaks|];
  }

  /** The tail of `WhileStmt::Emit`, with `bot` on top of the break stack. */
  method EmitWhileTail(cg: CodeGenerator, bs: BreakStack, st: Stmt, top: Label, bot: Label,
                       ghost t: nat, ghost l: nat, ghost topId: nat, ghost breaks: seq<Label>)
    requires top == Fresh(topId) && bot == Fresh(topId + 1)
    requires st.While? && Emittable(st, |breaks|) && cg.nextTemp == t && cg.nextLabel == l
    requires bs.labels == breaks + [Fresh(topId + 1)]
    modifies cg, bs, LocalSlots(st)
    ensures cg.code == old(cg.code) + WhileTail(st, t, l, topId, breaks).code
    ensures cg.nextTemp == t + WhileTail(st, t, l, topId, breaks).temps
    ensures cg.nextLabel == l + WhileTail(st, t, l, topId, breaks).labels
    ensures cg.frameBytes == old(cg.frameBytes) + VarSize * (cg.nextTemp - t + Locals(st.body))
    ensures bs.labels == breaks + [Fresh(topId + 1)]
    decreases st, 1
  {
    ghost var c0 := cg.code;
    ghost var B := StmtCode(st.body, t, l, breaks + [Fresh(topId + 1)]);
    EmitStmt(cg, bs, st.body, t, l, breaks + [Fresh(topId + 1)]);
    cg.Append(Goto(top));
    Regroup(c0, B.code, [Goto(Fresh(topId))]);
    cg.Append(MkLabel(bot));
    Regroup(c0, B.code + [Goto(Fresh(topId))], [MkLabel(Fresh(topId + 1))]);
  }

  /** `ForStmt::Emit`: as `EmitWhile`, with the initialisation first and the step after the body. */
  method EmitFor(cg: CodeGenerator, bs: BreakStack, st: Stmt, ghost t: nat, ghost l: nat, ghost breaks: seq<Label>)
    requires st.For? && cg.nextTemp == t && cg.nextLabel == l && bs.labels == breaks && Emittable(st, |breaks|)
    modifies cg, bs, LocalSlots(st)
    ensures bs.labels == breaks
    ensures cg.code == old(cg.code) + StmtCode(st, t, l, breaks).code
    ensures cg.nextTemp == t + StmtCode(st, t, l, breaks).temps
    ensures cg.nextLabel == l + StmtCode(st, t, l, breaks).labels
    ensures cg.frameBytes == old(cg.frameBytes) + VarSize * (cg.nextTemp - t + Locals(st))
    decreases st, 2
  {
    ghost var H := ForHead(st, t, l);
    var top := cg.NewLabel();
    var bot := cg.NewLabel();
    bs.Push(bot);
    EmitForHead(cg, st, top, bot, t, l);
    EmitForTail(cg, bs, st, top, bot, t + H.temps, l + 2 + H.labels, l, breaks);
    bs.Pop();
    assert bs.labels == (breaks + [Fresh(l + 1)])[..|breaks|];
  }

  /** The head of `ForStmt::Emit`. */
  method EmitForHead(cg: CodeGenerator, st: Stmt, top: Label, bot: Label, ghost t: nat, ghost l: nat)
    requires top == Fresh(l) && bot == Fresh(l + 1)
    requires st.For? && WellFormed(st.init) && Test(st.test) && cg.nextTemp == t && cg.nextLabel == l + 2
    modifies cg
    ensures cg.code == old(cg.code) + ForHead(st, t, l).code
    ensures cg.nextTemp == t + ForHead(st, t, l).temps
    ensures cg.nextLabel == l + 2 + ForHead(st, t, l).labels
    ensures cg.frameBytes == old(cg.frameBytes) + VarSize * (cg.nextTemp - t)
  {
    ghost var c0 := cg.code;
    ghost var l1 := l + 2;
    ghost var I := ExprCode(st.init, t, l1);
    ghost var t2, l2 := t + I.temps, l1 + I.labels;
    ghost var T := ExprCode(st.test, t2, l2);
    ForHeadParts(st, t, l, I, T);
    var init := EmitExprAt(cg, st.init, t, l1);
    cg.Append(MkLabel(top));
    Regroup(c0, I.code, [MkLabel(top)]);
    EmitTestJump(cg, st.test, bot, t2, l2);
    Regroup(c0, I.code + [MkLabel(top)], T.code);
    Regroup(c0, I.code + [MkLabel(top)] + T.code, [IfZ(T.result.value, bot)]);
  }

  /** `ForHead` is the initialiser's code, the top label, the test's code and the exit jump. */
  lemma ForHeadParts(st: Stmt, t: nat, l: nat, I: Emitted, T: Emitted)
    requires st.For? && WellFormed(st.init) && Test(st.test)
    requires I == ExprCode(st.init, t, l + 2) && T == ExprCode(st.test, t + I.temps, l + 2 + I.labels)
    ensures ForHead(st, t, l).code == I.code + [MkLabel(Fresh(l))] + T.code + [IfZ(T.result.value, Fresh(l + 1))]
    ensures ForHead(st, t, l).temps == I.temps + T.temps && ForHead(st, t, l).labels == I.labels + T.labels
  {
  }

  /** A loop or branch test: the test's value, then a jump to `target` when it is zero. */
  method EmitTestJump(cg: CodeGenerator, test: Expr, target: Label, ghost t: nat, ghost l: nat)
    requires Test(test) && cg.nextTemp == t && cg.nextLabel == l
    modifies cg
    ensures cg.code == old(cg.code) + ExprCode(test, t, l).code + [IfZ(ExprCode(test, t, l).result.value, target)]
    ensures cg.nextTemp == t + ExprCode(test, t, l).temps
    ensures cg.nextLabel == l + ExprCode(test, t, l).labels
    ensures cg.frameBytes == old(cg.frameBytes) + VarSize * (cg.nextTemp - t)
  {
    var value := EmitExprAt(cg, test, t, l);
    cg.Append(IfZ(value.value, target));
  }

  /** The tail of `ForStmt::Emit`, with `bot` on top of the break stack. */
  method EmitForTail(cg: CodeGenerator, bs: BreakStack, st: Stmt, top: Label, bot: Label,
                     ghost t: nat, ghost l: nat, ghost topId: nat, ghost breaks: seq<Label>)
    requires top == Fresh(topId) && bot == Fresh(topId + 1)
    requires st.For? && Emittable(st, |breaks|) && cg.nextTemp == t && cg.nextLabel == l
    requires bs.labels == breaks + [Fresh(topId + 1)]
    modifies cg, bs, LocalSlots(st)
    ensures cg.code == old(cg.code) + ForTail(st, t, l, topId, breaks).code
    ensures cg.nextTemp == t + ForTail(st, t, l, topId, breaks).temps
    ensures cg.nextLabel == l + ForTail(st, t, l, topId, breaks).labels
    ensures cg.frameBytes == old(cg.frameBytes) + VarSize * (cg.nextTemp - t + Locals(st.body))
    ensures bs.labels == breaks + [Fresh(topId + 1)]
    decreases st, 1
  {
    ghost var c0 := cg.code;
    ghost var B := StmtCode(st.body, t, l, breaks + [Fresh(topId + 1)]);
    ghost var S := ExprCode(st.step, t + B.temps, l + B.labels);
    EmitStmt(cg, bs, st.body, t, l, breaks + [Fresh(topId + 1)]);
    var step := EmitExprAt(cg, st.step, t + B.temps, l + B.labels);
    Regroup(c0, B.code, S.code);
    cg.Append(Goto(top));
    Regroup(c0, B.code + S.code, [Goto(Fresh(topId))]);
    cg.Append(MkLabel(bot));
    Regroup(c0, B.code + S.code + [Goto(Fresh(topId))], [MkLabel(Fresh(topId + 1))]);
  }

  /** `PrintStmt::Emit`: each argument's value, then a call to its print routine. */
  method EmitPrint(cg: CodeGenerator, args: seq<PrintArg>, ghost t: nat, ghost l: nat)
    requires PrintableArgs(args) && cg.nextTemp == t && cg.nextLabel == l
    modifies cg
    ensures cg.code == old(cg.code) + PrintCode(args, |args|, t, l).code
    ensures cg.nextTemp == t + PrintCode(args, |args|, t, l).temps
    ensures cg.nextLabel == l + PrintCode(args, |args|, t, l).labels
    ensures cg.frameBytes == old(cg.frameBytes) + VarSize * (cg.nextTemp - t)
  {
    var i := 0;
    while i < |args|
      invariant 0 <= i <= |args|
      invariant cg.code == old(cg.code) + PrintCode(args, i, t, l).code
      invariant cg.nextTemp == t + PrintCode(args, i, t, l).temps
      invariant cg.nextLabel == l + PrintCode(args, i, t, l).labels
      invariant cg.frameBytes == old(cg.frameBytes) + VarSize * (cg.nextTemp - t)
    {
      EmitPrintArg(cg, args, i, old(cg.code), t, l);
      i := i + 1;
    }
  }

  /** One round of `PrintStmt::Emit`'s loop: argument `i`'s value, then its print routine. */
  method EmitPrintArg(cg: CodeGenerator, args: seq<PrintArg>, i: nat, ghost c: seq<Instr>, ghost t: nat, ghost l: nat)
    requires PrintableArgs(args) && i < |args|
    requires cg.code == c + PrintCode(args, i, t, l).code
    requires cg.nextTemp == t + PrintCode(args, i, t, l).temps && cg.nextLabel == l + PrintCode(args, i, t, l).labels
    modifies cg
    ensures cg.code == c + PrintCode(args, i + 1, t, l).code
    ensures cg.nextTemp == t + PrintCode(args, i + 1, t, l).temps
    ensures cg.nextLabel == l + PrintCode(args, i + 1, t, l).labels
    ensures cg.frameBytes == old(cg.frameBytes) + VarSize * (cg.nextTemp - old(cg.nextTemp))
  {
    ghost var P := PrintCode(args, i, t, l);
    ghost var A := ExprCode(args[i].arg, t + P.temps, l + P.labels);
    ghost var call := BuiltInCall(None, args[i].fn, [A.result.value]);
    assert PrintCode(args, i + 1, t, l) == Emitted(P.code + A.code + [call], None, P.temps + A.temps, P.labels + A.labels);
    var loc := EmitExprAt(cg, args[i].arg, t + P.temps, l + P.labels);
    var none := cg.GenBuiltInCall(args[i].fn, [loc.value]);
    Regroup(c, P.code, A.code);
    Regroup(c, P.code + A.code, [call]);
  }
}
