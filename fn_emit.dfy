/**
 * Emitting a function (`FnDecl::Emit`) and the frame size it declares.
 *
 * The frame size is estimated before the body is emitted, and so before
 * `StmtBlock::Emit` has given the body's locals their locations. A read of
 * a local that has no location yet is estimated like a read of an instance
 * variable, at one word, though once the local is placed the read draws no
 * frame at all. `Unplaced` is the body as the estimate sees it, and the
 * lemmas here relate its estimate to the frame emission draws: it covers
 * that frame, with one word to spare per read of a local.
 */
module FnEmit {
  import opened Wrappers
  import opened CodeGen
  import opened AstDecl
  import opened ExprEmit
  import opened StmtEmit
  import Layout

  /** A frame word below the frame pointer: where `StmtBlock::Emit` places a block's locals. */
  predicate IsLocalLoc(loc: Location)
  {
    loc.Loc? && loc.segment == FpRelative && loc.offset < 0
  }

  // ----- the body before its locals are placed -----

  /**
   * The expression as the estimate in `FnDecl::Emit` sees it: a variable
   * placed below the frame pointer is a block's local, which has no location
   * yet, so `FieldAccess::GetMemBytesMemLoc` treats it as a variable of
   * `this`. Formals and globals are placed by then; every other node is
   * unchanged.
   */
  function Unplaced(e: Expr): Expr
    decreases e
  {
    match e
    case Arithmetic(op, a, b) => Arithmetic(op, Unplaced(a), Unplaced(b))
    case UnaryArithmetic(op, a) => UnaryArithmetic(op, Unplaced(a))
    case Relational(rel, a, b) => Relational(rel, Unplaced(a), Unplaced(b))
    case Equality(negated, onStrings, a, b) => Equality(negated, onStrings, Unplaced(a), Unplaced(b))
    case Logical(logic, a, b) => Logical(logic, Unplaced(a), Unplaced(b))
    case LogicalNot(a) => LogicalNot(Unplaced(a))
    case AssignExpr(a, b) => AssignExpr(Unplaced(a), Unplaced(b))
    case ArrayAccess(a, s) => ArrayAccess(Unplaced(a), Unplaced(s))
    case FieldAccess(ref) => if ref.Placed? && IsLocalLoc(ref.loc) then FieldAccess(OfReceiver(0)) else e
    case Call(c, actuals, hasReturn) =>
      var c' := if c.Method? && c.receiver.Some? then Method(Some(Unplaced(c.receiver.value)), c.vtblOffset) else c;
      Call(c', seq(|actuals|, i requires 0 <= i < |actuals| => Unplaced(actuals[i])), hasReturn)
    case ArrayLength(a) => ArrayLength(Unplaced(a))
    case NewArrayExpr(s) => NewArrayExpr(Unplaced(s))
    case _ => e
  }

  /** How many reads of a block's local the estimate of `e` counts (a local stored into is not read). */
  function LocalReads(e: Expr): nat
    decreases e, 1, 0
  {
    match e
    case Arithmetic(_, a, b) => LocalReads(a) + LocalReads(b)
    case UnaryArithmetic(_, a) => LocalReads(a)
    case Relational(_, a, b) => LocalReads(a) + LocalReads(b)
    case Equality(_, _, a, b) => LocalReads(a) + LocalReads(b)
    case Logical(_, a, b) => LocalReads(a) + LocalReads(b)
    case LogicalNot(a) => LocalReads(a)
    case AssignExpr(a, b) => LocalReads(b) + TargetReads(a)
    case ArrayAccess(a, s) => LocalReads(a) + LocalReads(s)
    case FieldAccess(ref) => if ref.Placed? && IsLocalLoc(ref.loc) then 1 else 0
    case Call(c, actuals, _) =>
      ActualsReads(e, |actuals|) + (if c.Method? && c.receiver.Some? then LocalReads(c.receiver.value) else 0)
    case ArrayLength(a) => LocalReads(a)
    case NewArrayExpr(s) => LocalReads(s)
    case _ => 0
  }

  /** The reads an assignment's left side contributes: an element's base and subscript, or a whole expression. */
  function TargetReads(a: Expr): nat
    decreases a, 3, 0
  {
    if a.ArrayAccess? then LocalReads(a.base) + LocalReads(a.subscript)
    else if a.FieldAccess? || a.FieldOfField? then 0
    else LocalReads(a)
  }

  function ActualsReads(e: Expr, n: nat): nat
    requires e.Call? && n <= |e.actuals|
    decreases e, 0, n
  {
    if n == 0 then 0 else ActualsReads(e, n - 1) + LocalReads(e.actuals[n - 1])
  }

  /** Before placement, every read of a local costs one word more in the estimate; nothing else changes. */
  lemma {:induction false} UnplacedBytes(e: Expr)
    ensures ExprBytes(Unplaced(e)) == ExprBytes(e) + VarSize * LocalReads(e)
    decreases e, 1, 0
  {
    match e
    case Arithmetic(_, _, _) => UnplacedBinaryBytes(e);
    case UnaryArithmetic(_, a) => UnplacedBytes(a);
    case Relational(_, _, _) => UnplacedBinaryBytes(e);
    case Equality(_, _, _, _) => UnplacedBinaryBytes(e);
    case Logical(_, _, _) => UnplacedBinaryBytes(e);
    case LogicalNot(a) => UnplacedBytes(a);
    case AssignExpr(_, _) => UnplacedStoreBytes(e);
    case ArrayAccess(_, _) => UnplacedStoreBytes(e);
    case FieldAccess(_) =>
    case Call(_, _, _) => UnplacedCallBytes(e);
    case ArrayLength(a) => UnplacedBytes(a);
    case NewArrayExpr(s) => UnplacedBytes(s);
    case _ =>
  }

  lemma {:induction false} UnplacedBinaryBytes(e: Expr)
    requires e.Arithmetic? || e.Relational? || e.Equality? || e.Logical?
    ensures ExprBytes(Unplaced(e)) == ExprBytes(e) + VarSize * LocalReads(e)
    decreases e, 0, 0
  {
    UnplacedBytes(e.left);
    UnplacedBytes(e.right);
  }

  lemma {:induction false} UnplacedStoreBytes(e: Expr)
    requires e.AssignExpr? || e.ArrayAccess?
    ensures ExprBytes(Unplaced(e)) == ExprBytes(e) + VarSize * LocalReads(e)
    decreases e, 0, 0
  {
    if e.AssignExpr? {
      UnplacedBytes(e.right);
      UnplacedTargetBytes(e.left);
    } else {
      UnplacedBytes(e.base);
      UnplacedBytes(e.subscript);
    }
  }

  lemma {:induction false} UnplacedCallBytes(e: Expr)
    requires e.Call?
    ensures ExprBytes(Unplaced(e)) == ExprBytes(e) + VarSize * LocalReads(e)
    decreases e, 0, |e.actuals| + 1
  {
    var c := e.callee;
    UnplacedActualsBytes(e, |e.actuals|);
    if c.Method? && c.receiver.Some? {
      UnplacedBytes(c.receiver.value);
    }
  }

  lemma {:induction false} UnplacedTargetBytes(a: Expr)
    ensures TargetBytes(Unplaced(a)) == TargetBytes(a) + VarSize * TargetReads(a)
    decreases a, 3, 0
  {
    if a.ArrayAccess? {
      assert Unplaced(a) == ArrayAccess(Unplaced(a.base), Unplaced(a.subscript));
      UnplacedBytes(a.base);
      UnplacedBytes(a.subscript);
    } else if a.FieldAccess? || a.FieldOfField? {
      assert Unplaced(a).FieldAccess? || Unplaced(a).FieldOfField?;
    } else {
      assert !IsLValue(Unplaced(a));
      UnplacedBytes(a);
    }
  }

  lemma {:induction false} UnplacedActualsBytes(e: Expr, n: nat)
    requires e.Call? && n <= |e.actuals|
    ensures Unplaced(e).Call? && |Unplaced(e).actuals| == |e.actuals|
    ensures ActualsBytes(Unplaced(e), n) == ActualsBytes(e, n) + VarSize * ActualsReads(e, n)
    decreases e, 0, n
  {
    if n > 0 {
      UnplacedActualsBytes(e, n - 1);
      UnplacedBytes(e.actuals[n - 1]);
    }
  }

  /** The statement as the estimate in `FnDecl::Emit` sees it: every expression in it `Unplaced`. */
  function UnplacedStmt(st: Stmt): Stmt
    decreases st
  {
    match st
    case Block(ds, ss) => Block(ds, seq(|ss|, i requires 0 <= i < |ss| => UnplacedStmt(ss[i])))
    case ExprStmt(e) => ExprStmt(Unplaced(e))
    case If(c, b, eb) => If(Unplaced(c), UnplacedStmt(b), if eb.Some? then Some(UnplacedStmt(eb.value)) else None)
    case While(c, b) => While(Unplaced(c), UnplacedStmt(b))
    case For(i, c, s, b) => For(Unplaced(i), Unplaced(c), Unplaced(s), UnplacedStmt(b))
    case Break => Break
    case Return(v) => Stmt.Return(if v.Some? then Some(Unplaced(v.value)) else None)
    case Print(args) => Print(UnplacedArgs(args))
  }

  function UnplacedArgs(args: seq<PrintArg>): (r: seq<PrintArg>)
    ensures |r| == |args| && forall i :: 0 <= i < |args| ==> r[i] == PrintArg(Unplaced(args[i].arg), args[i].fn)
  {
    seq(|args|, i requires 0 <= i < |args| => PrintArg(Unplaced(args[i].arg), args[i].fn))
  }

  /** How many reads of a block's local the estimate of a statement counts. */
  function StmtLocalReads(st: Stmt): nat
    decreases st, 1, 0
  {
    match st
    case Block(_, ss) => BlockLocalReads(st, |ss|)
    case ExprStmt(e) => LocalReads(e)
    case If(c, b, eb) => LocalReads(c) + StmtLocalReads(b) + (if eb.Some? then StmtLocalReads(eb.value) else 0)
    case While(c, b) => LocalReads(c) + StmtLocalReads(b)
    case For(i, c, s, b) => LocalReads(i) + LocalReads(c) + StmtLocalReads(b) + LocalReads(s)
    case Break => 0
    case Return(v) => if v.Some? then LocalReads(v.value) else 0
    case Print(args) => PrintLocalReads(args, |args|)
  }

  function BlockLocalReads(st: Stmt, n: nat): nat
    requires st.Block? && n <= |st.stmts|
    decreases st, 0, n
  {
    if n == 0 then 0 else BlockLocalReads(st, n - 1) + StmtLocalReads(st.stmts[n - 1])
  }

  function PrintLocalReads(args: seq<PrintArg>, n: nat): nat
    requires n <= |args|
  {
    if n == 0 then 0 else PrintLocalReads(args, n - 1) + LocalReads(args[n - 1].arg)
  }

  /** For a statement, too, the estimate before placement is one word more per read of a local. */
  lemma {:induction false} UnplacedStmtBytes(st: Stmt)
    ensures StmtBytes(UnplacedStmt(st)) == StmtBytes(st) + VarSize * StmtLocalReads(st)
    decreases st, 1, 0
  {
    match st
    case Block(_, ss) => UnplacedBlockBytes(st, |ss|);
    case ExprStmt(e) => UnplacedBytes(e);
    case If(c, b, eb) =>
      UnplacedBytes(c);
      UnplacedStmtBytes(b);
      if eb.Some? {
        UnplacedStmtBytes(eb.value);
      }
    case While(c, b) => UnplacedBytes(c); UnplacedStmtBytes(b);
    case For(i, c, s, b) => UnplacedBytes(i); UnplacedBytes(c); UnplacedBytes(s); UnplacedStmtBytes(b);
    case Break =>
    case Return(v) =>
      if v.Some? {
        UnplacedBytes(v.value);
      }
    case Print(args) => UnplacedPrintBytes(args, |args|);
  }

  lemma {:induction false} UnplacedBlockBytes(st: Stmt, n: nat)
    requires st.Block? && n <= |st.stmts|
    ensures UnplacedStmt(st).Block? && |UnplacedStmt(st).stmts| == |st.stmts|
    ensures BlockBytes(UnplacedStmt(st), n) == BlockBytes(st, n) + VarSize * BlockLocalReads(st, n)
    decreases st, 0, n
  {
    if n > 0 {
      UnplacedBlockBytes(st, n - 1);
      UnplacedStmtBytes(st.stmts[n - 1]);
    }
  }

  lemma {:induction false} UnplacedPrintBytes(args: seq<PrintArg>, n: nat)
    requires n <= |args|
    ensures PrintBytes(UnplacedArgs(args), n) == PrintBytes(args, n) + VarSize * PrintLocalReads(args, n)
  {
    if n > 0 {
      UnplacedPrintBytes(args, n - 1);
      UnplacedBytes(args[n - 1].arg);
    }
  }

  // ----- the function -----

  /**
   * The frame size `FnDecl::Emit` computes: the body's estimate, taken
   * before its locals are placed. It is the frame the body draws plus one
   * word per read of a local.
   */
  function FrameEstimate(body: Stmt): (r: nat)
    ensures r == StmtBytes(body) + VarSize * StmtLocalReads(body)
  {
    UnplacedStmtBytes(body);
    StmtBytes(UnplacedStmt(body))
  }

  /**
   * `FnDecl::Emit`: the formals are placed; a function with a body gets its
   * label, a `BeginFunc` declaring the frame estimate (the corrected size,
   * see `FrameSizeAsWritten`), the body's code and an `EndFunc`. The frame
   * declared covers the frame the body draws, exactly so when the body reads
   * no local.
   */
  method EmitFn(cg: CodeGenerator, bs: BreakStack, f: FnDecl, body: Option<Stmt>)
    requires body.Some? <==> f.body.Some?
    requires Layout.DistinctVarSlots(f.formals)
    requires body.Some? ==> Emittable(body.value, |bs.labels|) && Layout.FormalSlots(f.formals) !! LocalSlots(body.value)
    modifies cg, bs, Layout.FormalSlots(f.formals), if body.Some? then LocalSlots(body.value) else {}
    ensures forall i :: 0 <= i < |f.formals| ==>
      f.formals[i].slot.memLoc == Some(Loc(FpRelative, Layout.FormalOffset(f.slot.isMethod, i), f.formals[i].name))
    ensures bs.labels == old(bs.labels)
    ensures body.None? ==> cg.code == old(cg.code) && cg.nextTemp == old(cg.nextTemp) && cg.nextLabel == old(cg.nextLabel)
    ensures body.Some? ==>
      var B := StmtCode(body.value, old(cg.nextTemp), old(cg.nextLabel), old(bs.labels));
      && cg.code == old(cg.code) + [MkLabel(Symbolic(f.slot.fnLabel)), BeginFunc(FrameEstimate(body.value))] + B.code + [EndFunc]
      && cg.nextTemp == old(cg.nextTemp) + B.temps
      && cg.nextLabel == old(cg.nextLabel) + B.labels
      && cg.frameBytes == StmtBytes(body.value)
      && cg.frameBytes <= FrameEstimate(body.value)
      && (cg.frameBytes == FrameEstimate(body.value) <==> StmtLocalReads(body.value) == 0)
  {
    Layout.PlaceFormals(f);
    if body.Some? {
      cg.Append(MkLabel(Symbolic(f.slot.GetLabel())));
      var frameSize := FrameEstimate(body.value);
      cg.GenBeginFunc(frameSize);
      ghost var t0 := cg.nextTemp;
      ghost var l0 := cg.nextLabel;
      EmitStmt(cg, bs, body.value, t0, l0, bs.labels);
      StmtBytesMatch(body.value, t0, l0, bs.labels);
      cg.Append(EndFunc);
    }
  }

  /** The frame size `FnDecl::Emit` declares as written: four times the estimate. */
  function FrameSizeAsWritten(body: Stmt): (r: int)
    ensures r == 4 * (StmtBytes(body) + VarSize * StmtLocalReads(body))
  {
    FrameEstimate(body) * 4
  }

  /**
   * Printing one integer constant draws one temporary, so its frame is one
   * word, which the estimate gets right; the size as written declares four.
   */
  lemma AsWrittenFrameTooLarge()
    ensures var body := Print([PrintArg(IntConstant(1), PrintInt)]);
      StmtBytes(body) == FrameEstimate(body) == VarSize && FrameSizeAsWritten(body) == 4 * VarSize
  {
    var body := Print([PrintArg(IntConstant(1), PrintInt)]);
    assert PrintBytes(body.args, 1) == PrintBytes(body.args, 0) + ExprBytes(IntConstant(1));
    assert PrintLocalReads(body.args, 1) == PrintLocalReads(body.args, 0) + LocalReads(IntConstant(1));
  }

  /**
   * `{ int x; Print(x); }`: the body draws one word, for `x`, but the
   * estimate, taken while `x` has no location, counts a second word for
   * reading it.
   */
  lemma LocalReadEstimated(x: VarDecl)
    ensures var read := FieldAccess(Placed(Loc(FpRelative, OffsetToFirstLocal, x.name)));
      var body := Block([x], [Print([PrintArg(read, PrintInt)])]);
      StmtBytes(body) == VarSize && FrameEstimate(body) == 2 * VarSize
  {
    var read := FieldAccess(Placed(Loc(FpRelative, OffsetToFirstLocal, x.name)));
    var p := Print([PrintArg(read, PrintInt)]);
    var body := Block([x], [p]);
    assert PrintBytes(p.args, 1) == PrintBytes(p.args, 0) + ExprBytes(read);
    assert PrintLocalReads(p.args, 1) == PrintLocalReads(p.args, 0) + LocalReads(read);
    assert BlockBytes(body, 1) == BlockBytes(body, 0) + StmtBytes(p);
    assert BlockLocalReads(body, 1) == BlockLocalReads(body, 0) + StmtLocalReads(p);
  }
}
