/**
 * The parameter stack a call builds. `PushParam` puts one word on top of
 * the stack and `PopParams(bytes)` removes `bytes / VarSize` words; every
 * other instruction leaves the stack alone. The callee's frame pointer
 * sits just below the words pushed for it, so the word at depth `d` is the
 * one the callee reads at offset `OffsetToFirstParam + VarSize * d`.
 *
 * The lemmas say that `Call::EmitLabel` leaves the caller's i-th actual
 * where `FnDecl::Emit` placed the callee's i-th formal (and the receiver
 * where a method reads `this`), and that every pop removes exactly the
 * words pushed before it: the code of any expression leaves the stack as
 * it found it.
 */
module CallStack {
  import opened Wrappers
  import opened CodeGen
  import opened Tac
  import opened ExprEmit
  import Layout

  /** One instruction's effect on the stack, top first. */
  function Effect(i: Instr, s: seq<Location>): seq<Location>
  {
    if i.PushParam? then [i.arg] + s
    else if i.PopParams? then (if 0 <= i.bytes / VarSize <= |s| then s[i.bytes / VarSize..] else [])
    else s
  }

  /** The stack after running the first `n` instructions of `code` (straight through) from stack `s`. */
  function StackAt(code: seq<Instr>, n: nat, s: seq<Location>): seq<Location>
    requires n <= |code|
    decreases n
  {
    if n == 0 then s else Effect(code[n - 1], StackAt(code, n - 1, s))
  }

  /** The stack after running all of `code` from stack `s`. */
  function StackAfter(code: seq<Instr>, s: seq<Location>): seq<Location>
  {
    StackAt(code, |code|, s)
  }

  /** The depth of the word the callee reads at frame offset `offset`. */
  function CalleeDepth(offset: int): int
  {
    (offset - OffsetToFirstParam) / VarSize
  }

  /** Code that neither pushes nor pops. */
  predicate NoStackOps(code: seq<Instr>)
  {
    forall k :: 0 <= k < |code| ==> !code[k].PushParam? && !code[k].PopParams?
  }

  /** Running a prefix of `a + b` that lies inside `a` only looks at `a`. */
  lemma {:induction false} StackAtPrefix(a: seq<Instr>, b: seq<Instr>, k: nat, s: seq<Location>)
    requires k <= |a|
    ensures StackAt(a + b, k, s) == StackAt(a, k, s)
    decreases k
  {
    if k > 0 {
      StackAtPrefix(a, b, k - 1, s);
      assert (a + b)[k - 1] == a[k - 1];
    }
  }

  /** Running all of `a` and then `k` instructions of `b`. */
  lemma {:induction false} StackAtAppend(a: seq<Instr>, b: seq<Instr>, k: nat, s: seq<Location>)
    requires k <= |b|
    ensures StackAt(a + b, |a| + k, s) == StackAt(b, k, StackAfter(a, s))
    decreases k
  {
    if k > 0 {
      StackAtAppend(a, b, k - 1, s);
      assert (a + b)[|a| + k - 1] == b[k - 1];
    } else {
      StackAtPrefix(a, b, |a|, s);
    }
  }

  lemma StackAfterAppend(a: seq<Instr>, b: seq<Instr>, s: seq<Location>)
    ensures StackAfter(a + b, s) == StackAfter(b, StackAfter(a, s))
  {
    StackAtAppend(a, b, |b|, s);
  }

  /** Running the first `n == |a| + m` instructions of `C == a + b`: all of `a`, then `m` of `b`. */
  lemma {:induction false} StackAtSplit(C: seq<Instr>, a: seq<Instr>, b: seq<Instr>, n: nat, m: nat, s: seq<Location>)
    requires C == a + b && n == |a| + m && m <= |b|
    ensures StackAt(C, n, s) == StackAt(b, m, StackAfter(a, s))
    decreases m
  {
    if m > 0 {
      StackAtSplit(C, a, b, n - 1, m - 1, s);
      assert C[n - 1] == b[m - 1];
    } else {
      StackAtPrefix(a, b, |a|, s);
    }
  }

  /** Running `C == a + b` up to its last two instructions. */
  lemma StackBeforeLastTwo(C: seq<Instr>, a: seq<Instr>, b: seq<Instr>, s: seq<Location>)
    requires C == a + b && 2 <= |b|
    ensures StackAt(C, |C| - 2, s) == StackAt(b, |b| - 2, StackAfter(a, s))
  {
    var n, m := |C| - 2, |b| - 2;
    StackAtSplit(C, a, b, n, m, s);
  }

  /** Running code and then one more instruction. */
  lemma StackAfterSnoc(code: seq<Instr>, i: Instr, s: seq<Location>)
    ensures StackAfter(code + [i], s) == Effect(i, StackAfter(code, s))
  {
    StackAtPrefix(code, [i], |code|, s);
  }

  lemma {:induction false} NoStackOpsKeepAt(code: seq<Instr>, n: nat, s: seq<Location>)
    requires NoStackOps(code) && n <= |code|
    ensures StackAt(code, n, s) == s
    decreases n
  {
    if n > 0 {
      NoStackOpsKeepAt(code, n - 1, s);
    }
  }

  lemma NoStackOpsKeep(code: seq<Instr>, s: seq<Location>)
    requires NoStackOps(code)
    ensures StackAfter(code, s) == s
  {
    NoStackOpsKeepAt(code, |code|, s);
  }

  /** Pushing `params` last one first leaves them on top in order: the first on top. */
  lemma {:induction false} PushOrder(params: seq<Location>, s: seq<Location>)
    ensures StackAfter(Pushes(params), s) == params + s
    decreases |params|
  {
    if |params| > 0 {
      var rest := Pushes(params[1..]);
      StackAfterAppend(rest, [PushParam(params[0])], s);
      PushOrder(params[1..], s);
      assert [params[0]] + (params[1..] + s) == params + s;
    }
  }

  /** Balanced code followed by code that neither pushes nor pops is balanced. */
  lemma KeepThen(x: seq<Instr>, z: seq<Instr>, s: seq<Location>)
    requires StackAfter(x, s) == s && NoStackOps(z)
    ensures StackAfter(x + z, s) == s
  {
    StackAfterAppend(x, z, s);
    NoStackOpsKeep(z, s);
  }

  /** Two balanced pieces followed by code that neither pushes nor pops are balanced. */
  lemma KeepKeepThen(x: seq<Instr>, y: seq<Instr>, z: seq<Instr>, s: seq<Location>)
    requires StackAfter(x, s) == s && StackAfter(y, s) == s && NoStackOps(z)
    ensures StackAfter(x + y + z, s) == s
  {
    StackAfterAppend(x, y, s);
    KeepThen(x + y, z, s);
  }

  /** `BinaryTail` on balanced operand code is balanced. */
  lemma BinaryTailKeeps(op: string, A: Emitted, B: Emitted, t: nat, s: seq<Location>)
    requires A.result.Some? && B.result.Some?
    requires StackAfter(A.code, s) == s && StackAfter(B.code, s) == s
    ensures StackAfter(BinaryTail(op, A, B, t).code, s) == s
  {
    KeepKeepThen(A.code, B.code, [BinaryOp(Temp(t + A.temps + B.temps), op, A.result.value, B.result.value)], s);
  }

  /** `LessEqualTail` on balanced operand code is balanced. */
  lemma LessEqualTailKeeps(A: Emitted, B: Emitted, t: nat, s: seq<Location>)
    requires A.result.Some? && B.result.Some?
    requires StackAfter(A.code, s) == s && StackAfter(B.code, s) == s
    ensures StackAfter(LessEqualTail(A, B, t).code, s) == s
  {
    var u := t + A.temps + B.temps;
    KeepKeepThen(A.code, B.code, [ BinaryOp(Temp(u), "<", A.result.value, B.result.value),
                                   BinaryOp(Temp(u + 1), "==", A.result.value, B.result.value),
                                   BinaryOp(Temp(u + 2), "||", Temp(u), Temp(u + 1)) ], s);
  }

  /** `NegatedCode` on balanced code is balanced. */
  lemma NegatedKeeps(Q: Emitted, t: nat, l: nat, s: seq<Location>)
    requires Q.result.Some? && StackAfter(Q.code, s) == s
    ensures StackAfter(NegatedCode(Q, t, l).code, s) == s
  {
    KeepThen(Q.code, ZeroTestCode(Q.result.value, Temp(t), t + 1 + Q.temps, l), s);
  }

  // ----- every expression's code is balanced -----

  /** The code of any expression leaves the parameter stack as it found it. */
  lemma {:induction false} ExprKeepsStack(e: Expr, t: nat, l: nat, s: seq<Location>)
    requires WellFormed(e)
    ensures StackAfter(ExprCode(e, t, l).code, s) == s
    decreases e, 2, 0
  {
    if IsOperator(e) {
      OperatorKeepsStack(e, t, l, s);
    } else if !IsLeaf(e) {
      AccessKeepsStack(e, t, l, s);
    } else {
      NoStackOpsKeep(ExprCode(e, t, l).code, s);
    }
  }

  lemma {:induction false} OperatorKeepsStack(e: Expr, t: nat, l: nat, s: seq<Location>)
    requires IsOperator(e) && WellFormed(e)
    ensures StackAfter(ExprCode(e, t, l).code, s) == s
    decreases e, 1, 2
  {
    match e
    case Arithmetic(_, _, _) => ArithmeticKeepsStack(e, t, l, s);
    case UnaryArithmetic(_, _) => ArithmeticKeepsStack(e, t, l, s);
    case Relational(_, _, _) => RelationalKeepsStack(e, t, l, s);
    case Equality(_, _, _, _) => EqualityKeepsStack(e, t, l, s);
    case Logical(_, _, _) => LogicalKeepsStack(e, t, l, s);
    case LogicalNot(_) => LogicalKeepsStack(e, t, l, s);
  }

  lemma {:induction false} AccessKeepsStack(e: Expr, t: nat, l: nat, s: seq<Location>)
    requires !IsLeaf(e) && !IsOperator(e) && WellFormed(e)
    ensures StackAfter(ExprCode(e, t, l).code, s) == s
    decreases e, 1, 2
  {
    match e
    case AssignExpr(_, _) => AssignKeepsStack(e, t, l, s);
    case ArrayAccess(_, _) => ArrayAccessKeepsStack(e, t, l, s);
    case Call(_, _, _) => CallKeepsStack(e, t, l, s);
    case ArrayLength(_) => ArrayLengthKeepsStack(e, t, l, s);
    case NewArrayExpr(_) => NewArrayKeepsStack(e, t, l, s);
  }

  lemma {:induction false} ArithmeticKeepsStack(e: Expr, t: nat, l: nat, s: seq<Location>)
    requires (e.Arithmetic? || e.UnaryArithmetic?) && WellFormed(e)
    ensures StackAfter(ArithmeticCode(e, t, l).code, s) == s
    decreases e, 1, 0
  {
    if e.UnaryArithmetic? {
      UnaryKeepsStack(e, t, l, s);
    } else {
      var x, y := e.left, e.right;
      var A := ExprCode(x, t, l);
      var t2, l2 := t + A.temps, l + A.labels;
      var B := ExprCode(y, t2, l2);
      assert ArithmeticCode(e, t, l) == BinaryTail(e.op, A, B, t);
      assert StackAfter(A.code, s) == s by { ExprKeepsStack(x, t, l, s); }
      assert StackAfter(B.code, s) == s by { ExprKeepsStack(y, t2, l2, s); }
      BinaryTailKeeps(e.op, A, B, t, s);
    }
  }

  lemma {:induction false} UnaryKeepsStack(e: Expr, t: nat, l: nat, s: seq<Location>)
    requires e.UnaryArithmetic? && WellFormed(e)
    ensures StackAfter(ArithmeticCode(e, t, l).code, s) == s
    decreases e, 0, 0
  {
    var A := ExprCode(e.right, t, l);
    ExprKeepsStack(e.right, t, l, s);
    KeepThen(A.code, [LoadConst(Temp(t + A.temps), 0), BinaryOp(Temp(t + A.temps + 1), e.op, Temp(t + A.temps), A.result.value)], s);
  }

  /** `a` then `b`, then `<` (or `<`, `==` and `||`) on their values. */
  lemma {:induction false} ComparisonKeepsStack(e: Expr, a: Expr, b: Expr, t: nat, l: nat, s: seq<Location>)
    requires a < e && b < e && Valued(a) && WellFormed(a) && Valued(b) && WellFormed(b)
    ensures
      var A := ExprCode(a, t, l);
      var B := ExprCode(b, t + A.temps, l + A.labels);
      StackAfter(BinaryTail("<", A, B, t).code, s) == s && StackAfter(LessEqualTail(A, B, t).code, s) == s
    decreases e, 0, 0
  {
    var A := ExprCode(a, t, l);
    var t2, l2 := t + A.temps, l + A.labels;
    var B := ExprCode(b, t2, l2);
    ExprKeepsStack(a, t, l, s);
    ExprKeepsStack(b, t2, l2, s);
    BinaryTailKeeps("<", A, B, t, s);
    LessEqualTailKeeps(A, B, t, s);
  }

  lemma {:induction false} RelationalKeepsStack(e: Expr, t: nat, l: nat, s: seq<Location>)
    requires e.Relational? && WellFormed(e)
    ensures StackAfter(RelationalCode(e, t, l).code, s) == s
    decreases e, 1, 0
  {
    if e.rel == Lt || e.rel == Le {
      ForwardKeepsStack(e, t, l, s);
    } else {
      SwappedKeepsStack(e, t, l, s);
    }
  }

  /** `RelationalKeepsStack` for `<` and `<=`. */
  lemma {:induction false} ForwardKeepsStack(e: Expr, t: nat, l: nat, s: seq<Location>)
    requires e.Relational? && (e.rel == Lt || e.rel == Le) && WellFormed(e)
    ensures StackAfter(RelationalCode(e, t, l).code, s) == s
    decreases e, 0, 1
  {
    ComparisonKeepsStack(e, e.left, e.right, t, l, s);
  }

  /** `RelationalKeepsStack` for `>` and `>=`, whose operands are emitted swapped. */
  lemma {:induction false} SwappedKeepsStack(e: Expr, t: nat, l: nat, s: seq<Location>)
    requires e.Relational? && (e.rel == Gt || e.rel == Ge) && WellFormed(e)
    ensures StackAfter(RelationalCode(e, t, l).code, s) == s
    decreases e, 0, 1
  {
    ComparisonKeepsStack(e, e.right, e.left, t, l, s);
  }

  lemma {:induction false} EqualKeepsStack(e: Expr, t: nat, l: nat, s: seq<Location>)
    requires e.Equality? && WellFormed(e)
    ensures StackAfter(EqualCode(e, t, l).code, s) == s
    decreases e, 0, 1
  {
    var x, y := e.left, e.right;
    var A := ExprCode(x, t, l);
    var t2, l2 := t + A.temps, l + A.labels;
    var B := ExprCode(y, t2, l2);
    var z := [EqualInstr(e.onStrings, Temp(t2 + B.temps), A.result.value, B.result.value)];
    assert EqualCode(e, t, l).code == A.code + B.code + z;
    assert StackAfter(A.code, s) == s by { ExprKeepsStack(x, t, l, s); }
    assert StackAfter(B.code, s) == s by { ExprKeepsStack(y, t2, l2, s); }
    KeepKeepThen(A.code, B.code, z, s);
  }

  lemma {:induction false} EqualityKeepsStack(e: Expr, t: nat, l: nat, s: seq<Location>)
    requires e.Equality? && WellFormed(e)
    ensures StackAfter(EqualityCode(e, t, l).code, s) == s
    decreases e, 1, 0
  {
    if e.negated {
      var t1, l1 := t + 1, l + 2;
      EqualKeepsStack(e, t1, l1, s);
      NegatedKeeps(EqualCode(e, t1, l1), t, l, s);
    } else {
      EqualKeepsStack(e, t, l, s);
    }
  }

  lemma {:induction false} LogicalKeepsStack(e: Expr, t: nat, l: nat, s: seq<Location>)
    requires (e.Logical? || e.LogicalNot?) && WellFormed(e)
    ensures StackAfter(LogicalCode(e, t, l).code, s) == s
    decreases e, 1, 0
  {
    if e.LogicalNot? {
      var y, t1, l1 := e.right, t + 1, l + 2;
      ExprKeepsStack(y, t1, l1, s);
      NegatedKeeps(ExprCode(y, t1, l1), t, l, s);
    } else {
      var x, y := e.left, e.right;
      var A := ExprCode(x, t, l);
      var t2, l2 := t + A.temps, l + A.labels;
      var B := ExprCode(y, t2, l2);
      var op := if e.logic == And then "&&" else "||";
      assert LogicalCode(e, t, l) == BinaryTail(op, A, B, t);
      assert StackAfter(A.code, s) == s by { ExprKeepsStack(x, t, l, s); }
      assert StackAfter(B.code, s) == s by { ExprKeepsStack(y, t2, l2, s); }
      BinaryTailKeeps(op, A, B, t, s);
    }
  }

  lemma {:induction false} AddressKeepsStack(e: Expr, t: nat, l: nat, s: seq<Location>)
    requires e.ArrayAccess? && WellFormed(e)
    ensures StackAfter(AddressCode(e, t, l).code, s) == s
    decreases e, 0, 0
  {
    var x, y := e.base, e.subscript;
    var B := ExprCode(x, t, l);
    var t2, l2 := t + B.temps, l + B.labels;
    var S := ExprCode(y, t2, l2);
    var z := AddressTailCode(B.result.value, S.result.value, t2 + S.temps, l2 + S.labels);
    assert AddressCode(e, t, l).code == B.code + S.code + z;
    assert StackAfter(B.code, s) == s by { ExprKeepsStack(x, t, l, s); }
    assert StackAfter(S.code, s) == s by { ExprKeepsStack(y, t2, l2, s); }
    KeepKeepThen(B.code, S.code, z, s);
  }

  lemma {:induction false} ArrayAccessKeepsStack(e: Expr, t: nat, l: nat, s: seq<Location>)
    requires e.ArrayAccess? && WellFormed(e)
    ensures StackAfter(ArrayAccessCode(e, t, l).code, s) == s
    decreases e, 1, 0
  {
    var X := AddressCode(e, t, l);
    AddressKeepsStack(e, t, l, s);
    KeepThen(X.code, [ElementLoad(X.result.value, t + X.temps)], s);
  }

  lemma {:induction false} ArrayLengthKeepsStack(e: Expr, t: nat, l: nat, s: seq<Location>)
    requires e.ArrayLength? && WellFormed(e)
    ensures StackAfter(ArrayLengthCode(e, t, l).code, s) == s
    decreases e, 1, 0
  {
    var A := ExprCode(e.base, t, l);
    ExprKeepsStack(e.base, t, l, s);
    KeepThen(A.code, [Load(Temp(t + A.temps), A.result.value, 0)], s);
  }

  lemma {:induction false} NewArrayKeepsStack(e: Expr, t: nat, l: nat, s: seq<Location>)
    requires e.NewArrayExpr? && WellFormed(e)
    ensures StackAfter(NewArrayExprCode(e, t, l).code, s) == s
    decreases e, 1, 0
  {
    var S := ExprCode(e.size, t, l);
    ExprKeepsStack(e.size, t, l, s);
    KeepThen(S.code, NewArrayCode(S.result.value, t + S.temps, l + S.labels), s);
  }

  lemma {:induction false} TargetKeepsStack(a: Expr, v: Location, t: nat, l: nat, s: seq<Location>)
    requires Valued(a) && WellFormed(a)
    ensures StackAfter(TargetCode(a, v, t, l).code, s) == s
    decreases a, 3, 0
  {
    if a.ArrayAccess? {
      StoreKeepsStack(a, v, t, l, s);
    } else if a.FieldAccess? || a.FieldOfField? {
      NoStackOpsKeep(TargetCode(a, v, t, l).code, s);
    } else {
      var L := ExprCode(a, t, l);
      ExprKeepsStack(a, t, l, s);
      KeepThen(L.code, [Assign(L.result.value, v)], s);
    }
  }

  lemma {:induction false} StoreKeepsStack(a: Expr, v: Location, t: nat, l: nat, s: seq<Location>)
    requires a.ArrayAccess? && WellFormed(a)
    ensures StackAfter(TargetCode(a, v, t, l).code, s) == s
    decreases a, 2, 0
  {
    var X := AddressCode(a, t, l);
    AddressKeepsStack(a, t, l, s);
    KeepThen(X.code, [Store(X.result.value, v, 0), ElementLoad(X.result.value, t + X.temps)], s);
  }

  lemma {:induction false} AssignKeepsStack(e: Expr, t: nat, l: nat, s: seq<Location>)
    requires e.AssignExpr? && WellFormed(e)
    ensures StackAfter(AssignCode(e, t, l).code, s) == s
    decreases e, 1, 0
  {
    var x, y := e.left, e.right;
    var R := ExprCode(y, t, l);
    var v, t2, l2 := R.result.value, t + R.temps, l + R.labels;
    var S := TargetCode(x, v, t2, l2);
    ExprKeepsStack(y, t, l, s);
    TargetKeepsStack(x, v, t2, l2, s);
    StackAfterAppend(R.code, S.code, s);
  }

  lemma {:induction false} CallKeepsStack(e: Expr, t: nat, l: nat, s: seq<Location>)
    requires e.Call? && WellFormed(e)
    ensures StackAfter(CallCode(e, t, l).code, s) == s
    decreases e, 1, 1
  {
    CallFrame(e, t, l, s);
  }

  lemma {:induction false} ActualsKeepStack(e: Expr, n: nat, t: nat, l: nat, s: seq<Location>)
    requires e.Call? && WellFormed(e) && n <= |e.actuals|
    ensures StackAfter(ActualsCode(e, n, t, l).code, s) == s
    decreases e, 0, n
  {
    if n > 0 {
      var k := n - 1;
      var y := e.actuals[k];
      var P := ActualsCode(e, k, t, l);
      var t2, l2 := t + P.temps, l + P.labels;
      ActualsKeepStack(e, k, t, l, s);
      ExprKeepsStack(y, t2, l2, s);
      StackAfterAppend(P.code, ExprCode(y, t2, l2).code, s);
    }
  }

  // ----- the call itself -----

  /** The receiver a method call pushes: the receiver's value, or `this` when there is none. */
  function ReceiverWords(e: Expr, t: nat, l: nat): (r: seq<Location>)
    requires e.Call? && WellFormed(e)
    ensures |r| == if e.callee.Method? then 1 else 0
  {
    if e.callee.Function? then []
    else if e.callee.receiver.Some? then [ExprCode(e.callee.receiver.value, t, l).result.value]
    else [ThisLoc()]
  }

  /** The words a call pushes: the receiver (for a method) on top of the actuals' values. */
  function CallWords(e: Expr, t: nat, l: nat): (r: seq<Location>)
    requires e.Call? && WellFormed(e)
    ensures |r| == |e.actuals| + (if e.callee.Method? then 1 else 0)
  {
    var A := ActualsCode(e, |e.actuals|, t, l);
    ReceiverWords(e, t + A.temps, l + A.labels) + A.results
  }

  /** The shape of `InvokeCode`: the call second to last, then the pop of the receiver and the `n` actuals. */
  predicate InvokeShape(e: Expr, T: seq<Instr>)
    requires e.Call?
  {
    && |T| >= 2
    && (T[|T| - 2].LCall? <==> e.callee.Function?)
    && (T[|T| - 2].ACall? <==> e.callee.Method?)
    && T[|T| - 1] == PopParams(VarSize * (|e.actuals| + (if e.callee.Method? then 1 else 0)))
  }

  /** A call to a global function, with the `n` actuals' words on top of `s`. */
  lemma FunctionInvokeFrame(e: Expr, t: nat, l: nat, P: seq<Location>, s: seq<Location>)
    requires e.Call? && e.callee.Function? && WellFormed(e) && |P| == |e.actuals|
    ensures
      var T := InvokeCode(e, t, l).code;
      InvokeShape(e, T) && StackAt(T, |T| - 2, P + s) == ReceiverWords(e, t, l) + P + s && StackAfter(T, P + s) == s
  {
    assert (P + s)[|P|..] == s;
  }

  /** A method call: the receiver's code, its push and the two loads, then the call and the pop. */
  lemma MethodInvokeFrame(e: Expr, t: nat, l: nat, P: seq<Location>, s: seq<Location>)
    requires e.Call? && e.callee.Method? && WellFormed(e) && |P| == |e.actuals|
    ensures
      var T := InvokeCode(e, t, l).code;
      InvokeShape(e, T) && StackAt(T, |T| - 2, P + s) == ReceiverWords(e, t, l) + P + s && StackAfter(T, P + s) == s
    decreases e, 0, 0
  {
    var R := if e.callee.receiver.Some? then ExprCode(e.callee.receiver.value, t, l) else Emitted([], Some(ThisLoc()), 0, 0);
    if e.callee.receiver.Some? {
      ExprKeepsStack(e.callee.receiver.value, t, l, P + s);
    }
    var v := t + R.temps;
    var b := R.result.value;
    var ret := if e.hasReturn then Some(Temp(v + 2)) else None;
    var n := |e.actuals|;
    assert InvokeCode(e, t, l).code
        == R.code + [PushParam(b), Load(Temp(v), b, 0), Load(Temp(v + 1), Temp(v), e.callee.vtblOffset),
                     ACall(ret, Temp(v + 1)), PopParams(VarSize * (n + 1))];
    DispatchFrame(R.code, b, Temp(v), Temp(v + 1), e.callee.vtblOffset, ret, n, P, s);
  }

  /** The tail of a method call once the receiver's code `rc` has left `b` holding the receiver. */
  lemma DispatchFrame(rc: seq<Instr>, b: Location, vt: Location, fn: Location, offset: int, ret: Option<Location>,
                      n: nat, P: seq<Location>, s: seq<Location>)
    requires |P| == n && StackAfter(rc, P + s) == P + s
    ensures
      var T := rc + [PushParam(b), Load(vt, b, 0), Load(fn, vt, offset), ACall(ret, fn), PopParams(VarSize * (n + 1))];
      && |T| >= 2 && T[|T| - 2] == ACall(ret, fn) && T[|T| - 1] == PopParams(VarSize * (n + 1))
      && StackAt(T, |T| - 2, P + s) == [b] + P + s && StackAfter(T, P + s) == s
  {
    var tail := [PushParam(b), Load(vt, b, 0), Load(fn, vt, offset), ACall(ret, fn), PopParams(VarSize * (n + 1))];
    StackBeforeLastTwo(rc + tail, rc, tail, P + s);
    StackAfterAppend(rc, tail, P + s);
    DispatchTail(tail, P, s);
  }

  /** The push, the two loads, the call and the pop, on their own. */
  lemma DispatchTail(tail: seq<Instr>, P: seq<Location>, s: seq<Location>)
    requires |tail| == 5 && tail[0].PushParam? && tail[1].Load? && tail[2].Load? && tail[3].ACall?
    requires tail[4] == PopParams(VarSize * (|P| + 1))
    ensures StackAt(tail, |tail| - 2, P + s) == [tail[0].arg] + P + s
    ensures StackAfter(tail, P + s) == s
  {
    var pushed := [tail[0].arg] + (P + s);
    assert StackAt(tail, 1, P + s) == pushed;
    assert StackAt(tail, 3, P + s) == pushed;
    assert StackAt(tail, 4, P + s) == pushed;
    assert pushed[|P| + 1..] == s;
  }

  /** The actuals' code, then their pushes: the actuals' values on top, the first on top. */
  lemma PushedActuals(e: Expr, t: nat, l: nat, s: seq<Location>)
    requires e.Call? && WellFormed(e)
    ensures
      var A := ActualsCode(e, |e.actuals|, t, l);
      StackAfter(A.code + Pushes(A.results), s) == A.results + s
    decreases e, 0, |e.actuals| + 1
  {
    var A := ActualsCode(e, |e.actuals|, t, l);
    ActualsKeepStack(e, |e.actuals|, t, l, s);
    PushOrder(A.results, s);
    StackAfterAppend(A.code, Pushes(A.results), s);
  }

  /**
   * The call instruction is the second-to-last one emitted, a direct call
   * exactly for a global function; right before it the pushed words sit on
   * top of the caller's stack, and the pop after it removes exactly them.
   */
  lemma {:induction false} CallFrame(e: Expr, t: nat, l: nat, s: seq<Location>)
    requires e.Call? && WellFormed(e)
    ensures
      var C := CallCode(e, t, l).code;
      InvokeShape(e, C) && StackAt(C, |C| - 2, s) == CallWords(e, t, l) + s && StackAfter(C, s) == s
    decreases e, 1, 0
  {
    var A := ActualsCode(e, |e.actuals|, t, l);
    var t2, l2, P := t + A.temps, l + A.labels, A.results;
    var pushed := A.code + Pushes(P);
    var T := InvokeCode(e, t2, l2).code;
    var W := ReceiverWords(e, t2, l2);
    var C := CallCode(e, t, l).code;
    assert C == pushed + T;
    assert CallWords(e, t, l) == W + P;
    InvokeFrame(e, t2, l2, P, s);
    PushedActuals(e, t, l, s);
    ThenInvoke(C, pushed, T, W, P, s);
    ThenPop(C, pushed, T, P, s);
    EndsLike(C, pushed, T);
  }

  /** `FunctionInvokeFrame` or `MethodInvokeFrame`, as the callee says. */
  lemma InvokeFrame(e: Expr, t: nat, l: nat, P: seq<Location>, s: seq<Location>)
    requires e.Call? && WellFormed(e) && |P| == |e.actuals|
    ensures
      var T := InvokeCode(e, t, l).code;
      InvokeShape(e, T) && StackAt(T, |T| - 2, P + s) == ReceiverWords(e, t, l) + P + s && StackAfter(T, P + s) == s
    decreases e, 0, 1
  {
    if e.callee.Function? {
      FunctionInvokeFrame(e, t, l, P, s);
    } else {
      MethodInvokeFrame(e, t, l, P, s);
    }
  }

  /** Code `C`: code that leaves `P` on top of `s`, then a call sequence `T` that pushes `W` before its call. */
  lemma ThenInvoke(C: seq<Instr>, pushed: seq<Instr>, T: seq<Instr>, W: seq<Location>, P: seq<Location>, s: seq<Location>)
    requires C == pushed + T && |T| >= 2
    requires StackAfter(pushed, s) == P + s && StackAt(T, |T| - 2, P + s) == W + P + s
    ensures StackAt(C, |C| - 2, s) == (W + P) + s
  {
    StackBeforeLastTwo(C, pushed, T, s);
  }

  /** Code `C`: code that leaves `P` on top of `s`, then a call sequence `T` that pops `P`. */
  lemma ThenPop(C: seq<Instr>, pushed: seq<Instr>, T: seq<Instr>, P: seq<Location>, s: seq<Location>)
    requires C == pushed + T
    requires StackAfter(pushed, s) == P + s && StackAfter(T, P + s) == s
    ensures StackAfter(C, s) == s
  {
    StackAfterAppend(pushed, T, s);
  }

  /** Code `C` ending in `T` ends in `T`'s last two instructions. */
  lemma EndsLike(C: seq<Instr>, pushed: seq<Instr>, T: seq<Instr>)
    requires C == pushed + T && |T| >= 2
    ensures |C| >= 2 && C[|C| - 2] == T[|T| - 2] && C[|C| - 1] == T[|T| - 1]
  {
  }

  /** The word of formal `i` is the `i`-th below the top, or the one below the receiver in a method. */
  lemma FormalDepth(isMethod: bool, i: nat)
    ensures CalleeDepth(Layout.FormalOffset(isMethod, i)) == i + (if isMethod then 1 else 0)
  {
  }

  /** Where `Call::EmitLabel` leaves the i-th actual's value is where the callee's i-th formal lives. */
  lemma ActualMeetsFormal(e: Expr, t: nat, l: nat, s: seq<Location>, i: nat)
    requires e.Call? && WellFormed(e) && i < |e.actuals|
    ensures
      var C := CallCode(e, t, l).code;
      var d := CalleeDepth(Layout.FormalOffset(e.callee.Method?, i));
      |C| >= 2 && 0 <= d < |StackAt(C, |C| - 2, s)|
      && StackAt(C, |C| - 2, s)[d] == ActualsCode(e, |e.actuals|, t, l).results[i]
  {
    CallFrame(e, t, l, s);
    FormalDepth(e.callee.Method?, i);
    var A := ActualsCode(e, |e.actuals|, t, l);
    var W := ReceiverWords(e, t + A.temps, l + A.labels);
    assert (W + A.results + s)[|W| + i] == A.results[i];
  }

  /** A method's receiver is pushed last, onto the word the callee reads `this` from. */
  lemma ReceiverMeetsThis(e: Expr, t: nat, l: nat, s: seq<Location>)
    requires e.Call? && e.callee.Method? && WellFormed(e)
    ensures
      var C := CallCode(e, t, l).code;
      var A := ActualsCode(e, |e.actuals|, t, l);
      |C| >= 2 && CalleeDepth(ThisLoc().offset) == 0 < |StackAt(C, |C| - 2, s)|
      && StackAt(C, |C| - 2, s)[0]
         == (if e.callee.receiver.Some? then ExprCode(e.callee.receiver.value, t + A.temps, l + A.labels).result.value
             else ThisLoc())
  {
    CallFrame(e, t, l, s);
  }

  /** The actuals' values are collected in order: the i-th is where the i-th actual's code leaves its value. */
  lemma {:induction false} ActualsResultAt(e: Expr, n: nat, i: nat, t: nat, l: nat)
    requires e.Call? && WellFormed(e) && i < n <= |e.actuals|
    ensures
      var P := ActualsCode(e, i, t, l);
      ActualsCode(e, n, t, l).results[i] == ExprCode(e.actuals[i], t + P.temps, l + P.labels).result.value
    decreases n
  {
    if i < n - 1 {
      ActualsResultAt(e, n - 1, i, t, l);
    }
  }
}
