/**
 * Code generation for expressions (`Expr::Emit` and `Expr::GetMemBytes`).
 *
 * Emission runs after layout, so the tree it walks is a laid-out one: a
 * variable reference already knows the location or field offset its
 * declaration was given, a call knows its label or vtable slot, an
 * equality knows whether its left operand is a string, and `new C` knows
 * the instance size of `C`.
 *
 * `ExprCode` says what the emitter appends for an expression when the
 * generator's counters stand at `t` (temporaries) and `l` (labels);
 * `ExprBytes` is the source's independent estimate of the frame bytes the
 * expression needs. The emitting methods are proved to append exactly
 * `ExprCode` and to draw exactly `ExprBytes` frame bytes, and the lemmas
 * below relate the two and say what the pieces of the code do.
 */
module ExprEmit {
  import opened Wrappers
  import opened CodeGen
  import opened Tac

  /** Where a variable reached through a field access lives. */
  datatype VarRef =
    | Placed(loc: Location)      // its declaration has a memory location: a global, formal or local
    | OfReceiver(offset: int)    // it has none: an instance variable of `this` at this offset

  datatype RelOp = Lt | Le | Gt | Ge

  datatype LogicOp = And | Or

  /** What a call invokes: a global function by label, or a method through the receiver's vtable. */
  datatype Callee =
    | Function(fnLabel: string)
    | Method(receiver: Option<Expr>, vtblOffset: int)   // no receiver: the implicit `this`

  datatype Expr =
    | IntConstant(ival: int)
    | BoolConstant(bval: bool)
    | StringConstant(text: string)
    | NullConstant
    | Arithmetic(op: string, left: Expr, right: Expr)
    | UnaryArithmetic(op: string, right: Expr)
    | Relational(rel: RelOp, left: Expr, right: Expr)
    | Equality(negated: bool, onStrings: bool, left: Expr, right: Expr)
    | Logical(logic: LogicOp, left: Expr, right: Expr)
    | LogicalNot(right: Expr)
    | AssignExpr(left: Expr, right: Expr)
    | This
    | ArrayAccess(base: Expr, subscript: Expr)
    | FieldAccess(ref: VarRef)                       // its base, if any, is not itself a field access
    | FieldOfField(baseLoc: Location, offset: int)   // its base is a field access whose declaration sits at `baseLoc`
    | Call(callee: Callee, actuals: seq<Expr>, hasReturn: bool)
    | ArrayLength(base: Expr)                        // `a.length()` on an array
    | NewExpr(className: string, instanceBytes: int)
    | NewArrayExpr(size: Expr)
    | ReadIntegerExpr
    | ReadLineExpr

  /** Emitting the expression yields a location: every node but a call to a void function does. */
  predicate Valued(e: Expr)
  {
    !(e.Call? && !e.hasReturn)
  }

  /** Every operand is itself well formed and yields a location (a checked program guarantees this). */
  predicate WellFormed(e: Expr)
    decreases e
  {
    match e
    case Arithmetic(_, a, b) => Valued(a) && WellFormed(a) && Valued(b) && WellFormed(b)
    case UnaryArithmetic(_, a) => Valued(a) && WellFormed(a)
    case Relational(_, a, b) => Valued(a) && WellFormed(a) && Valued(b) && WellFormed(b)
    case Equality(_, _, a, b) => Valued(a) && WellFormed(a) && Valued(b) && WellFormed(b)
    case Logical(_, a, b) => Valued(a) && WellFormed(a) && Valued(b) && WellFormed(b)
    case LogicalNot(a) => Valued(a) && WellFormed(a)
    case AssignExpr(a, b) => Valued(a) && WellFormed(a) && Valued(b) && WellFormed(b)
    case ArrayAccess(a, s) => Valued(a) && WellFormed(a) && Valued(s) && WellFormed(s)
    case Call(c, actuals, _) =>
      && (c.Method? && c.receiver.Some? ==> Valued(c.receiver.value) && WellFormed(c.receiver.value))
      && forall i :: 0 <= i < |actuals| ==> Valued(actuals[i]) && WellFormed(actuals[i])
    case ArrayLength(a) => Valued(a) && WellFormed(a)
    case NewArrayExpr(s) => Valued(s) && WellFormed(s)
    case _ => true
  }

  /** The expressions that can be stored into. */
  predicate IsLValue(e: Expr)
  {
    e.ArrayAccess? || e.FieldAccess? || e.FieldOfField?
  }

  // ----- the frame-byte estimates (`GetMemBytes`) -----

  /** `Expr::GetMemBytes`: the frame bytes the expression's temporaries are estimated to take. */
  function ExprBytes(e: Expr): nat
    decreases e, 1, 0
  {
    match e
    case IntConstant(_) => VarSize
    case BoolConstant(_) => VarSize
    case StringConstant(_) => VarSize
    case NullConstant => VarSize
    case Arithmetic(_, a, b) => ExprBytes(b) + ExprBytes(a) + VarSize
    case UnaryArithmetic(_, a) => ExprBytes(a) + 2 * VarSize
    case Relational(rel, a, b) =>
      if rel == Lt || rel == Gt then ExprBytes(a) + ExprBytes(b) + VarSize
      else ExprBytes(a) + ExprBytes(b) + 3 * VarSize
    case Equality(negated, _, a, b) =>
      if negated then ExprBytes(a) + ExprBytes(b) + 4 * VarSize
      else ExprBytes(a) + ExprBytes(b) + VarSize
    case Logical(_, a, b) => ExprBytes(a) + ExprBytes(b) + VarSize
    case LogicalNot(a) => ExprBytes(a) + 3 * VarSize
    case AssignExpr(a, b) => ExprBytes(b) + TargetBytes(a)
    case This => 0
    case ArrayAccess(_, _) => AddrBytes(e) + VarSize
    case FieldAccess(ref) => if ref.Placed? then 0 else VarSize
    case FieldOfField(_, _) => VarSize
    case Call(c, actuals, hasReturn) =>
      ActualsBytes(e, |actuals|)
      + (if c.Method? then (if c.receiver.Some? then ExprBytes(c.receiver.value) else 0) + 2 * VarSize else 0)
      + (if hasReturn then VarSize else 0)
    case ArrayLength(a) => ExprBytes(a) + VarSize
    case NewExpr(_, _) => 5 * VarSize
    case NewArrayExpr(s) => ExprBytes(s) + 4 * VarSize + 5 * VarSize
    case ReadIntegerExpr => VarSize
    case ReadLineExpr => VarSize
  }

  /** `ArrayAccess::GetMemBytesAddr`: base, subscript, four address words and eight for the check. */
  function AddrBytes(e: Expr): nat
    requires e.ArrayAccess?
    decreases e, 0, 0
  {
    ExprBytes(e.base) + ExprBytes(e.subscript) + 4 * VarSize + 8 * VarSize
  }

  /**
   * The left side's share of `AssignExpr::GetMemBytes`: `GetMemBytesStore`
   * for an lvalue (the address and one word for an element, nothing for a
   * variable), its own estimate otherwise.
   */
  function TargetBytes(a: Expr): nat
    decreases a, 3, 0
  {
    if a.ArrayAccess? then AddrBytes(a) + VarSize
    else if a.FieldAccess? || a.FieldOfField? then 0
    else ExprBytes(a)
  }

  /** The estimates of the first `n` actuals of a call, summed. */
  function ActualsBytes(e: Expr, n: nat): nat
    requires e.Call? && n <= |e.actuals|
    decreases e, 0, n
  {
    if n == 0 then 0 else ActualsBytes(e, n - 1) + ExprBytes(e.actuals[n - 1])
  }

  // ----- the emitted code -----

  /**
   * What emitting appends: the instructions, the location holding the value
   * (none for a call to a void function), and how many temporaries and
   * labels were drawn.
   */
  datatype Emitted = Emitted(code: seq<Instr>, result: Option<Location>, temps: nat, labels: nat)

  /** The same for a list of operands, with one location per operand. */
  datatype EmittedList = EmittedList(code: seq<Instr>, results: seq<Location>, temps: nat, labels: nat)

  /** `a op b` with both operands already emitted: one temporary receives the result. */
  function BinaryTail(op: string, A: Emitted, B: Emitted, t: nat): (r: Emitted)
    requires A.result.Some? && B.result.Some?
    ensures r.temps >= 1 && r.result == Some(Temp(t + r.temps - 1))
  {
    var d := Temp(t + A.temps + B.temps);
    Emitted(A.code + B.code + [BinaryOp(d, op, A.result.value, B.result.value)], Some(d),
            A.temps + B.temps + 1, A.labels + B.labels)
  }

  /**
   * The tail shared by `!=` and `!`: `ret` becomes 1 when `test` holds zero
   * and 0 otherwise, through the labels `l` (the end) and `l + 1` (the 1-branch).
   */
  function ZeroTestCode(test: Location, ret: Location, u: nat, l: nat): seq<Instr>
  {
    [ IfZ(test, Fresh(l + 1)),
      LoadConst(Temp(u), 0),
      Assign(ret, Temp(u)),
      Goto(Fresh(l)),
      MkLabel(Fresh(l + 1)),
      LoadConst(Temp(u + 1), 1),
      Assign(ret, Temp(u + 1)),
      MkLabel(Fresh(l)) ]
  }

  /** `Expr::Emit` with the counters at `t` and `l`. */
  function ExprCode(e: Expr, t: nat, l: nat): (r: Emitted)
    requires WellFormed(e)
    ensures Valued(e) ==> r.result.Some?
    decreases e, 2, 0
  {
    match e
    case IntConstant(i) => Emitted([LoadConst(Temp(t), i)], Some(Temp(t)), 1, 0)
    case BoolConstant(b) => Emitted([LoadConst(Temp(t), if b then 1 else 0)], Some(Temp(t)), 1, 0)
    case StringConstant(s) => Emitted([LoadStrConst(Temp(t), s)], Some(Temp(t)), 1, 0)
    case NullConstant => Emitted([LoadConst(Temp(t), 0)], Some(Temp(t)), 1, 0)
    case This => Emitted([], Some(ThisLoc()), 0, 0)
    case FieldAccess(ref) =>
      if ref.Placed? then Emitted([], Some(ref.loc), 0, 0)
      else Emitted([Load(Temp(t), ThisLoc(), ref.offset)], Some(Temp(t)), 1, 0)
    case FieldOfField(baseLoc, offset) => Emitted([Load(Temp(t), baseLoc, offset)], Some(Temp(t)), 1, 0)
    case ReadIntegerExpr => Emitted([BuiltInCall(Some(Temp(t)), ReadInteger, [])], Some(Temp(t)), 1, 0)
    case ReadLineExpr => Emitted([BuiltInCall(Some(Temp(t)), ReadLine, [])], Some(Temp(t)), 1, 0)
    case NewExpr(name, bytes) => Emitted(NewObjectCode(name, bytes, t), Some(Temp(t + 3)), 5, 0)
    case Arithmetic(_, _, _) => ArithmeticCode(e, t, l)
    case UnaryArithmetic(_, _) => ArithmeticCode(e, t, l)
    case Relational(_, _, _) => RelationalCode(e, t, l)
    case Equality(_, _, _, _) => EqualityCode(e, t, l)
    case Logical(_, _, _) => LogicalCode(e, t, l)
    case LogicalNot(_) => LogicalCode(e, t, l)
    case AssignExpr(_, _) => AssignCode(e, t, l)
    case ArrayAccess(_, _) => ArrayAccessCode(e, t, l)
    case ArrayLength(_) => ArrayLengthCode(e, t, l)
    case NewArrayExpr(_) => NewArrayExprCode(e, t, l)
    case Call(_, _, _) => CallCode(e, t, l)
  }

  /**
   * `NewExpr::Emit`: the instance size, the word size, their sum, the
   * allocation, and the class's vtable label stored in the object's first word.
   */
  function NewObjectCode(name: string, bytes: int, t: nat): seq<Instr>
  {
    [ LoadConst(Temp(t), bytes),
      LoadConst(Temp(t + 1), VarSize),
      BinaryOp(Temp(t + 2), "+", Temp(t + 1), Temp(t)),
      BuiltInCall(Some(Temp(t + 3)), Alloc, [Temp(t + 2)]),
      LoadLabel(Temp(t + 4), name),
      Store(Temp(t + 3), Temp(t + 4), 0) ]
  }

  /** `ArithmeticExpr::Emit`: `EmitBinary`, or `EmitUnary` as `0 op right`. */
  function ArithmeticCode(e: Expr, t: nat, l: nat): (r: Emitted)
    requires (e.Arithmetic? || e.UnaryArithmetic?) && WellFormed(e)
    ensures r.result.Some?
    decreases e, 1, 0
  {
    if e.UnaryArithmetic? then
      var A := ExprCode(e.right, t, l);
      var zero := Temp(t + A.temps);
      Emitted(A.code + [LoadConst(zero, 0), BinaryOp(Temp(t + A.temps + 1), e.op, zero, A.result.value)],
              Some(Temp(t + A.temps + 1)), A.temps + 2, A.labels)
    else
      var A := ExprCode(e.left, t, l);
      BinaryTail(e.op, A, ExprCode(e.right, t + A.temps, l + A.labels), t)
  }

  /** `RelationalExpr::EmitLessEqual` with both operands already emitted: `<`, `==`, then their `||`. */
  function LessEqualTail(A: Emitted, B: Emitted, t: nat): (r: Emitted)
    requires A.result.Some? && B.result.Some?
    ensures r.result.Some?
  {
    var u := t + A.temps + B.temps;
    Emitted(A.code + B.code + [ BinaryOp(Temp(u), "<", A.result.value, B.result.value),
                                BinaryOp(Temp(u + 1), "==", A.result.value, B.result.value),
                                BinaryOp(Temp(u + 2), "||", Temp(u), Temp(u + 1)) ],
            Some(Temp(u + 2)), A.temps + B.temps + 3, A.labels + B.labels)
  }

  /** `RelationalExpr::Emit`: `<` directly, `<=` as `<` or `==`; `>` and `>=` with the operands swapped. */
  function RelationalCode(e: Expr, t: nat, l: nat): (r: Emitted)
    requires e.Relational? && WellFormed(e)
    ensures r.result.Some?
    decreases e, 1, 0
  {
    if e.rel == Lt || e.rel == Le then
      var A := ExprCode(e.left, t, l);
      var B := ExprCode(e.right, t + A.temps, l + A.labels);
      if e.rel == Lt then BinaryTail("<", A, B, t) else LessEqualTail(A, B, t)
    else
      var A := ExprCode(e.right, t, l);
      var B := ExprCode(e.left, t + A.temps, l + A.labels);
      if e.rel == Gt then BinaryTail("<", A, B, t) else LessEqualTail(A, B, t)
  }

  /** The comparison `==` emits: the string builtin when the left operand is a string, `==` otherwise. */
  function EqualInstr(onStrings: bool, d: Location, a: Location, b: Location): Instr
  {
    if onStrings then BuiltInCall(Some(d), StringEqual, [a, b]) else BinaryOp(d, "==", a, b)
  }

  /** `EqualityExpr::EmitEqual`: both operands, then their comparison. */
  function EqualCode(e: Expr, t: nat, l: nat): (r: Emitted)
    requires e.Equality? && WellFormed(e)
    ensures r.result.Some?
    decreases e, 0, 1
  {
    var A := ExprCode(e.left, t, l);
    var B := ExprCode(e.right, t + A.temps, l + A.labels);
    var u := t + A.temps + B.temps;
    Emitted(A.code + B.code + [EqualInstr(e.onStrings, Temp(u), A.result.value, B.result.value)],
            Some(Temp(u)), A.temps + B.temps + 1, A.labels + B.labels)
  }

  /**
   * The shape shared by `EmitNotEqual` and `EmitNot`: two labels (`l`, `l + 1`)
   * and the result temporary `t` are drawn first, then the tested value's code
   * `Q`, then the result is set to 1 exactly when the tested value is zero.
   */
  function NegatedCode(Q: Emitted, t: nat, l: nat): (r: Emitted)
    requires Q.result.Some?
    ensures r.result == Some(Temp(t))
  {
    Emitted(Q.code + ZeroTestCode(Q.result.value, Temp(t), t + 1 + Q.temps, l), Some(Temp(t)), Q.temps + 3, Q.labels + 2)
  }

  /** `EqualityExpr::Emit`: `==` through `EmitEqual`, `!=` through `EmitNotEqual`. */
  function EqualityCode(e: Expr, t: nat, l: nat): (r: Emitted)
    requires e.Equality? && WellFormed(e)
    ensures r.result.Some?
    decreases e, 1, 0
  {
    if !e.negated then EqualCode(e, t, l) else NegatedCode(EqualCode(e, t + 1, l + 2), t, l)
  }

  /** `LogicalExpr::Emit`: `&&` and `||` on their operands, `!` through two labels. */
  function LogicalCode(e: Expr, t: nat, l: nat): (r: Emitted)
    requires (e.Logical? || e.LogicalNot?) && WellFormed(e)
    ensures r.result.Some?
    decreases e, 1, 0
  {
    if e.LogicalNot? then NegatedCode(ExprCode(e.right, t + 1, l + 2), t, l)
    else
      var A := ExprCode(e.left, t, l);
      BinaryTail(if e.logic == And then "&&" else "||", A, ExprCode(e.right, t + A.temps, l + A.labels), t)
  }

  /** The end of `ArrayAccess::EmitAddr` once base and subscript are emitted: the check, then the address. */
  function AddressTailCode(arr: Location, sub: Location, t: nat, l: nat): seq<Instr>
  {
    SubscriptCheckCode(arr, sub, t, l) + ElementAddressCode(arr, sub, t + 8)
  }

  /**
   * `ArrayAccess::EmitAddr`: base, subscript, the subscript check, then the
   * element address base + (subscript * VarSize + VarSize).
   */
  function AddressCode(e: Expr, t: nat, l: nat): (r: Emitted)
    requires e.ArrayAccess? && WellFormed(e)
    ensures r.temps >= 12 && r.result == Some(Temp(t + r.temps - 1))
    decreases e, 0, 0
  {
    var B := ExprCode(e.base, t, l);
    var S := ExprCode(e.subscript, t + B.temps, l + B.labels);
    var u := t + B.temps + S.temps;
    Emitted(B.code + S.code + AddressTailCode(B.result.value, S.result.value, u, l + B.labels + S.labels),
            Some(Temp(u + 11)), B.temps + S.temps + 12, B.labels + S.labels + 1)
  }

  /** `ArrayAccess::Emit`: the element read at its address. */
  function ArrayAccessCode(e: Expr, t: nat, l: nat): (r: Emitted)
    requires e.ArrayAccess? && WellFormed(e)
    ensures r.result.Some?
    decreases e, 1, 0
  {
    var X := AddressCode(e, t, l);
    Emitted(X.code + [ElementLoad(X.result.value, t + X.temps)], Some(Temp(t + X.temps)), X.temps + 1, X.labels)
  }

  /**
   * What `AssignExpr::Emit` emits for its left side `a` once the right side's
   * value is in `v`: `EmitStore` when `a` is an lvalue (the element's address
   * and a store there, or a store into the variable), otherwise `a`'s own
   * code and a copy into wherever that leaves its value.
   */
  function TargetCode(a: Expr, v: Location, t: nat, l: nat): (r: Emitted)
    requires Valued(a) && WellFormed(a)
    ensures r.result.Some?
    decreases a, 3, 0
  {
    if a.ArrayAccess? then
      var X := AddressCode(a, t, l);
      var addr := X.result.value;
      Emitted(X.code + [Store(addr, v, 0), ElementLoad(addr, t + X.temps)], Some(Temp(t + X.temps)), X.temps + 1, X.labels)
    else if a.FieldAccess? then
      if a.ref.Placed? then Emitted([Assign(a.ref.loc, v)], Some(a.ref.loc), 0, 0)
      else Emitted([Store(ThisLoc(), v, a.ref.offset)], Some(ThisLoc()), 0, 0)
    else if a.FieldOfField? then
      Emitted([Store(a.baseLoc, v, a.offset)], Some(a.baseLoc), 0, 0)
    else
      var L := ExprCode(a, t, l);
      Emitted(L.code + [Assign(L.result.value, v)], L.result, L.temps, L.labels)
  }

  /** `AssignExpr::Emit`: the right side first, then the left side as `TargetCode` says. */
  function AssignCode(e: Expr, t: nat, l: nat): (r: Emitted)
    requires e.AssignExpr? && WellFormed(e)
    ensures r.result.Some?
    decreases e, 1, 0
  {
    var R := ExprCode(e.right, t, l);
    var S := TargetCode(e.left, R.result.value, t + R.temps, l + R.labels);
    Emitted(R.code + S.code, S.result, R.temps + S.temps, R.labels + S.labels)
  }

  /** `Call::EmitArrayLength`: the length word at the array's base. */
  function ArrayLengthCode(e: Expr, t: nat, l: nat): (r: Emitted)
    requires e.ArrayLength? && WellFormed(e)
    ensures r.result.Some?
    decreases e, 1, 0
  {
    var A := ExprCode(e.base, t, l);
    Emitted(A.code + [Load(Temp(t + A.temps), A.result.value, 0)], Some(Temp(t + A.temps)), A.temps + 1, A.labels)
  }

  /** `NewArrayExpr::Emit`: the size, then the word size, the size check and the allocation. */
  function NewArrayExprCode(e: Expr, t: nat, l: nat): (r: Emitted)
    requires e.NewArrayExpr? && WellFormed(e)
    ensures r.result.Some?
    decreases e, 1, 0
  {
    var S := ExprCode(e.size, t, l);
    var u := t + S.temps;
    Emitted(S.code + NewArrayCode(S.result.value, u, l + S.labels), Some(Temp(u + 8)), S.temps + 9, S.labels + 1)
  }

  /** The first `n` actuals of a call, in order. */
  function ActualsCode(e: Expr, n: nat, t: nat, l: nat): (r: EmittedList)
    requires e.Call? && WellFormed(e) && n <= |e.actuals|
    ensures |r.results| == n
    decreases e, 0, n
  {
    if n == 0 then EmittedList([], [], 0, 0)
    else
      var P := ActualsCode(e, n - 1, t, l);
      var X := ExprCode(e.actuals[n - 1], t + P.temps, l + P.labels);
      EmittedList(P.code + X.code, P.results + [X.result.value], P.temps + X.temps, P.labels + X.labels)
  }

  /** The pushes of `Call::EmitLabel`: last parameter first, so the first ends up on top. */
  function Pushes(params: seq<Location>): (r: seq<Instr>)
    ensures |r| == |params|
  {
    if params == [] then [] else Pushes(params[1..]) + [PushParam(params[0])]
  }

  /**
   * What `Call::EmitLabel` emits once the actuals are pushed: a direct call
   * and a pop of their words, or the receiver, its push, the two loads of
   * `EmitDynamicDispatch`, the indirect call and a pop that includes the receiver.
   */
  function InvokeCode(e: Expr, t: nat, l: nat): (r: Emitted)
    requires e.Call? && WellFormed(e)
    ensures e.hasReturn ==> r.result.Some?
    decreases e, 0, 1
  {
    var n := |e.actuals|;
    match e.callee
    case Function(name) =>
      var ret := if e.hasReturn then Some(Temp(t)) else None;
      Emitted([LCall(ret, name), PopParams(VarSize * n)], ret, if e.hasReturn then 1 else 0, 0)
    case Method(receiver, offset) =>
      var R := if receiver.Some? then ExprCode(receiver.value, t, l) else Emitted([], Some(ThisLoc()), 0, 0);
      var b := R.result.value;
      var u := t + R.temps;
      var ret := if e.hasReturn then Some(Temp(u + 2)) else None;
      Emitted(R.code + [PushParam(b), Load(Temp(u), b, 0), Load(Temp(u + 1), Temp(u), offset),
                        ACall(ret, Temp(u + 1)), PopParams(VarSize * (n + 1))],
              ret, R.temps + 2 + (if e.hasReturn then 1 else 0), R.labels)
  }

  /** `Call::EmitLabel`: every actual in order, their pushes from the last one down, then the call itself. */
  function CallCode(e: Expr, t: nat, l: nat): (r: Emitted)
    requires e.Call? && WellFormed(e)
    ensures e.hasReturn ==> r.result.Some?
    decreases e, 1, 0
  {
    var A := ActualsCode(e, |e.actuals|, t, l);
    var T := InvokeCode(e, t + A.temps, l + A.labels);
    Emitted(A.code + Pushes(A.results) + T.code, T.result, A.temps + T.temps, A.labels + T.labels)
  }

  // ----- the estimate is exact -----

  /** The estimate for `e` is one word per temporary its code draws when emitted at counters `t` and `l`. */
  predicate TempsMatch(e: Expr, t: nat, l: nat)
    requires WellFormed(e)
  {
    ExprBytes(e) == VarSize * ExprCode(e, t, l).temps
  }

  /**
   * `GetMemBytes` is exact: the bytes it estimates for an expression are
   * the words of the temporaries emitting it draws, wherever the counters stand.
   */
  lemma {:induction false} BytesMatchTemps(e: Expr, t: nat, l: nat)
    requires WellFormed(e)
    ensures TempsMatch(e, t, l)
    decreases e, 2, 0
  {
    if IsOperator(e) {
      OperatorBytesMatchTemps(e, t, l);
    } else if !IsLeaf(e) {
      AccessBytesMatchTemps(e, t, l);
    }
  }

  lemma {:induction false} OperatorBytesMatchTemps(e: Expr, t: nat, l: nat)
    requires IsOperator(e) && WellFormed(e)
    ensures ExprBytes(e) == VarSize * ExprCode(e, t, l).temps
    decreases e, 1, 2
  {
    match e
    case Arithmetic(_, _, _) => ArithmeticBytesMatchTemps(e, t, l);
    case UnaryArithmetic(_, _) => ArithmeticBytesMatchTemps(e, t, l);
    case Relational(_, _, _) => RelationalBytesMatchTemps(e, t, l);
    case Equality(_, _, _, _) => EqualityBytesMatchTemps(e, t, l);
    case Logical(_, _, _) => LogicalBytesMatchTemps(e, t, l);
    case LogicalNot(_) => LogicalBytesMatchTemps(e, t, l);
  }

  lemma {:induction false} AccessBytesMatchTemps(e: Expr, t: nat, l: nat)
    requires !IsLeaf(e) && !IsOperator(e) && WellFormed(e)
    ensures ExprBytes(e) == VarSize * ExprCode(e, t, l).temps
    decreases e, 1, 2
  {
    match e
    case AssignExpr(_, _) => AssignBytesMatchTemps(e, t, l);
    case ArrayAccess(_, _) => AddrBytesMatchTemps(e, t, l);
    case Call(_, _, _) => CallBytesMatchTemps(e, t, l);
    case ArrayLength(a) => BytesMatchTemps(a, t, l);
    case NewArrayExpr(s) => BytesMatchTemps(s, t, l);
  }

  lemma {:induction false} ArithmeticBytesMatchTemps(e: Expr, t: nat, l: nat)
    requires (e.Arithmetic? || e.UnaryArithmetic?) && WellFormed(e)
    ensures ExprBytes(e) == VarSize * ArithmeticCode(e, t, l).temps
    decreases e, 1, 0
  {
    if e.Arithmetic? {
      var x, y := e.left, e.right;
      var A := ExprCode(x, t, l);
      var t2, l2 := t + A.temps, l + A.labels;
      BytesMatchTemps(x, t, l);
      BytesMatchTemps(y, t2, l2);
    } else {
      var y := e.right;
      BytesMatchTemps(y, t, l);
    }
  }

  lemma {:induction false} RelationalBytesMatchTemps(e: Expr, t: nat, l: nat)
    requires e.Relational? && WellFormed(e)
    ensures ExprBytes(e) == VarSize * RelationalCode(e, t, l).temps
    decreases e, 1, 0
  {
    if e.rel == Lt || e.rel == Le {
      ForwardBytesMatchTemps(e, t, l);
    } else {
      SwappedBytesMatchTemps(e, t, l);
    }
  }

  /** `RelationalBytesMatchTemps` for `<` and `<=`. */
  lemma {:induction false} ForwardBytesMatchTemps(e: Expr, t: nat, l: nat)
    requires e.Relational? && (e.rel == Lt || e.rel == Le) && WellFormed(e)
    ensures ExprBytes(e) == VarSize * RelationalCode(e, t, l).temps
    decreases e, 0, 0
  {
    var x, y := e.left, e.right;
    var A := ExprCode(x, t, l);
    var t2, l2 := t + A.temps, l + A.labels;
    BytesMatchTemps(x, t, l);
    BytesMatchTemps(y, t2, l2);
  }

  /** `RelationalBytesMatchTemps` for `>` and `>=`, whose operands are emitted swapped. */
  lemma {:induction false} SwappedBytesMatchTemps(e: Expr, t: nat, l: nat)
    requires e.Relational? && (e.rel == Gt || e.rel == Ge) && WellFormed(e)
    ensures ExprBytes(e) == VarSize * RelationalCode(e, t, l).temps
    decreases e, 0, 0
  {
    var x, y := e.left, e.right;
    var B := ExprCode(y, t, l);
    var t2, l2 := t + B.temps, l + B.labels;
    BytesMatchTemps(y, t, l);
    BytesMatchTemps(x, t2, l2);
  }

  lemma {:induction false} EqualityBytesMatchTemps(e: Expr, t: nat, l: nat)
    requires e.Equality? && WellFormed(e)
    ensures ExprBytes(e) == VarSize * EqualityCode(e, t, l).temps
    decreases e, 1, 0
  {
    if e.negated {
      NotEqualBytesMatchTemps(e, t, l);
    } else {
      EqualBytesMatchTemps(e, t, l);
    }
  }

  /** `EqualityBytesMatchTemps` for `==`. */
  lemma {:induction false} EqualBytesMatchTemps(e: Expr, t: nat, l: nat)
    requires e.Equality? && !e.negated && WellFormed(e)
    ensures ExprBytes(e) == VarSize * EqualCode(e, t, l).temps
    decreases e, 0, 1
  {
    var x, y := e.left, e.right;
    var A := ExprCode(x, t, l);
    var t2, l2 := t + A.temps, l + A.labels;
    BytesMatchTemps(x, t, l);
    BytesMatchTemps(y, t2, l2);
  }

  /** `EqualityBytesMatchTemps` for `!=`, whose comparison is emitted after two labels and the result temporary. */
  lemma {:induction false} NotEqualBytesMatchTemps(e: Expr, t: nat, l: nat)
    requires e.Equality? && e.negated && WellFormed(e)
    ensures ExprBytes(e) == VarSize * EqualityCode(e, t, l).temps
    decreases e, 0, 1
  {
    var x, y := e.left, e.right;
    var t1, l1 := t + 1, l + 2;
    var A := ExprCode(x, t1, l1);
    var t2, l2 := t1 + A.temps, l1 + A.labels;
    BytesMatchTemps(x, t1, l1);
    BytesMatchTemps(y, t2, l2);
  }

  lemma {:induction false} LogicalBytesMatchTemps(e: Expr, t: nat, l: nat)
    requires (e.Logical? || e.LogicalNot?) && WellFormed(e)
    ensures ExprBytes(e) == VarSize * LogicalCode(e, t, l).temps
    decreases e, 1, 0
  {
    if e.LogicalNot? {
      var y := e.right;
      var t2, l2 := t + 1, l + 2;
      BytesMatchTemps(y, t2, l2);
    } else {
      var x, y := e.left, e.right;
      var A := ExprCode(x, t, l);
      var t2, l2 := t + A.temps, l + A.labels;
      BytesMatchTemps(x, t, l);
      BytesMatchTemps(y, t2, l2);
    }
  }

  lemma {:induction false} AssignBytesMatchTemps(e: Expr, t: nat, l: nat)
    requires e.AssignExpr? && WellFormed(e)
    ensures ExprBytes(e) == VarSize * AssignCode(e, t, l).temps
    decreases e, 1, 0
  {
    var x, y := e.left, e.right;
    var R := ExprCode(y, t, l);
    var v, t2, l2 := R.result.value, t + R.temps, l + R.labels;
    BytesMatchTemps(y, t, l);
    TargetBytesMatchTemps(x, v, t2, l2);
  }

  lemma {:induction false} CallBytesMatchTemps(e: Expr, t: nat, l: nat)
    requires e.Call? && WellFormed(e)
    ensures ExprBytes(e) == VarSize * CallCode(e, t, l).temps
    decreases e, 1, 0
  {
    var n := |e.actuals|;
    var A := ActualsCode(e, n, t, l);
    ActualsBytesMatchTemps(e, n, t, l);
    if e.callee.Method? && e.callee.receiver.Some? {
      var r := e.callee.receiver.value;
      var t2, l2 := t + A.temps, l + A.labels;
      BytesMatchTemps(r, t2, l2);
    }
  }

  /** The same for `GetMemBytesAddr` and the address code. */
  lemma {:induction false} AddrBytesMatchTemps(e: Expr, t: nat, l: nat)
    requires e.ArrayAccess? && WellFormed(e)
    ensures AddrBytes(e) == VarSize * AddressCode(e, t, l).temps
    decreases e, 0, 0
  {
    var x, y := e.base, e.subscript;
    var B := ExprCode(x, t, l);
    var t2, l2 := t + B.temps, l + B.labels;
    BytesMatchTemps(x, t, l);
    BytesMatchTemps(y, t2, l2);
  }

  /** The left side's share of the estimate is one word per temporary its code draws. */
  predicate TargetTempsMatch(a: Expr, v: Location, t: nat, l: nat)
    requires Valued(a) && WellFormed(a)
  {
    TargetBytes(a) == VarSize * TargetCode(a, v, t, l).temps
  }

  lemma {:induction false} TargetBytesMatchTemps(a: Expr, v: Location, t: nat, l: nat)
    requires Valued(a) && WellFormed(a)
    ensures TargetTempsMatch(a, v, t, l)
    decreases a, 3, 0
  {
    if a.ArrayAccess? {
      AddrBytesMatchTemps(a, t, l);
    } else if !a.FieldAccess? && !a.FieldOfField? {
      BytesMatchTemps(a, t, l);
    }
  }

  /** The same for the first `n` actuals of a call. */
  lemma {:induction false} ActualsBytesMatchTemps(e: Expr, n: nat, t: nat, l: nat)
    requires e.Call? && WellFormed(e) && n <= |e.actuals|
    ensures ActualsBytes(e, n) == VarSize * ActualsCode(e, n, t, l).temps
    decreases e, 0, n
  {
    if n > 0 {
      var k := n - 1;
      var y := e.actuals[k];
      var P := ActualsCode(e, k, t, l);
      var t2, l2 := t + P.temps, l + P.labels;
      ActualsBytesMatchTemps(e, k, t, l);
      BytesMatchTemps(y, t2, l2);
    }
  }

  // ----- the emitter -----

  /** Regrouping appended code: what the emitter appends piece by piece is the spec's code appended whole. */
  lemma Regroup(c: seq<Instr>, x: seq<Instr>, y: seq<Instr>)
    ensures c + x + y == c + (x + y)
  {
  }

  /**
   * `Expr::Emit`: appends the expression's code and returns where its value
   * is; the temporaries it draws take exactly the frame bytes `GetMemBytes`
   * estimated for it.
   */
  method EmitExpr(cg: CodeGenerator, e: Expr) returns (loc: Option<Location>)
    requires WellFormed(e)
    modifies cg
    ensures cg.code == old(cg.code) + ExprCode(e, old(cg.nextTemp), old(cg.nextLabel)).code
    ensures cg.nextTemp == old(cg.nextTemp) + ExprCode(e, old(cg.nextTemp), old(cg.nextLabel)).temps
    ensures cg.nextLabel == old(cg.nextLabel) + ExprCode(e, old(cg.nextTemp), old(cg.nextLabel)).labels
    ensures loc == ExprCode(e, old(cg.nextTemp), old(cg.nextLabel)).result
    ensures cg.frameBytes == old(cg.frameBytes) + VarSize * (cg.nextTemp - old(cg.nextTemp))
    decreases e, 2, 0
  {
    if IsLeaf(e) {
      loc := EmitLeaf(cg, e);
    } else if IsOperator(e) {
      loc := EmitOperator(cg, e);
    } else {
      loc := EmitAccess(cg, e);
    }
  }

  /** The operators: arithmetic, relational, equality and logical expressions. */
  predicate IsOperator(e: Expr)
  {
    e.Arithmetic? || e.UnaryArithmetic? || e.Relational? || e.Equality? || e.Logical? || e.LogicalNot?
  }

  /** `Emit` of the operators. */
  method EmitOperator(cg: CodeGenerator, e: Expr) returns (loc: Option<Location>)
    requires IsOperator(e) && WellFormed(e)
    modifies cg
    ensures cg.code == old(cg.code) + ExprCode(e, old(cg.nextTemp), old(cg.nextLabel)).code
    ensures cg.nextTemp == old(cg.nextTemp) + ExprCode(e, old(cg.nextTemp), old(cg.nextLabel)).temps
    ensures cg.nextLabel == old(cg.nextLabel) + ExprCode(e, old(cg.nextTemp), old(cg.nextLabel)).labels
    ensures loc == ExprCode(e, old(cg.nextTemp), old(cg.nextLabel)).result
    ensures cg.frameBytes == old(cg.frameBytes) + VarSize * (cg.nextTemp - old(cg.nextTemp))
    decreases e, 1, 2
  {
    match e
    case Arithmetic(_, _, _) =>
      loc := EmitBinary(cg, e);
    case UnaryArithmetic(_, _) =>
      loc := EmitUnary(cg, e);
    case Relational(_, _, _) =>
      loc := EmitRelational(cg, e);
    case Equality(_, _, _, _) =>
      if e.negated {
        loc := EmitNotEqual(cg, e);
      } else {
        var d := EmitEqual(cg, e);
        loc := Some(d);
      }
    case Logical(_, _, _) =>
      loc := EmitAndOr(cg, e);
    case LogicalNot(_) =>
      loc := EmitNot(cg, e);
  }

  /** `Emit` of assignments, element and length reads, array allocations and calls. */
  method EmitAccess(cg: CodeGenerator, e: Expr) returns (loc: Option<Location>)
    requires !IsLeaf(e) && !IsOperator(e) && WellFormed(e)
    modifies cg
    ensures cg.code == old(cg.code) + ExprCode(e, old(cg.nextTemp), old(cg.nextLabel)).code
    ensures cg.nextTemp == old(cg.nextTemp) + ExprCode(e, old(cg.nextTemp), old(cg.nextLabel)).temps
    ensures cg.nextLabel == old(cg.nextLabel) + ExprCode(e, old(cg.nextTemp), old(cg.nextLabel)).labels
    ensures loc == ExprCode(e, old(cg.nextTemp), old(cg.nextLabel)).result
    ensures cg.frameBytes == old(cg.frameBytes) + VarSize * (cg.nextTemp - old(cg.nextTemp))
    decreases e, 1, 2
  {
    match e
    case AssignExpr(_, _) =>
      loc := EmitAssign(cg, e);
    case ArrayAccess(_, _) =>
      loc := EmitArrayAccess(cg, e);
    case ArrayLength(_) =>
      loc := EmitArrayLength(cg, e);
    case NewArrayExpr(_) =>
      loc := EmitNewArray(cg, e);
    case Call(_, _, _) =>
      loc := EmitCall(cg, e);
  }

  /** The expressions without operands, which load a constant, a variable or a builtin's result. */
  predicate IsLeaf(e: Expr)
  {
    || e.IntConstant? || e.BoolConstant? || e.StringConstant? || e.NullConstant? || e.This?
    || e.FieldAccess? || e.FieldOfField? || e.ReadIntegerExpr? || e.ReadLineExpr? || e.NewExpr?
  }

  /** `Emit` of the expressions without operands. */
  method EmitLeaf(cg: CodeGenerator, e: Expr) returns (loc: Option<Location>)
    requires IsLeaf(e)
    modifies cg
    ensures cg.code == old(cg.code) + ExprCode(e, old(cg.nextTemp), old(cg.nextLabel)).code
    ensures cg.nextTemp == old(cg.nextTemp) + ExprCode(e, old(cg.nextTemp), old(cg.nextLabel)).temps
    ensures cg.nextLabel == old(cg.nextLabel) + ExprCode(e, old(cg.nextTemp), old(cg.nextLabel)).labels
    ensures loc == ExprCode(e, old(cg.nextTemp), old(cg.nextLabel)).result
    ensures cg.frameBytes == old(cg.frameBytes) + VarSize * (cg.nextTemp - old(cg.nextTemp))
  {
    match e
    case IntConstant(i) =>
      var d := cg.GenLoadConstant(i);
      loc := Some(d);
    case BoolConstant(b) =>
      var d := cg.GenLoadConstant(if b then 1 else 0);
      loc := Some(d);
    case StringConstant(s) =>
      var d := cg.GenLoadStrConstant(s);
      loc := Some(d);
    case NullConstant =>
      var d := cg.GenLoadConstant(0);
      loc := Some(d);
    case This =>
      loc := Some(ThisLoc());
    case FieldAccess(ref) =>
      // `FieldAccess::EmitMemLoc`
      if ref.Placed? {
        loc := Some(ref.loc);
      } else {
        var d := cg.GenLoad(ThisLoc(), ref.offset);
        loc := Some(d);
      }
    case FieldOfField(baseLoc, offset) =>
      var d := cg.GenLoad(baseLoc, offset);
      loc := Some(d);
    case ReadIntegerExpr =>
      loc := cg.GenBuiltInCall(ReadInteger, []);
    case ReadLineExpr =>
      loc := cg.GenBuiltInCall(ReadLine, []);
    case NewExpr(name, bytes) =>
      var d := EmitNew(cg, name, bytes);
      loc := Some(d);
  }

  /** `NewExpr::Emit` for class `name` whose instances take `bytes` bytes. */
  method EmitNew(cg: CodeGenerator, name: string, bytes: int) returns (mem: Location)
    modifies cg
    ensures cg.code == old(cg.code) + NewObjectCode(name, bytes, old(cg.nextTemp))
    ensures mem == Temp(old(cg.nextTemp) + 3)
    ensures cg.nextTemp == old(cg.nextTemp) + 5 && cg.nextLabel == old(cg.nextLabel)
    ensures cg.frameBytes == old(cg.frameBytes) + 5 * VarSize
  {
    var size := cg.GenLoadConstant(bytes);
    var word := cg.GenLoadConstant(VarSize);
    var total := cg.GenBinaryOp("+", word, size);
    var block := cg.GenBuiltInCall(Alloc, [total]);
    var vtable := cg.GenLoadLabel(name);
    cg.Append(Store(block.value, vtable, 0));
    mem := block.value;
  }

  /** The code of two operands emitted one after the other, `a` first. */
  function OperandPair(a: Expr, b: Expr, t: nat, l: nat): (r: (Emitted, Emitted))
    requires Valued(a) && WellFormed(a) && Valued(b) && WellFormed(b)
    ensures r.0.result.Some? && r.1.result.Some?
  {
    var A := ExprCode(a, t, l);
    (A, ExprCode(b, t + A.temps, l + A.labels))
  }

  /** The two `Emit` calls every binary operator starts with. */
  method EmitOperands(cg: CodeGenerator, e: Expr, a: Expr, b: Expr) returns (x: Location, y: Location)
    requires a < e && b < e && Valued(a) && WellFormed(a) && Valued(b) && WellFormed(b)
    modifies cg
    ensures
      var P := OperandPair(a, b, old(cg.nextTemp), old(cg.nextLabel));
      && Some(x) == P.0.result && Some(y) == P.1.result
      && cg.code == old(cg.code) + (P.0.code + P.1.code)
      && cg.nextTemp == old(cg.nextTemp) + P.0.temps + P.1.temps
      && cg.nextLabel == old(cg.nextLabel) + P.0.labels + P.1.labels
    ensures cg.frameBytes == old(cg.frameBytes) + VarSize * (cg.nextTemp - old(cg.nextTemp))
    decreases e, 0, 0
  {
    ghost var P := OperandPair(a, b, cg.nextTemp, cg.nextLabel);
    var first := EmitExpr(cg, a);
    assert cg.code == old(cg.code) + P.0.code;
    var second := EmitExpr(cg, b);
    assert cg.code == old(cg.code) + P.0.code + P.1.code;
    x, y := first.value, second.value;
    Regroup(old(cg.code), P.0.code, P.1.code);
  }

  /** `ArithmeticExpr::EmitBinary`. */
  method EmitBinary(cg: CodeGenerator, e: Expr) returns (loc: Option<Location>)
    requires e.Arithmetic? && WellFormed(e)
    modifies cg
    ensures cg.code == old(cg.code) + ArithmeticCode(e, old(cg.nextTemp), old(cg.nextLabel)).code
    ensures cg.nextTemp == old(cg.nextTemp) + ArithmeticCode(e, old(cg.nextTemp), old(cg.nextLabel)).temps
    ensures cg.nextLabel == old(cg.nextLabel) + ArithmeticCode(e, old(cg.nextTemp), old(cg.nextLabel)).labels
    ensures loc == ArithmeticCode(e, old(cg.nextTemp), old(cg.nextLabel)).result
    ensures cg.frameBytes == old(cg.frameBytes) + VarSize * (cg.nextTemp - old(cg.nextTemp))
    decreases e, 1, 0
  {
    ghost var P := OperandPair(e.left, e.right, cg.nextTemp, cg.nextLabel);
    var x, y := EmitOperands(cg, e, e.left, e.right);
    var d := cg.GenBinaryOp(e.op, x, y);
    loc := Some(d);
    Regroup(old(cg.code), P.0.code + P.1.code, [BinaryOp(d, e.op, x, y)]);
  }

  /** `ArithmeticExpr::EmitUnary`: `0 op right`. */
  method EmitUnary(cg: CodeGenerator, e: Expr) returns (loc: Option<Location>)
    requires e.UnaryArithmetic? && WellFormed(e)
    modifies cg
    ensures cg.code == old(cg.code) + ArithmeticCode(e, old(cg.nextTemp), old(cg.nextLabel)).code
    ensures cg.nextTemp == old(cg.nextTemp) + ArithmeticCode(e, old(cg.nextTemp), old(cg.nextLabel)).temps
    ensures cg.nextLabel == old(cg.nextLabel) + ArithmeticCode(e, old(cg.nextTemp), old(cg.nextLabel)).labels
    ensures loc == ArithmeticCode(e, old(cg.nextTemp), old(cg.nextLabel)).result
    ensures cg.frameBytes == old(cg.frameBytes) + VarSize * (cg.nextTemp - old(cg.nextTemp))
    decreases e, 1, 0
  {
    ghost var A := ExprCode(e.right, cg.nextTemp, cg.nextLabel);
    var r := EmitExpr(cg, e.right);
    var zero := cg.GenLoadConstant(0);
    var d := cg.GenBinaryOp(e.op, zero, r.value);
    loc := Some(d);
    Regroup(old(cg.code) + A.code, [LoadConst(zero, 0)], [BinaryOp(d, e.op, zero, r.value)]);
    Regroup(old(cg.code), A.code, [LoadConst(zero, 0), BinaryOp(d, e.op, zero, r.value)]);
  }

  /** `RelationalExpr::Emit`: `EmitLess` or `EmitLessEqual`, on the operands swapped for `>` and `>=`. */
  method EmitRelational(cg: CodeGenerator, e: Expr) returns (loc: Option<Location>)
    requires e.Relational? && WellFormed(e)
    modifies cg
    ensures cg.code == old(cg.code) + RelationalCode(e, old(cg.nextTemp), old(cg.nextLabel)).code
    ensures cg.nextTemp == old(cg.nextTemp) + RelationalCode(e, old(cg.nextTemp), old(cg.nextLabel)).temps
    ensures cg.nextLabel == old(cg.nextLabel) + RelationalCode(e, old(cg.nextTemp), old(cg.nextLabel)).labels
    ensures loc == RelationalCode(e, old(cg.nextTemp), old(cg.nextLabel)).result
    ensures cg.frameBytes == old(cg.frameBytes) + VarSize * (cg.nextTemp - old(cg.nextTemp))
    decreases e, 1, 1
  {
    if e.rel == Lt || e.rel == Le {
      loc := EmitForward(cg, e);
    } else {
      loc := EmitSwapped(cg, e);
    }
  }

  /** `RelationalExpr::Emit` for `<` and `<=`: the operands in their own order. */
  method EmitForward(cg: CodeGenerator, e: Expr) returns (loc: Option<Location>)
    requires e.Relational? && (e.rel == Lt || e.rel == Le) && WellFormed(e)
    modifies cg
    ensures cg.code == old(cg.code) + RelationalCode(e, old(cg.nextTemp), old(cg.nextLabel)).code
    ensures cg.nextTemp == old(cg.nextTemp) + RelationalCode(e, old(cg.nextTemp), old(cg.nextLabel)).temps
    ensures cg.nextLabel == old(cg.nextLabel) + RelationalCode(e, old(cg.nextTemp), old(cg.nextLabel)).labels
    ensures loc == RelationalCode(e, old(cg.nextTemp), old(cg.nextLabel)).result
    ensures cg.frameBytes == old(cg.frameBytes) + VarSize * (cg.nextTemp - old(cg.nextTemp))
    decreases e, 1, 0
  {
    if e.rel == Lt {
      loc := EmitLess(cg, e, e.left, e.right);
    } else {
      loc := EmitLessEqual(cg, e, e.left, e.right);
    }
  }

  /** `RelationalExpr::Emit` for `>` and `>=`: the operands swapped. */
  method EmitSwapped(cg: CodeGenerator, e: Expr) returns (loc: Option<Location>)
    requires e.Relational? && (e.rel == Gt || e.rel == Ge) && WellFormed(e)
    modifies cg
    ensures cg.code == old(cg.code) + RelationalCode(e, old(cg.nextTemp), old(cg.nextLabel)).code
    ensures cg.nextTemp == old(cg.nextTemp) + RelationalCode(e, old(cg.nextTemp), old(cg.nextLabel)).temps
    ensures cg.nextLabel == old(cg.nextLabel) + RelationalCode(e, old(cg.nextTemp), old(cg.nextLabel)).labels
    ensures loc == RelationalCode(e, old(cg.nextTemp), old(cg.nextLabel)).result
    ensures cg.frameBytes == old(cg.frameBytes) + VarSize * (cg.nextTemp - old(cg.nextTemp))
    decreases e, 1, 0
  {
    if e.rel == Gt {
      loc := EmitLess(cg, e, e.right, e.left);
    } else {
      loc := EmitLessEqual(cg, e, e.right, e.left);
    }
  }

  /** `RelationalExpr::EmitLess(l, r)`. */
  method EmitLess(cg: CodeGenerator, e: Expr, a: Expr, b: Expr) returns (loc: Option<Location>)
    requires a < e && b < e && Valued(a) && WellFormed(a) && Valued(b) && WellFormed(b)
    modifies cg
    ensures
      var P := OperandPair(a, b, old(cg.nextTemp), old(cg.nextLabel));
      var r := BinaryTail("<", P.0, P.1, old(cg.nextTemp));
      && cg.code == old(cg.code) + r.code
      && cg.nextTemp == old(cg.nextTemp) + r.temps
      && cg.nextLabel == old(cg.nextLabel) + r.labels
      && loc == r.result
    ensures cg.frameBytes == old(cg.frameBytes) + VarSize * (cg.nextTemp - old(cg.nextTemp))
    decreases e, 0, 1
  {
    ghost var P := OperandPair(a, b, cg.nextTemp, cg.nextLabel);
    var x, y := EmitOperands(cg, e, a, b);
    var d := cg.GenBinaryOp("<", x, y);
    loc := Some(d);
    Regroup(old(cg.code), P.0.code + P.1.code, [BinaryOp(d, "<", x, y)]);
  }

  /** `RelationalExpr::EmitLessEqual(l, r)`. */
  method EmitLessEqual(cg: CodeGenerator, e: Expr, a: Expr, b: Expr) returns (loc: Option<Location>)
    requires a < e && b < e && Valued(a) && WellFormed(a) && Valued(b) && WellFormed(b)
    modifies cg
    ensures
      var P := OperandPair(a, b, old(cg.nextTemp), old(cg.nextLabel));
      var r := LessEqualTail(P.0, P.1, old(cg.nextTemp));
      && cg.code == old(cg.code) + r.code
      && cg.nextTemp == old(cg.nextTemp) + r.temps
      && cg.nextLabel == old(cg.nextLabel) + r.labels
      && loc == r.result
    ensures cg.frameBytes == old(cg.frameBytes) + VarSize * (cg.nextTemp - old(cg.nextTemp))
    decreases e, 0, 1
  {
    ghost var P := OperandPair(a, b, cg.nextTemp, cg.nextLabel);
    var x, y := EmitOperands(cg, e, a, b);
    ghost var u := cg.nextTemp;
    ghost var both := cg.code;
    var less := cg.GenBinaryOp("<", x, y);
    var equal := cg.GenBinaryOp("==", x, y);
    var d := cg.GenBinaryOp("||", less, equal);
    loc := Some(d);
    assert cg.code == both + [BinaryOp(Temp(u), "<", x, y), BinaryOp(Temp(u + 1), "==", x, y),
                              BinaryOp(Temp(u + 2), "||", Temp(u), Temp(u + 1))];
    Regroup(old(cg.code), P.0.code + P.1.code, cg.code[|both|..]);
  }

  /** `EqualityExpr::EmitEqual`: the string builtin when the left operand is a string, `==` otherwise. */
  method EmitEqual(cg: CodeGenerator, e: Expr) returns (equal: Location)
    requires e.Equality? && WellFormed(e)
    modifies cg
    ensures cg.code == old(cg.code) + EqualCode(e, old(cg.nextTemp), old(cg.nextLabel)).code
    ensures cg.nextTemp == old(cg.nextTemp) + EqualCode(e, old(cg.nextTemp), old(cg.nextLabel)).temps
    ensures cg.nextLabel == old(cg.nextLabel) + EqualCode(e, old(cg.nextTemp), old(cg.nextLabel)).labels
    ensures Some(equal) == EqualCode(e, old(cg.nextTemp), old(cg.nextLabel)).result
    ensures cg.frameBytes == old(cg.frameBytes) + VarSize * (cg.nextTemp - old(cg.nextTemp))
    decreases e, 0, 1
  {
    ghost var P := OperandPair(e.left, e.right, cg.nextTemp, cg.nextLabel);
    var x, y := EmitOperands(cg, e, e.left, e.right);
    if e.onStrings {
      var r := cg.GenBuiltInCall(StringEqual, [x, y]);
      equal := r.value;
    } else {
      equal := cg.GenBinaryOp("==", x, y);
    }
    Regroup(old(cg.code), P.0.code + P.1.code, [EqualInstr(e.onStrings, equal, x, y)]);
  }

  /** The tail of `EmitNotEqual` and `EmitNot`: `ret` := (`test` == 0), through the labels `l` and `l + 1`. */
  method EmitZeroTest(cg: CodeGenerator, test: Location, ret: Location, l: nat)
    modifies cg
    ensures cg.code == old(cg.code) + ZeroTestCode(test, ret, old(cg.nextTemp), l)
    ensures cg.nextTemp == old(cg.nextTemp) + 2 && cg.nextLabel == old(cg.nextLabel)
    ensures cg.frameBytes == old(cg.frameBytes) + 2 * VarSize
  {
    cg.Append(IfZ(test, Fresh(l + 1)));
    var zero := cg.GenLoadConstant(0);
    cg.Append(Assign(ret, zero));
    cg.Append(Goto(Fresh(l)));
    cg.Append(MkLabel(Fresh(l + 1)));
    var one := cg.GenLoadConstant(1);
    cg.Append(Assign(ret, one));
    cg.Append(MkLabel(Fresh(l)));
  }

  /** `EqualityExpr::EmitNotEqual`: two labels and the result first, then `EmitEqual` and its negation. */
  method EmitNotEqual(cg: CodeGenerator, e: Expr) returns (loc: Option<Location>)
    requires e.Equality? && e.negated && WellFormed(e)
    modifies cg
    ensures cg.code == old(cg.code) + NegatedCode(EqualCode(e, old(cg.nextTemp) + 1, old(cg.nextLabel) + 2), old(cg.nextTemp), old(cg.nextLabel)).code
    ensures cg.nextTemp == old(cg.nextTemp) + NegatedCode(EqualCode(e, old(cg.nextTemp) + 1, old(cg.nextLabel) + 2), old(cg.nextTemp), old(cg.nextLabel)).temps
    ensures cg.nextLabel == old(cg.nextLabel) + NegatedCode(EqualCode(e, old(cg.nextTemp) + 1, old(cg.nextLabel) + 2), old(cg.nextTemp), old(cg.nextLabel)).labels
    ensures loc == Some(Temp(old(cg.nextTemp)))
    ensures cg.frameBytes == old(cg.frameBytes) + VarSize * (cg.nextTemp - old(cg.nextTemp))
    decreases e, 1, 0
  {
    var retZero := cg.NewLabel();
    var retOne := cg.NewLabel();
    var ret := cg.GenTempVar();
    ghost var Q := EqualCode(e, cg.nextTemp, cg.nextLabel);
    var equal := EmitEqual(cg, e);
    EmitZeroTest(cg, equal, ret, retZero.id);
    loc := Some(ret);
    ghost var t2 := old(cg.nextTemp) + 1 + Q.temps;
    Regroup(old(cg.code), Q.code, ZeroTestCode(equal, ret, t2, retZero.id));
  }

  /** `LogicalExpr::EmitAnd` and `LogicalExpr::EmitOr`, which differ only in the operator. */
  method EmitAndOr(cg: CodeGenerator, e: Expr) returns (loc: Option<Location>)
    requires e.Logical? && WellFormed(e)
    modifies cg
    ensures cg.code == old(cg.code) + LogicalCode(e, old(cg.nextTemp), old(cg.nextLabel)).code
    ensures cg.nextTemp == old(cg.nextTemp) + LogicalCode(e, old(cg.nextTemp), old(cg.nextLabel)).temps
    ensures cg.nextLabel == old(cg.nextLabel) + LogicalCode(e, old(cg.nextTemp), old(cg.nextLabel)).labels
    ensures loc == LogicalCode(e, old(cg.nextTemp), old(cg.nextLabel)).result
    ensures cg.frameBytes == old(cg.frameBytes) + VarSize * (cg.nextTemp - old(cg.nextTemp))
    decreases e, 1, 0
  {
    ghost var P := OperandPair(e.left, e.right, cg.nextTemp, cg.nextLabel);
    var x, y := EmitOperands(cg, e, e.left, e.right);
    var op := if e.logic == And then "&&" else "||";
    var d := cg.GenBinaryOp(op, x, y);
    loc := Some(d);
    Regroup(old(cg.code), P.0.code + P.1.code, [BinaryOp(d, op, x, y)]);
  }

  /** `LogicalExpr::EmitNot`. */
  method EmitNot(cg: CodeGenerator, e: Expr) returns (loc: Option<Location>)
    requires e.LogicalNot? && WellFormed(e)
    modifies cg
    ensures cg.code == old(cg.code) + LogicalCode(e, old(cg.nextTemp), old(cg.nextLabel)).code
    ensures cg.nextTemp == old(cg.nextTemp) + LogicalCode(e, old(cg.nextTemp), old(cg.nextLabel)).temps
    ensures cg.nextLabel == old(cg.nextLabel) + LogicalCode(e, old(cg.nextTemp), old(cg.nextLabel)).labels
    ensures loc == LogicalCode(e, old(cg.nextTemp), old(cg.nextLabel)).result
    ensures cg.frameBytes == old(cg.frameBytes) + VarSize * (cg.nextTemp - old(cg.nextTemp))
    decreases e, 1, 0
  {
    var retZero := cg.NewLabel();
    var retOne := cg.NewLabel();
    var ret := cg.GenTempVar();
    ghost var Q := ExprCode(e.right, cg.nextTemp, cg.nextLabel);
    var r := EmitExpr(cg, e.right);
    EmitZeroTest(cg, r.value, ret, retZero.id);
    loc := Some(ret);
    Regroup(old(cg.code), Q.code, ZeroTestCode(r.value, ret, old(cg.nextTemp) + 1 + Q.temps, retZero.id));
  }

  /** `ArrayAccess::EmitRuntimeSubscriptCheck`. */
  method EmitSubscriptCheck(cg: CodeGenerator, arr: Location, sub: Location)
    modifies cg
    ensures cg.code == old(cg.code) + SubscriptCheckCode(arr, sub, old(cg.nextTemp), old(cg.nextLabel))
    ensures cg.nextTemp == old(cg.nextTemp) + 8 && cg.nextLabel == old(cg.nextLabel) + 1
    ensures cg.frameBytes == old(cg.frameBytes) + 8 * VarSize
  {
    var outside := EmitOutsideTest(cg, arr, sub);
    var passCheck := cg.NewLabel();
    cg.Append(IfZ(outside, passCheck));
    var msg := cg.GenLoadStrConstant(ErrArrOutOfBounds);
    var _ := cg.GenBuiltInCall(PrintString, [msg]);
    var _ := cg.GenBuiltInCall(Halt, []);
    cg.Append(MkLabel(passCheck));
  }

  /** The test of `ArrayAccess::EmitRuntimeSubscriptCheck`: `outside` is 1 when `sub` is not an index of `arr`. */
  method EmitOutsideTest(cg: CodeGenerator, arr: Location, sub: Location) returns (outside: Location)
    modifies cg
    ensures
      var t := old(cg.nextTemp);
      cg.code == old(cg.code) + [ LoadConst(Temp(t), 0),
                                  Load(Temp(t + 1), arr, 0),
                                  BinaryOp(Temp(t + 2), "<", sub, Temp(t)),
                                  BinaryOp(Temp(t + 3), "<", Temp(t + 1), sub),
                                  BinaryOp(Temp(t + 4), "==", Temp(t + 1), sub),
                                  BinaryOp(Temp(t + 5), "||", Temp(t + 3), Temp(t + 4)),
                                  BinaryOp(Temp(t + 6), "||", Temp(t + 5), Temp(t + 2)) ]
    ensures outside == Temp(old(cg.nextTemp) + 6)
    ensures cg.nextTemp == old(cg.nextTemp) + 7 && cg.nextLabel == old(cg.nextLabel)
    ensures cg.frameBytes == old(cg.frameBytes) + 7 * VarSize
  {
    var zero := cg.GenLoadConstant(0);
    var length := cg.GenLoad(arr, 0);
    var belowZero := cg.GenBinaryOp("<", sub, zero);
    var belowSub := cg.GenBinaryOp("<", length, sub);
    var equalSub := cg.GenBinaryOp("==", length, sub);
    var tooBig := cg.GenBinaryOp("||", belowSub, equalSub);
    outside := cg.GenBinaryOp("||", tooBig, belowZero);
  }

  /** The end of `ArrayAccess::EmitAddr`: base + (subscript * VarSize + VarSize). */
  method EmitElementAddress(cg: CodeGenerator, base: Location, sub: Location) returns (addr: Location)
    modifies cg
    ensures cg.code == old(cg.code) + ElementAddressCode(base, sub, old(cg.nextTemp))
    ensures addr == Temp(old(cg.nextTemp) + 3)
    ensures cg.nextTemp == old(cg.nextTemp) + 4 && cg.nextLabel == old(cg.nextLabel)
    ensures cg.frameBytes == old(cg.frameBytes) + 4 * VarSize
  {
    var word := cg.GenLoadConstant(VarSize);
    var scaled := cg.GenBinaryOp("*", sub, word);
    var offset := cg.GenBinaryOp("+", scaled, word);
    addr := cg.GenBinaryOp("+", base, offset);
  }

  /** `ArrayAccess::EmitAddr`: the element's address, after the subscript check. */
  method EmitAddr(cg: CodeGenerator, e: Expr) returns (addr: Location)
    requires e.ArrayAccess? && WellFormed(e)
    modifies cg
    ensures cg.code == old(cg.code) + AddressCode(e, old(cg.nextTemp), old(cg.nextLabel)).code
    ensures cg.nextTemp == old(cg.nextTemp) + AddressCode(e, old(cg.nextTemp), old(cg.nextLabel)).temps
    ensures cg.nextLabel == old(cg.nextLabel) + AddressCode(e, old(cg.nextTemp), old(cg.nextLabel)).labels
    ensures Some(addr) == AddressCode(e, old(cg.nextTemp), old(cg.nextLabel)).result
    ensures cg.frameBytes == old(cg.frameBytes) + VarSize * (cg.nextTemp - old(cg.nextTemp))
    decreases e, 0, 1
  {
    ghost var P := OperandPair(e.base, e.subscript, cg.nextTemp, cg.nextLabel);
    var b, s := EmitOperands(cg, e, e.base, e.subscript);
    ghost var T := AddressTailCode(b, s, cg.nextTemp, cg.nextLabel);
    addr := EmitAddressTail(cg, b, s);
    Regroup(old(cg.code), P.0.code + P.1.code, T);
  }


  /** The end of `ArrayAccess::EmitAddr`: the subscript check, then the element's address. */
  method EmitAddressTail(cg: CodeGenerator, arr: Location, sub: Location) returns (addr: Location)
    modifies cg
    ensures cg.code == old(cg.code) + AddressTailCode(arr, sub, old(cg.nextTemp), old(cg.nextLabel))
    ensures addr == Temp(old(cg.nextTemp) + 11)
    ensures cg.nextTemp == old(cg.nextTemp) + 12 && cg.nextLabel == old(cg.nextLabel) + 1
    ensures cg.frameBytes == old(cg.frameBytes) + 12 * VarSize
  {
    EmitSubscriptCheck(cg, arr, sub);
    addr := EmitElementAddress(cg, arr, sub);
    Regroup(old(cg.code), SubscriptCheckCode(arr, sub, old(cg.nextTemp), old(cg.nextLabel)),
            ElementAddressCode(arr, sub, old(cg.nextTemp) + 8));
  }



  /**
   * `ArrayAccess::Emit`, reading the element at its address (the source
   * reads one word further on: see `ElementLoadAsWritten`).
   */
  method EmitArrayAccess(cg: CodeGenerator, e: Expr) returns (loc: Option<Location>)
    requires e.ArrayAccess? && WellFormed(e)
    modifies cg
    ensures cg.code == old(cg.code) + ArrayAccessCode(e, old(cg.nextTemp), old(cg.nextLabel)).code
    ensures cg.nextTemp == old(cg.nextTemp) + ArrayAccessCode(e, old(cg.nextTemp), old(cg.nextLabel)).temps
    ensures cg.nextLabel == old(cg.nextLabel) + ArrayAccessCode(e, old(cg.nextTemp), old(cg.nextLabel)).labels
    ensures loc == ArrayAccessCode(e, old(cg.nextTemp), old(cg.nextLabel)).result
    ensures cg.frameBytes == old(cg.frameBytes) + VarSize * (cg.nextTemp - old(cg.nextTemp))
    decreases e, 1, 0
  {
    ghost var X := AddressCode(e, cg.nextTemp, cg.nextLabel);
    var addr := EmitAddr(cg, e);
    var d := cg.GenLoad(addr, 0);
    loc := Some(d);
    Regroup(old(cg.code), X.code, [Load(d, addr, 0)]);
  }

  /**
   * `ArrayAccess::EmitStore`: the element's address, the store, and a read
   * of the stored value (the source stores and reads one word further on).
   */
  method EmitArrayStore(cg: CodeGenerator, a: Expr, v: Location) returns (loc: Option<Location>)
    requires a.ArrayAccess? && WellFormed(a)
    modifies cg
    ensures cg.code == old(cg.code) + TargetCode(a, v, old(cg.nextTemp), old(cg.nextLabel)).code
    ensures cg.nextTemp == old(cg.nextTemp) + TargetCode(a, v, old(cg.nextTemp), old(cg.nextLabel)).temps
    ensures cg.nextLabel == old(cg.nextLabel) + TargetCode(a, v, old(cg.nextTemp), old(cg.nextLabel)).labels
    ensures loc == TargetCode(a, v, old(cg.nextTemp), old(cg.nextLabel)).result
    ensures cg.frameBytes == old(cg.frameBytes) + VarSize * (cg.nextTemp - old(cg.nextTemp))
    decreases a, 0, 2
  {
    ghost var X := AddressCode(a, cg.nextTemp, cg.nextLabel);
    var addr := EmitAddr(cg, a);
    cg.Append(Store(addr, v, 0));
    var d := cg.GenLoad(addr, 0);
    loc := Some(d);
    Regroup(old(cg.code) + X.code, [Store(addr, v, 0)], [Load(d, addr, 0)]);
    Regroup(old(cg.code), X.code, [Store(addr, v, 0), Load(d, addr, 0)]);
  }

  /** `AssignExpr::Emit` after the right side: `EmitStore` on an lvalue, a copy otherwise. */
  method EmitTarget(cg: CodeGenerator, a: Expr, v: Location) returns (loc: Option<Location>)
    requires Valued(a) && WellFormed(a)
    modifies cg
    ensures cg.code == old(cg.code) + TargetCode(a, v, old(cg.nextTemp), old(cg.nextLabel)).code
    ensures cg.nextTemp == old(cg.nextTemp) + TargetCode(a, v, old(cg.nextTemp), old(cg.nextLabel)).temps
    ensures cg.nextLabel == old(cg.nextLabel) + TargetCode(a, v, old(cg.nextTemp), old(cg.nextLabel)).labels
    ensures loc == TargetCode(a, v, old(cg.nextTemp), old(cg.nextLabel)).result
    ensures cg.frameBytes == old(cg.frameBytes) + VarSize * (cg.nextTemp - old(cg.nextTemp))
    decreases a, 3, 0
  {
    if a.ArrayAccess? {
      loc := EmitArrayStore(cg, a, v);
    } else if a.FieldAccess? {
      // `FieldAccess::EmitMemLocStore`: into the variable's location, or into `this` at its offset
      if a.ref.Placed? {
        cg.Append(Assign(a.ref.loc, v));
        loc := Some(a.ref.loc);
      } else {
        cg.Append(Store(ThisLoc(), v, a.ref.offset));
        loc := Some(ThisLoc());
      }
    } else if a.FieldOfField? {
      // `FieldAccess::EmitStore` through the base field's location
      cg.Append(Store(a.baseLoc, v, a.offset));
      loc := Some(a.baseLoc);
    } else {
      ghost var L := ExprCode(a, cg.nextTemp, cg.nextLabel);
      var target := EmitExpr(cg, a);
      cg.Append(Assign(target.value, v));
      loc := target;
      Regroup(old(cg.code), L.code, [Assign(target.value, v)]);
    }
  }

  /** `AssignExpr::Emit`: the right side first, then the left side. */
  method EmitAssign(cg: CodeGenerator, e: Expr) returns (loc: Option<Location>)
    requires e.AssignExpr? && WellFormed(e)
    modifies cg
    ensures cg.code == old(cg.code) + AssignCode(e, old(cg.nextTemp), old(cg.nextLabel)).code
    ensures cg.nextTemp == old(cg.nextTemp) + AssignCode(e, old(cg.nextTemp), old(cg.nextLabel)).temps
    ensures cg.nextLabel == old(cg.nextLabel) + AssignCode(e, old(cg.nextTemp), old(cg.nextLabel)).labels
    ensures loc == AssignCode(e, old(cg.nextTemp), old(cg.nextLabel)).result
    ensures cg.frameBytes == old(cg.frameBytes) + VarSize * (cg.nextTemp - old(cg.nextTemp))
    decreases e, 1, 0
  {
    ghost var R := ExprCode(e.right, cg.nextTemp, cg.nextLabel);
    var r := EmitExpr(cg, e.right);
    ghost var S := TargetCode(e.left, r.value, cg.nextTemp, cg.nextLabel);
    loc := EmitTarget(cg, e.left, r.value);
    Regroup(old(cg.code), R.code, S.code);
  }

  /** `Call::EmitArrayLength`: the length word at the array's base. */
  method EmitArrayLength(cg: CodeGenerator, e: Expr) returns (loc: Option<Location>)
    requires e.ArrayLength? && WellFormed(e)
    modifies cg
    ensures cg.code == old(cg.code) + ArrayLengthCode(e, old(cg.nextTemp), old(cg.nextLabel)).code
    ensures cg.nextTemp == old(cg.nextTemp) + ArrayLengthCode(e, old(cg.nextTemp), old(cg.nextLabel)).temps
    ensures cg.nextLabel == old(cg.nextLabel) + ArrayLengthCode(e, old(cg.nextTemp), old(cg.nextLabel)).labels
    ensures loc == ArrayLengthCode(e, old(cg.nextTemp), old(cg.nextLabel)).result
    ensures cg.frameBytes == old(cg.frameBytes) + VarSize * (cg.nextTemp - old(cg.nextTemp))
    decreases e, 1, 0
  {
    ghost var A := ExprCode(e.base, cg.nextTemp, cg.nextLabel);
    var b := EmitExpr(cg, e.base);
    var d := cg.GenLoad(b.value, 0);
    loc := Some(d);
    Regroup(old(cg.code), A.code, [Load(d, b.value, 0)]);
  }

  /** `NewArrayExpr::EmitRuntimeSizeCheck`. */
  method EmitSizeCheck(cg: CodeGenerator, siz: Location)
    modifies cg
    ensures cg.code == old(cg.code) + SizeCheckCode(siz, old(cg.nextTemp), old(cg.nextLabel))
    ensures cg.nextTemp == old(cg.nextTemp) + 5 && cg.nextLabel == old(cg.nextLabel) + 1
    ensures cg.frameBytes == old(cg.frameBytes) + 5 * VarSize
  {
    var notPositive := EmitNotPositiveTest(cg, siz);
    var passCheck := cg.NewLabel();
    cg.Append(IfZ(notPositive, passCheck));
    var msg := cg.GenLoadStrConstant(ErrArrBadSize);
    var _ := cg.GenBuiltInCall(PrintString, [msg]);
    var _ := cg.GenBuiltInCall(Halt, []);
    cg.Append(MkLabel(passCheck));
  }

  /** The test of `NewArrayExpr::EmitRuntimeSizeCheck`: `notPositive` is 1 when `siz` is at most zero. */
  method EmitNotPositiveTest(cg: CodeGenerator, siz: Location) returns (notPositive: Location)
    modifies cg
    ensures
      var t := old(cg.nextTemp);
      cg.code == old(cg.code) + [ LoadConst(Temp(t), 0),
                                  BinaryOp(Temp(t + 1), "<", siz, Temp(t)),
                                  BinaryOp(Temp(t + 2), "==", siz, Temp(t)),
                                  BinaryOp(Temp(t + 3), "||", Temp(t + 1), Temp(t + 2)) ]
    ensures notPositive == Temp(old(cg.nextTemp) + 3)
    ensures cg.nextTemp == old(cg.nextTemp) + 4 && cg.nextLabel == old(cg.nextLabel)
    ensures cg.frameBytes == old(cg.frameBytes) + 4 * VarSize
  {
    var zero := cg.GenLoadConstant(0);
    var belowZero := cg.GenBinaryOp("<", siz, zero);
    var isZero := cg.GenBinaryOp("==", siz, zero);
    notPositive := cg.GenBinaryOp("||", belowZero, isZero);
  }

  /** The end of `NewArrayExpr::Emit`: `size * word + word` bytes allocated, the size stored in the first word. */
  method EmitAllocation(cg: CodeGenerator, siz: Location, t: nat) returns (mem: Location)
    requires cg.nextTemp == t + 6
    modifies cg
    ensures cg.code == old(cg.code) + AllocArrayCode(siz, t)
    ensures mem == Temp(t + 8)
    ensures cg.nextTemp == old(cg.nextTemp) + 3 && cg.nextLabel == old(cg.nextLabel)
    ensures cg.frameBytes == old(cg.frameBytes) + 3 * VarSize
  {
    var scaled := cg.GenBinaryOp("*", siz, Temp(t));
    var total := cg.GenBinaryOp("+", Temp(t), scaled);
    var block := cg.GenBuiltInCall(Alloc, [total]);
    cg.Append(Store(block.value, siz, 0));
    mem := block.value;
  }

  /** `NewArrayExpr::Emit` once the size is in `siz`: the word size, the size check and the allocation. */
  method EmitSizedArray(cg: CodeGenerator, siz: Location) returns (mem: Location)
    modifies cg
    ensures cg.code == old(cg.code) + NewArrayCode(siz, old(cg.nextTemp), old(cg.nextLabel))
    ensures mem == Temp(old(cg.nextTemp) + 8)
    ensures cg.nextTemp == old(cg.nextTemp) + 9 && cg.nextLabel == old(cg.nextLabel) + 1
    ensures cg.frameBytes == old(cg.frameBytes) + 9 * VarSize
  {
    var t := cg.nextTemp;
    var word := cg.GenLoadConstant(VarSize);
    ghost var C := SizeCheckCode(siz, t + 1, cg.nextLabel);
    EmitSizeCheck(cg, siz);
    Regroup(old(cg.code), [LoadConst(word, VarSize)], C);
    mem := EmitAllocation(cg, siz, t);
    Regroup(old(cg.code), [LoadConst(word, VarSize)] + C, AllocArrayCode(siz, t));
  }

  /** `NewArrayExpr::Emit`: the size, then the rest. */
  method EmitNewArray(cg: CodeGenerator, e: Expr) returns (loc: Option<Location>)
    requires e.NewArrayExpr? && WellFormed(e)
    modifies cg
    ensures cg.code == old(cg.code) + NewArrayExprCode(e, old(cg.nextTemp), old(cg.nextLabel)).code
    ensures cg.nextTemp == old(cg.nextTemp) + NewArrayExprCode(e, old(cg.nextTemp), old(cg.nextLabel)).temps
    ensures cg.nextLabel == old(cg.nextLabel) + NewArrayExprCode(e, old(cg.nextTemp), old(cg.nextLabel)).labels
    ensures loc == NewArrayExprCode(e, old(cg.nextTemp), old(cg.nextLabel)).result
    ensures cg.frameBytes == old(cg.frameBytes) + VarSize * (cg.nextTemp - old(cg.nextTemp))
    decreases e, 1, 0
  {
    ghost var S := ExprCode(e.size, cg.nextTemp, cg.nextLabel);
    var s := EmitExpr(cg, e.size);
    ghost var N := NewArrayCode(s.value, cg.nextTemp, cg.nextLabel);
    var mem := EmitSizedArray(cg, s.value);
    loc := Some(mem);
    Regroup(old(cg.code), S.code, N);
  }

  /** The first loop of `Call::EmitLabel`: every actual, in order. */
  method EmitActuals(cg: CodeGenerator, e: Expr) returns (params: seq<Location>)
    requires e.Call? && WellFormed(e)
    modifies cg
    ensures cg.code == old(cg.code) + ActualsCode(e, |e.actuals|, old(cg.nextTemp), old(cg.nextLabel)).code
    ensures cg.nextTemp == old(cg.nextTemp) + ActualsCode(e, |e.actuals|, old(cg.nextTemp), old(cg.nextLabel)).temps
    ensures cg.nextLabel == old(cg.nextLabel) + ActualsCode(e, |e.actuals|, old(cg.nextTemp), old(cg.nextLabel)).labels
    ensures params == ActualsCode(e, |e.actuals|, old(cg.nextTemp), old(cg.nextLabel)).results
    ensures cg.frameBytes == old(cg.frameBytes) + VarSize * (cg.nextTemp - old(cg.nextTemp))
    decreases e, 0, 0
  {
    params := [];
    var i := 0;
    while i < |e.actuals|
      invariant 0 <= i <= |e.actuals|
      invariant cg.code == old(cg.code) + ActualsCode(e, i, old(cg.nextTemp), old(cg.nextLabel)).code
      invariant cg.nextTemp == old(cg.nextTemp) + ActualsCode(e, i, old(cg.nextTemp), old(cg.nextLabel)).temps
      invariant cg.nextLabel == old(cg.nextLabel) + ActualsCode(e, i, old(cg.nextTemp), old(cg.nextLabel)).labels
      invariant params == ActualsCode(e, i, old(cg.nextTemp), old(cg.nextLabel)).results
      invariant cg.frameBytes == old(cg.frameBytes) + VarSize * (cg.nextTemp - old(cg.nextTemp))
    {
      ghost var P := ActualsCode(e, i, old(cg.nextTemp), old(cg.nextLabel));
      ghost var X := ExprCode(e.actuals[i], old(cg.nextTemp) + P.temps, old(cg.nextLabel) + P.labels);
      assert ActualsCode(e, i + 1, old(cg.nextTemp), old(cg.nextLabel))
          == EmittedList(P.code + X.code, P.results + [X.result.value], P.temps + X.temps, P.labels + X.labels);
      var p := EmitExpr(cg, e.actuals[i]);
      Regroup(old(cg.code), P.code, X.code);
      params := params + [p.value];
      i := i + 1;
    }
  }

  /** The second loop of `Call::EmitLabel`: pushes from the last parameter down to the first. */
  method EmitPushes(cg: CodeGenerator, params: seq<Location>)
    modifies cg
    ensures cg.code == old(cg.code) + Pushes(params)
    ensures cg.nextTemp == old(cg.nextTemp) && cg.nextLabel == old(cg.nextLabel)
    ensures cg.frameBytes == old(cg.frameBytes)
  {
    var i := |params|;
    while i > 0
      invariant 0 <= i <= |params|
      invariant cg.code == old(cg.code) + Pushes(params[i..])
      invariant cg.nextTemp == old(cg.nextTemp) && cg.nextLabel == old(cg.nextLabel)
      invariant cg.frameBytes == old(cg.frameBytes)
    {
      i := i - 1;
      assert params[i..][1..] == params[i + 1..];
      cg.Append(PushParam(params[i]));
    }
    assert params[0..] == params;
  }

  /** `Call::EmitDynamicDispatch`: the vtable from the receiver's first word, the method's address from its slot. */
  method EmitDynamicDispatch(cg: CodeGenerator, b: Location, offset: int, hasReturn: bool) returns (loc: Option<Location>)
    modifies cg
    ensures cg.code == old(cg.code)
      + [Load(Temp(old(cg.nextTemp)), b, 0), Load(Temp(old(cg.nextTemp) + 1), Temp(old(cg.nextTemp)), offset),
         ACall(loc, Temp(old(cg.nextTemp) + 1))]
    ensures loc == if hasReturn then Some(Temp(old(cg.nextTemp) + 2)) else None
    ensures cg.nextTemp == old(cg.nextTemp) + 2 + (if hasReturn then 1 else 0) && cg.nextLabel == old(cg.nextLabel)
    ensures cg.frameBytes == old(cg.frameBytes) + 2 * VarSize + (if hasReturn then VarSize else 0)
  {
    var vtable := cg.GenLoad(b, 0);
    var fnAddr := cg.GenLoad(vtable, offset);
    loc := cg.GenACall(fnAddr, hasReturn);
  }

  /** The method-call branch of `Call::EmitLabel` once `b` holds the receiver. */
  method EmitMethodCall(cg: CodeGenerator, b: Location, offset: int, hasReturn: bool, n: nat) returns (loc: Option<Location>)
    modifies cg
    ensures
      var u := old(cg.nextTemp);
      cg.code == old(cg.code) + [PushParam(b), Load(Temp(u), b, 0), Load(Temp(u + 1), Temp(u), offset),
                                 ACall(loc, Temp(u + 1)), PopParams(VarSize * (n + 1))]
    ensures loc == if hasReturn then Some(Temp(old(cg.nextTemp) + 2)) else None
    ensures cg.nextTemp == old(cg.nextTemp) + 2 + (if hasReturn then 1 else 0) && cg.nextLabel == old(cg.nextLabel)
    ensures cg.frameBytes == old(cg.frameBytes) + 2 * VarSize + (if hasReturn then VarSize else 0)
  {
    cg.Append(PushParam(b));
    loc := EmitDynamicDispatch(cg, b, offset, hasReturn);
    cg.Append(PopParams(VarSize * (n + 1)));
  }

  /** `Call::EmitLabel` after the pushes: the call itself. */
  method EmitInvoke(cg: CodeGenerator, e: Expr) returns (loc: Option<Location>)
    requires e.Call? && WellFormed(e)
    modifies cg
    ensures cg.code == old(cg.code) + InvokeCode(e, old(cg.nextTemp), old(cg.nextLabel)).code
    ensures cg.nextTemp == old(cg.nextTemp) + InvokeCode(e, old(cg.nextTemp), old(cg.nextLabel)).temps
    ensures cg.nextLabel == old(cg.nextLabel) + InvokeCode(e, old(cg.nextTemp), old(cg.nextLabel)).labels
    ensures loc == InvokeCode(e, old(cg.nextTemp), old(cg.nextLabel)).result
    ensures cg.frameBytes == old(cg.frameBytes) + VarSize * (cg.nextTemp - old(cg.nextTemp))
    decreases e, 0, 1
  {
    var n := |e.actuals|;
    if e.callee.Function? {
      loc := cg.GenLCall(e.callee.fnLabel, e.hasReturn);
      cg.Append(PopParams(VarSize * n));
    } else if e.callee.receiver.Some? {
      ghost var R := ExprCode(e.callee.receiver.value, cg.nextTemp, cg.nextLabel);
      var r := EmitExpr(cg, e.callee.receiver.value);
      ghost var u := cg.nextTemp;
      loc := EmitMethodCall(cg, r.value, e.callee.vtblOffset, e.hasReturn, n);
      Regroup(old(cg.code), R.code, [PushParam(r.value), Load(Temp(u), r.value, 0), Load(Temp(u + 1), Temp(u), e.callee.vtblOffset),
                                     ACall(loc, Temp(u + 1)), PopParams(VarSize * (n + 1))]);
    } else {
      loc := EmitMethodCall(cg, ThisLoc(), e.callee.vtblOffset, e.hasReturn, n);
      assert old(cg.code) + ([] + cg.code[|old(cg.code)|..]) == cg.code;
    }
  }

  /** `Call::EmitLabel`: every actual, their pushes, then the call. */
  method EmitCall(cg: CodeGenerator, e: Expr) returns (loc: Option<Location>)
    requires e.Call? && WellFormed(e)
    modifies cg
    ensures cg.code == old(cg.code) + CallCode(e, old(cg.nextTemp), old(cg.nextLabel)).code
    ensures cg.nextTemp == old(cg.nextTemp) + CallCode(e, old(cg.nextTemp), old(cg.nextLabel)).temps
    ensures cg.nextLabel == old(cg.nextLabel) + CallCode(e, old(cg.nextTemp), old(cg.nextLabel)).labels
    ensures loc == CallCode(e, old(cg.nextTemp), old(cg.nextLabel)).result
    ensures cg.frameBytes == old(cg.frameBytes) + VarSize * (cg.nextTemp - old(cg.nextTemp))
    decreases e, 1, 0
  {
    ghost var A := ActualsCode(e, |e.actuals|, cg.nextTemp, cg.nextLabel);
    var params := EmitActuals(cg, e);
    EmitPushes(cg, params);
    Regroup(old(cg.code), A.code, Pushes(A.results));
    ghost var T := InvokeCode(e, cg.nextTemp, cg.nextLabel);
    loc := EmitInvoke(cg, e);
    Regroup(old(cg.code), A.code + Pushes(A.results), T.code);
  }
}
