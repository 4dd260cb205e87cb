/**
 * A reference semantics for the straight-line pseudo-instructions that the
 * runtime checks and array accesses emit: temporaries and named slots hold
 * values, memory maps allocated byte addresses to values, `IfZ` and `Goto`
 * jump forwards to their label, `Halt` stops, and `Alloc` hands out fresh
 * addresses. An instruction it gives no meaning to, an operand of the wrong
 * kind, or an address never allocated leaves it stuck.
 *
 * The shapes of the code emitted for the subscript check, the element
 * address and the array-size check are defined here, next to the lemmas
 * that say what running them does.
 */
module Tac {
  import opened Wrappers
  import opened CodeGen

  datatype Value = IntV(i: int) | StrV(s: string)

  datatype Machine = Machine(vars: map<Location, Value>, mem: map<int, Value>, out: seq<string>, heapTop: int)

  datatype Outcome = Finished(m: Machine) | Halted(m: Machine) | Stuck

  function BoolInt(b: bool): int
  {
    if b then 1 else 0
  }

  /** The arithmetic and comparison operators the emitted checks use. */
  function Apply(op: string, a: int, b: int): Option<int>
  {
    if op == "+" then Some(a + b)
    else if op == "-" then Some(a - b)
    else if op == "*" then Some(a * b)
    else if op == "<" then Some(BoolInt(a < b))
    else if op == "==" then Some(BoolInt(a == b))
    else if op == "||" then Some(BoolInt(a != 0 || b != 0))
    else if op == "&&" then Some(BoolInt(a != 0 && b != 0))
    else None
  }

  // The operators one by one.

  lemma ApplyPlus(a: int, b: int)
    ensures Apply("+", a, b) == Some(a + b)
  {
  }

  lemma ApplyTimes(a: int, b: int)
    ensures Apply("*", a, b) == Some(a * b)
  {
  }

  lemma ApplyLess(a: int, b: int)
    ensures Apply("<", a, b) == Some(BoolInt(a < b))
  {
  }

  lemma ApplyEqual(a: int, b: int)
    ensures Apply("==", a, b) == Some(BoolInt(a == b))
  {
  }

  lemma ApplyOr(a: int, b: int)
    ensures Apply("||", a, b) == Some(BoolInt(a != 0 || b != 0))
  {
  }

  function IntAt(m: Machine, l: Location): Option<int>
  {
    if l in m.vars && m.vars[l].IntV? then Some(m.vars[l].i) else None
  }

  /** `n` zeroed bytes from address `lo`. */
  function Zeroes(lo: int, n: int): (r: map<int, Value>)
    ensures forall a :: a in r ==> lo <= a < lo + n && r[a] == IntV(0)
    ensures forall a :: lo <= a < lo + n ==> a in r
    decreases n
  {
    if n <= 0 then map[] else Zeroes(lo, n - 1)[lo + n - 1 := IntV(0)]
  }

  /** The memory after allocating `n` zeroed bytes at `heapTop`. */
  function Allocate(m: Machine, n: int): map<int, Value>
  {
    m.mem + Zeroes(m.heapTop, n)
  }

  /** The machine after `Alloc` of `n` bytes whose address goes to `dst`. */
  function Grow(m: Machine, dst: Location, n: int): Machine
  {
    m.(vars := m.vars[dst := IntV(m.heapTop)], mem := Allocate(m, n), heapTop := m.heapTop + n)
  }

  /** One instruction that does not transfer control. */
  function Step(i: Instr, m: Machine): Option<Machine>
  {
    match i
    case LoadConst(dst, v) => Some(m.(vars := m.vars[dst := IntV(v)]))
    case LoadStrConst(dst, s) => Some(m.(vars := m.vars[dst := StrV(s)]))
    case LoadLabel(dst, n) => Some(m.(vars := m.vars[dst := StrV(n)]))
    case Assign(dst, src) => if src in m.vars then Some(m.(vars := m.vars[dst := m.vars[src]])) else None
    case Load(dst, addr, off) =>
      var a := IntAt(m, addr);
      if a.Some? && a.value + off in m.mem then Some(m.(vars := m.vars[dst := m.mem[a.value + off]])) else None
    case Store(addr, src, off) =>
      var a := IntAt(m, addr);
      if a.Some? && a.value + off in m.mem && src in m.vars then Some(m.(mem := m.mem[a.value + off := m.vars[src]]))
      else None
    case BinaryOp(dst, op, l, r) =>
      var x := IntAt(m, l);
      var y := IntAt(m, r);
      if x.Some? && y.Some? && Apply(op, x.value, y.value).Some?
      then Some(m.(vars := m.vars[dst := IntV(Apply(op, x.value, y.value).value)]))
      else None
    case MkLabel(_) => Some(m)
    case BuiltInCall(res, fn, args) =>
      if fn == Alloc && res.Some? && |args| == 1 then
        var n := IntAt(m, args[0]);
        if n.Some? && n.value > 0
        then Some(Grow(m, res.value, n.value))
        else None
      else if fn == PrintString && res.None? && |args| == 1 then
        if args[0] in m.vars && m.vars[args[0]].StrV? then Some(m.(out := m.out + [m.vars[args[0]].s])) else None
      else None
    case _ => None
  }

  /** The position just after the first definition of label `l` at or after `from`. */
  function Find(code: seq<Instr>, from: nat, l: Label): (r: Option<nat>)
    ensures r.Some? ==> from < r.value <= |code|
    decreases |code| - from
  {
    if from >= |code| then None
    else if code[from] == MkLabel(l) then Some(from + 1)
    else Find(code, from + 1, l)
  }

  lemma FindHere(code: seq<Instr>, q: nat, l: Label)
    requires q < |code| && code[q] == MkLabel(l)
    ensures Find(code, q, l) == Some(q + 1)
  {
  }

  lemma FindSkip(code: seq<Instr>, q: nat, l: Label)
    requires q < |code| && code[q] != MkLabel(l)
    ensures Find(code, q, l) == Find(code, q + 1, l)
  {
  }

  /** Runs `code` from position `pc`; jumps go forwards to their label. */
  function Run(code: seq<Instr>, pc: nat, m: Machine): Outcome
    decreases |code| - pc
  {
    if pc >= |code| then Finished(m)
    else match code[pc]
      case IfZ(t, target) =>
        var v := IntAt(m, t);
        if v.None? then Stuck
        else if v.value == 0 then
          (match Find(code, pc + 1, target)
           case None => Stuck
           case Some(k) => Run(code, k, m))
        else Run(code, pc + 1, m)
      case Goto(target) =>
        (match Find(code, pc + 1, target)
         case None => Stuck
         case Some(k) => Run(code, k, m))
      case BuiltInCall(_, Halt, _) => Halted(m)
      case _ =>
        (match Step(code[pc], m)
         case None => Stuck
         case Some(m') => Run(code, pc + 1, m'))
  }

  /** `g` occurs in `code` at position `p`. */
  predicate At(code: seq<Instr>, p: nat, g: seq<Instr>)
  {
    p + |g| <= |code| && forall k :: 0 <= k < |g| ==> code[p + k] == g[k]
  }

  function Set(m: Machine, x: Location, v: Value): Machine
  {
    m.(vars := m.vars[x := v])
  }

  lemma AtIndex(code: seq<Instr>, p: nat, g: seq<Instr>, k: nat)
    requires At(code, p, g) && k < |g|
    ensures p + k < |code| && code[p + k] == g[k]
  {
  }

  /** The instructions that transfer control or stop. */
  predicate IsControl(i: Instr)
  {
    i.IfZ? || i.Goto? || (i.BuiltInCall? && i.fn == Halt)
  }

  /** An instruction that does not transfer control runs into the next one. */
  lemma RunStep(code: seq<Instr>, pc: nat, m: Machine, m': Machine)
    requires pc < |code| && !IsControl(code[pc]) && Step(code[pc], m) == Some(m')
    ensures Run(code, pc, m) == Run(code, pc + 1, m')
  {
  }

  lemma RunIfZ(code: seq<Instr>, pc: nat, m: Machine, test: Location, target: Label, v: int)
    requires pc < |code| && code[pc] == IfZ(test, target) && IntAt(m, test) == Some(v)
    ensures v != 0 ==> Run(code, pc, m) == Run(code, pc + 1, m)
    ensures v == 0 && Find(code, pc + 1, target).Some? ==> Run(code, pc, m) == Run(code, Find(code, pc + 1, target).value, m)
  {
  }

  // One step of each kind the runtime checks use.

  lemma RunConst(code: seq<Instr>, pc: nat, m: Machine, dst: Location, v: int)
    requires pc < |code| && code[pc] == LoadConst(dst, v)
    ensures Run(code, pc, m) == Run(code, pc + 1, Set(m, dst, IntV(v)))
  {
  }

  lemma RunLoad(code: seq<Instr>, pc: nat, m: Machine, dst: Location, addr: Location, off: int, a: int)
    requires pc < |code| && code[pc] == Load(dst, addr, off)
    requires IntAt(m, addr) == Some(a) && a + off in m.mem
    ensures Run(code, pc, m) == Run(code, pc + 1, Set(m, dst, m.mem[a + off]))
  {
  }

  lemma RunBinary(code: seq<Instr>, pc: nat, m: Machine, dst: Location, op: string, l: Location, r: Location,
                  x: int, y: int, z: int)
    requires pc < |code| && code[pc] == BinaryOp(dst, op, l, r)
    requires IntAt(m, l) == Some(x) && IntAt(m, r) == Some(y) && Apply(op, x, y) == Some(z)
    ensures Run(code, pc, m) == Run(code, pc + 1, Set(m, dst, IntV(z)))
  {
  }

  lemma RunAlloc(code: seq<Instr>, pc: nat, m: Machine, dst: Location, size: Location, n: int)
    requires pc < |code| && code[pc] == BuiltInCall(Some(dst), Alloc, [size])
    requires IntAt(m, size) == Some(n) && n > 0
    ensures Run(code, pc, m) == Run(code, pc + 1, Grow(m, dst, n))
  {
  }

  lemma RunStore(code: seq<Instr>, pc: nat, m: Machine, addr: Location, src: Location, a: int)
    requires pc < |code| && code[pc] == Store(addr, src, 0)
    requires IntAt(m, addr) == Some(a) && a in m.mem && src in m.vars
    ensures Run(code, pc, m) == Run(code, pc + 1, m.(mem := m.mem[a := m.vars[src]]))
  {
  }

  /** Code that prints a message and halts stops with the message as the last output. */
  lemma RunPrintHalt(code: seq<Instr>, pc: nat, m: Machine, dst: Location, msg: string)
    requires pc + 2 < |code|
    requires code[pc] == LoadStrConst(dst, msg) && code[pc + 1] == BuiltInCall(None, PrintString, [dst])
    requires code[pc + 2] == BuiltInCall(None, Halt, [])
    ensures Run(code, pc, m) == Halted(Set(m, dst, StrV(msg)).(out := m.out + [msg]))
  {
    RunStep(code, pc, m, Set(m, dst, StrV(msg)));
    RunStep(code, pc + 1, Set(m, dst, StrV(msg)), Set(m, dst, StrV(msg)).(out := m.out + [msg]));
  }

  // ----- the subscript check -----

  /**
   * `ArrayAccess::EmitRuntimeSubscriptCheck` for array `arr` and subscript
   * `sub`, drawing temporaries from `t` and the label `l`.
   */
  function SubscriptCheckCode(arr: Location, sub: Location, t: nat, l: nat): seq<Instr>
  {
    [ LoadConst(Temp(t), 0),
      Load(Temp(t + 1), arr, 0),
      BinaryOp(Temp(t + 2), "<", sub, Temp(t)),
      BinaryOp(Temp(t + 3), "<", Temp(t + 1), sub),
      BinaryOp(Temp(t + 4), "==", Temp(t + 1), sub),
      BinaryOp(Temp(t + 5), "||", Temp(t + 3), Temp(t + 4)),
      BinaryOp(Temp(t + 6), "||", Temp(t + 5), Temp(t + 2)),
      IfZ(Temp(t + 6), Fresh(l)),
      LoadStrConst(Temp(t + 7), ErrArrOutOfBounds),
      BuiltInCall(None, PrintString, [Temp(t + 7)]),
      BuiltInCall(None, Halt, []),
      MkLabel(Fresh(l)) ]
  }

  /** The subscript check, instruction by instruction. */
  predicate SubscriptLaidOut(code: seq<Instr>, p: nat, arr: Location, sub: Location, t: nat, l: nat)
  {
    && p + 12 <= |code|
    && code[p] == LoadConst(Temp(t), 0)
    && code[p + 1] == Load(Temp(t + 1), arr, 0)
    && code[p + 2] == BinaryOp(Temp(t + 2), "<", sub, Temp(t))
    && code[p + 3] == BinaryOp(Temp(t + 3), "<", Temp(t + 1), sub)
    && code[p + 4] == BinaryOp(Temp(t + 4), "==", Temp(t + 1), sub)
    && code[p + 5] == BinaryOp(Temp(t + 5), "||", Temp(t + 3), Temp(t + 4))
    && code[p + 6] == BinaryOp(Temp(t + 6), "||", Temp(t + 5), Temp(t + 2))
    && code[p + 7] == IfZ(Temp(t + 6), Fresh(l))
    && code[p + 8] == LoadStrConst(Temp(t + 7), ErrArrOutOfBounds)
    && code[p + 9] == BuiltInCall(None, PrintString, [Temp(t + 7)])
    && code[p + 10] == BuiltInCall(None, Halt, [])
    && code[p + 11] == MkLabel(Fresh(l))
  }

  lemma SubscriptCodeAt(code: seq<Instr>, p: nat, arr: Location, sub: Location, t: nat, l: nat)
    requires At(code, p, SubscriptCheckCode(arr, sub, t, l))
    ensures SubscriptLaidOut(code, p, arr, sub, t, l)
  {
    var g := SubscriptCheckCode(arr, sub, t, l);
    AtIndex(code, p, g, 0); AtIndex(code, p, g, 1); AtIndex(code, p, g, 2); AtIndex(code, p, g, 3);
    AtIndex(code, p, g, 4); AtIndex(code, p, g, 5); AtIndex(code, p, g, 6); AtIndex(code, p, g, 7);
    AtIndex(code, p, g, 8); AtIndex(code, p, g, 9); AtIndex(code, p, g, 10); AtIndex(code, p, g, 11);
  }

  /** `m2` is `m` with only temporaries from `t` on (re)assigned. */
  predicate Extends(m: Machine, m2: Machine, t: nat)
  {
    && m2.mem == m.mem && m2.out == m.out && m2.heapTop == m.heapTop
    && forall x :: x in m.vars && OlderThan(x, t) ==> x in m2.vars && m2.vars[x] == m.vars[x]
  }

  /** The array whose base address `arr` holds and whose length word sits at that address. */
  predicate ArrayAt(m: Machine, arr: Location, b: int, len: int)
  {
    IntAt(m, arr) == Some(b) && b in m.mem && m.mem[b] == IntV(len)
  }

  /** The machine after the first three instructions of the subscript check. */
  function SubscriptLoadState(m: Machine, t: nat, len: int, i: int): Machine
  {
    Set(Set(Set(m, Temp(t), IntV(0)), Temp(t + 1), IntV(len)), Temp(t + 2), IntV(BoolInt(i < 0)))
  }

  /** The machine after the two comparisons with the length. */
  function SubscriptCompareState(m: Machine, t: nat, len: int, i: int): Machine
  {
    Set(Set(SubscriptLoadState(m, t, len, i), Temp(t + 3), IntV(BoolInt(len < i))), Temp(t + 4), IntV(BoolInt(len == i)))
  }

  /** The machine after all comparisons of the subscript check. */
  function SubscriptTestState(m: Machine, t: nat, len: int, i: int): Machine
  {
    var m5 := SubscriptCompareState(m, t, len, i);
    Set(Set(m5, Temp(t + 5), IntV(BoolInt(len <= i))), Temp(t + 6), IntV(BoolInt(len <= i || i < 0)))
  }

  lemma SubscriptRunLoads(code: seq<Instr>, p: nat, arr: Location, sub: Location, t: nat, l: nat,
                          m: Machine, b: int, len: int, i: int)
    requires p + 3 <= |code|
    requires code[p] == LoadConst(Temp(t), 0)
    requires code[p + 1] == Load(Temp(t + 1), arr, 0)
    requires code[p + 2] == BinaryOp(Temp(t + 2), "<", sub, Temp(t))
    requires OlderThan(arr, t) && OlderThan(sub, t)
    requires ArrayAt(m, arr, b, len) && IntAt(m, sub) == Some(i)
    ensures Run(code, p, m) == Run(code, p + 3, SubscriptLoadState(m, t, len, i))
  {
    var m1 := Set(m, Temp(t), IntV(0));
    RunConst(code, p, m, Temp(t), 0);
    var m2 := Set(m1, Temp(t + 1), IntV(len));
    RunLoad(code, p + 1, m1, Temp(t + 1), arr, 0, b);
    ApplyLess(i, 0);
    RunBinary(code, p + 2, m2, Temp(t + 2), "<", sub, Temp(t), i, 0, BoolInt(i < 0));
  }

  lemma SubscriptRunCompares(code: seq<Instr>, p: nat, arr: Location, sub: Location, t: nat, l: nat,
                             m: Machine, len: int, i: int)
    requires p + 5 <= |code|
    requires code[p + 3] == BinaryOp(Temp(t + 3), "<", Temp(t + 1), sub)
    requires code[p + 4] == BinaryOp(Temp(t + 4), "==", Temp(t + 1), sub)
    requires OlderThan(sub, t) && IntAt(m, sub) == Some(i)
    ensures Run(code, p + 3, SubscriptLoadState(m, t, len, i)) == Run(code, p + 5, SubscriptCompareState(m, t, len, i))
  {
    var m3 := SubscriptLoadState(m, t, len, i);
    ApplyLess(len, i);
    RunBinary(code, p + 3, m3, Temp(t + 3), "<", Temp(t + 1), sub, len, i, BoolInt(len < i));
    var m4 := Set(m3, Temp(t + 3), IntV(BoolInt(len < i)));
    ApplyEqual(len, i);
    RunBinary(code, p + 4, m4, Temp(t + 4), "==", Temp(t + 1), sub, len, i, BoolInt(len == i));
  }

  lemma SubscriptRunJoins(code: seq<Instr>, p: nat, arr: Location, sub: Location, t: nat, l: nat,
                          m: Machine, len: int, i: int)
    requires p + 7 <= |code|
    requires code[p + 5] == BinaryOp(Temp(t + 5), "||", Temp(t + 3), Temp(t + 4))
    requires code[p + 6] == BinaryOp(Temp(t + 6), "||", Temp(t + 5), Temp(t + 2))
    ensures Run(code, p + 5, SubscriptCompareState(m, t, len, i)) == Run(code, p + 7, SubscriptTestState(m, t, len, i))
  {
    var m5 := SubscriptCompareState(m, t, len, i);
    ApplyOr(BoolInt(len < i), BoolInt(len == i));
    RunBinary(code, p + 5, m5, Temp(t + 5), "||", Temp(t + 3), Temp(t + 4), BoolInt(len < i), BoolInt(len == i), BoolInt(len <= i));
    var m6 := Set(m5, Temp(t + 5), IntV(BoolInt(len <= i)));
    ApplyOr(BoolInt(len <= i), BoolInt(i < 0));
    RunBinary(code, p + 6, m6, Temp(t + 6), "||", Temp(t + 5), Temp(t + 2), BoolInt(len <= i), BoolInt(i < 0),
              BoolInt(len <= i || i < 0));
  }

  /** The subscript check writes only its own temporaries. */
  lemma SubscriptTestStateExtends(m: Machine, t: nat, len: int, i: int)
    ensures Extends(m, SubscriptTestState(m, t, len, i), t)
    ensures IntAt(SubscriptTestState(m, t, len, i), Temp(t + 6)) == Some(BoolInt(len <= i || i < 0))
  {
  }

  /**
   * The subscript check prints the out-of-bounds message and halts exactly
   * when the subscript is negative or at least the length stored at the
   * array's base; otherwise it falls through past its label, having changed
   * only its own temporaries.
   */
  lemma SubscriptCheckSpec(code: seq<Instr>, p: nat, arr: Location, sub: Location, t: nat, l: nat,
                           m: Machine, b: int, len: int, i: int)
    requires At(code, p, SubscriptCheckCode(arr, sub, t, l))
    requires OlderThan(arr, t) && OlderThan(sub, t)
    requires ArrayAt(m, arr, b, len) && IntAt(m, sub) == Some(i)
    ensures i < 0 || i >= len ==>
      Run(code, p, m).Halted? && Run(code, p, m).m.out == m.out + [ErrArrOutOfBounds]
    ensures 0 <= i < len ==>
      Run(code, p, m) == Run(code, p + 12, SubscriptTestState(m, t, len, i))
      && Extends(m, SubscriptTestState(m, t, len, i), t)
  {
    SubscriptCodeAt(code, p, arr, sub, t, l);
    var m7 := SubscriptTestState(m, t, len, i);
    SubscriptRunLoads(code, p, arr, sub, t, l, m, b, len, i);
    SubscriptRunCompares(code, p, arr, sub, t, l, m, len, i);
    SubscriptRunJoins(code, p, arr, sub, t, l, m, len, i);
    SubscriptTestStateExtends(m, t, len, i);
    RunIfZ(code, p + 7, m7, Temp(t + 6), Fresh(l), BoolInt(len <= i || i < 0));
    if 0 <= i < len {
      FindHere(code, p + 11, Fresh(l));
      FindSkip(code, p + 10, Fresh(l));
      FindSkip(code, p + 9, Fresh(l));
      FindSkip(code, p + 8, Fresh(l));
    } else {
      RunPrintHalt(code, p + 8, m7, Temp(t + 7), ErrArrOutOfBounds);
    }
  }

  // ----- the element address -----

  /** The tail of `ArrayAccess::EmitAddr`: base + (subscript * VarSize + VarSize), from temporary `t`. */
  function ElementAddressCode(base: Location, sub: Location, t: nat): seq<Instr>
  {
    [ LoadConst(Temp(t), VarSize),
      BinaryOp(Temp(t + 1), "*", sub, Temp(t)),
      BinaryOp(Temp(t + 2), "+", Temp(t + 1), Temp(t)),
      BinaryOp(Temp(t + 3), "+", base, Temp(t + 2)) ]
  }

  /** The element address computation, instruction by instruction. */
  predicate AddressLaidOut(code: seq<Instr>, p: nat, base: Location, sub: Location, t: nat)
  {
    && p + 4 <= |code|
    && code[p] == LoadConst(Temp(t), VarSize)
    && code[p + 1] == BinaryOp(Temp(t + 1), "*", sub, Temp(t))
    && code[p + 2] == BinaryOp(Temp(t + 2), "+", Temp(t + 1), Temp(t))
    && code[p + 3] == BinaryOp(Temp(t + 3), "+", base, Temp(t + 2))
  }

  lemma AddressCodeAt(code: seq<Instr>, p: nat, base: Location, sub: Location, t: nat)
    requires At(code, p, ElementAddressCode(base, sub, t))
    ensures AddressLaidOut(code, p, base, sub, t)
  {
    var g := ElementAddressCode(base, sub, t);
    AtIndex(code, p, g, 0); AtIndex(code, p, g, 1); AtIndex(code, p, g, 2); AtIndex(code, p, g, 3);
  }

  function ScaleState(m: Machine, t: nat, i: int): Machine
  {
    Set(Set(m, Temp(t), IntV(VarSize)), Temp(t + 1), IntV(i * VarSize))
  }

  function AddressState(m: Machine, t: nat, b: int, i: int): Machine
  {
    var m2 := ScaleState(m, t, i);
    Set(Set(m2, Temp(t + 2), IntV(i * VarSize + VarSize)), Temp(t + 3), IntV(b + (i * VarSize + VarSize)))
  }

  lemma AddressRunScale(code: seq<Instr>, p: nat, base: Location, sub: Location, t: nat, m: Machine, i: int)
    requires p + 2 <= |code|
    requires code[p] == LoadConst(Temp(t), VarSize)
    requires code[p + 1] == BinaryOp(Temp(t + 1), "*", sub, Temp(t))
    requires OlderThan(sub, t) && IntAt(m, sub) == Some(i)
    ensures Run(code, p, m) == Run(code, p + 2, ScaleState(m, t, i))
  {
    RunConst(code, p, m, Temp(t), VarSize);
    ApplyTimes(i, VarSize);
    RunBinary(code, p + 1, Set(m, Temp(t), IntV(VarSize)), Temp(t + 1), "*", sub, Temp(t), i, VarSize, i * VarSize);
  }

  lemma AddressRunAdd(code: seq<Instr>, p: nat, base: Location, sub: Location, t: nat, m: Machine, b: int, i: int)
    requires p + 4 <= |code|
    requires code[p + 2] == BinaryOp(Temp(t + 2), "+", Temp(t + 1), Temp(t))
    requires code[p + 3] == BinaryOp(Temp(t + 3), "+", base, Temp(t + 2))
    requires OlderThan(base, t) && IntAt(m, base) == Some(b)
    ensures Run(code, p + 2, ScaleState(m, t, i)) == Run(code, p + 4, AddressState(m, t, b, i))
  {
    var m2 := ScaleState(m, t, i);
    ApplyPlus(i * VarSize, VarSize);
    RunBinary(code, p + 2, m2, Temp(t + 2), "+", Temp(t + 1), Temp(t), i * VarSize, VarSize, i * VarSize + VarSize);
    var m3 := Set(m2, Temp(t + 2), IntV(i * VarSize + VarSize));
    ApplyPlus(b, i * VarSize + VarSize);
    RunBinary(code, p + 3, m3, Temp(t + 3), "+", base, Temp(t + 2), b, i * VarSize + VarSize, b + (i * VarSize + VarSize));
  }

  /** The address computation writes only its own temporaries. */
  lemma AddressStateFacts(m: Machine, t: nat, b: int, i: int)
    ensures IntAt(AddressState(m, t, b, i), Temp(t + 3)) == Some(b + VarSize * (i + 1))
    ensures Extends(m, AddressState(m, t, b, i), t)
  {
  }

  /** The element address is the base plus one header word plus a word per preceding element. */
  lemma ElementAddressSpec(code: seq<Instr>, p: nat, base: Location, sub: Location, t: nat, m: Machine, b: int, i: int)
    requires At(code, p, ElementAddressCode(base, sub, t))
    requires OlderThan(base, t) && OlderThan(sub, t)
    requires IntAt(m, base) == Some(b) && IntAt(m, sub) == Some(i)
    ensures Run(code, p, m) == Run(code, p + 4, AddressState(m, t, b, i))
    ensures IntAt(AddressState(m, t, b, i), Temp(t + 3)) == Some(b + VarSize * (i + 1))
    ensures Extends(m, AddressState(m, t, b, i), t)
  {
    AddressCodeAt(code, p, base, sub, t);
    AddressStateFacts(m, t, b, i);
    AddressRunScale(code, p, base, sub, t, m, i);
    AddressRunAdd(code, p, base, sub, t, m, b, i);
  }

  // ----- reading an element: as written and corrected -----

  /**
   * The memory holds exactly one array block: `len` at `b`, then one word
   * per element, `VarSize * (len + 1)` bytes in all, as the new-array code
   * allocates it.
   */
  predicate OnlyBlock(m: Machine, b: int, len: int)
  {
    && b in m.mem && m.mem[b] == IntV(len)
    && (forall a :: a in m.mem ==> b <= a < b + VarSize * (len + 1))
    && (forall a :: b <= a < b + VarSize * (len + 1) ==> a in m.mem)
  }

  /** `ArrayAccess::Emit` as written: the element is loaded one word past its address. */
  function ElementLoadAsWritten(addr: Location, t: nat): Instr
  {
    Load(Temp(t), addr, VarSize)
  }

  /** The load the address computation calls for: at the element's address. */
  function ElementLoad(addr: Location, t: nat): Instr
  {
    Load(Temp(t), addr, 0)
  }

  /**
   * As written, reading the last element of an array of length `len`
   * reaches one word past the allocated block, so it gets stuck.
   */
  lemma AsWrittenLastElementOutsideBlock(code: seq<Instr>, p: nat, addr: Location, t: nat, m: Machine, b: int, len: int)
    requires At(code, p, [ElementLoadAsWritten(addr, t)])
    requires len >= 1 && OnlyBlock(m, b, len)
    requires IntAt(m, addr) == Some(b + VarSize * ((len - 1) + 1))
    ensures Run(code, p, m) == Stuck
  {
    AtIndex(code, p, [ElementLoadAsWritten(addr, t)], 0);
    assert b + VarSize * len + VarSize !in m.mem;
  }

  /** Corrected, every in-bounds element is read from inside the block and never from the length word. */
  lemma CorrectedElementInsideBlock(code: seq<Instr>, p: nat, addr: Location, t: nat, m: Machine, b: int, len: int, i: int)
    requires At(code, p, [ElementLoad(addr, t)])
    requires 0 <= i < len && OnlyBlock(m, b, len)
    requires IntAt(m, addr) == Some(b + VarSize * (i + 1))
    ensures b < b + VarSize * (i + 1) < b + VarSize * (len + 1)
    ensures Run(code, p, m) == Run(code, p + 1, Set(m, Temp(t), m.mem[b + VarSize * (i + 1)]))
  {
    AtIndex(code, p, [ElementLoad(addr, t)], 0);
    assert b + VarSize * (i + 1) in m.mem;
  }

  /** `ArrayAccess::EmitStore` as written: the element is stored one word past its address. */
  function ElementStoreAsWritten(addr: Location, src: Location): Instr
  {
    Store(addr, src, VarSize)
  }

  /**
   * As written, storing into the last element of an array of length `len`
   * writes one word past the allocated block, so it gets stuck.
   */
  lemma AsWrittenLastElementStoreOutsideBlock(code: seq<Instr>, p: nat, addr: Location, src: Location, m: Machine, b: int, len: int)
    requires At(code, p, [ElementStoreAsWritten(addr, src)])
    requires len >= 1 && OnlyBlock(m, b, len)
    requires IntAt(m, addr) == Some(b + VarSize * ((len - 1) + 1))
    ensures Run(code, p, m) == Stuck
  {
    AtIndex(code, p, [ElementStoreAsWritten(addr, src)], 0);
    assert b + VarSize * len + VarSize !in m.mem;
  }

  /**
   * Corrected, storing into an in-bounds element overwrites that element's
   * word inside the block: the block keeps its extent and its length word.
   */
  lemma CorrectedElementStoreInsideBlock(code: seq<Instr>, p: nat, addr: Location, src: Location, m: Machine, b: int, len: int, i: int)
    requires At(code, p, [Store(addr, src, 0)])
    requires 0 <= i < len && OnlyBlock(m, b, len) && src in m.vars
    requires IntAt(m, addr) == Some(b + VarSize * (i + 1))
    ensures OnlyBlock(m.(mem := m.mem[b + VarSize * (i + 1) := m.vars[src]]), b, len)
    ensures Run(code, p, m) == Run(code, p + 1, m.(mem := m.mem[b + VarSize * (i + 1) := m.vars[src]]))
  {
    AtIndex(code, p, [Store(addr, src, 0)], 0);
    assert b + VarSize * (i + 1) in m.mem;
  }

  // ----- the array-size check and allocation -----

  /** `NewArrayExpr::EmitRuntimeSizeCheck` for size `siz`, drawing temporaries from `t` and the label `l`. */
  function SizeCheckCode(siz: Location, t: nat, l: nat): seq<Instr>
  {
    [ LoadConst(Temp(t), 0),
      BinaryOp(Temp(t + 1), "<", siz, Temp(t)),
      BinaryOp(Temp(t + 2), "==", siz, Temp(t)),
      BinaryOp(Temp(t + 3), "||", Temp(t + 1), Temp(t + 2)),
      IfZ(Temp(t + 3), Fresh(l)),
      LoadStrConst(Temp(t + 4), ErrArrBadSize),
      BuiltInCall(None, PrintString, [Temp(t + 4)]),
      BuiltInCall(None, Halt, []),
      MkLabel(Fresh(l)) ]
  }

  /** The size check, instruction by instruction. */
  predicate SizeLaidOut(code: seq<Instr>, p: nat, siz: Location, t: nat, l: nat)
  {
    && p + 9 <= |code|
    && code[p] == LoadConst(Temp(t), 0)
    && code[p + 1] == BinaryOp(Temp(t + 1), "<", siz, Temp(t))
    && code[p + 2] == BinaryOp(Temp(t + 2), "==", siz, Temp(t))
    && code[p + 3] == BinaryOp(Temp(t + 3), "||", Temp(t + 1), Temp(t + 2))
    && code[p + 4] == IfZ(Temp(t + 3), Fresh(l))
    && code[p + 5] == LoadStrConst(Temp(t + 4), ErrArrBadSize)
    && code[p + 6] == BuiltInCall(None, PrintString, [Temp(t + 4)])
    && code[p + 7] == BuiltInCall(None, Halt, [])
    && code[p + 8] == MkLabel(Fresh(l))
  }

  lemma SizeCodeAt(code: seq<Instr>, p: nat, siz: Location, t: nat, l: nat)
    requires At(code, p, SizeCheckCode(siz, t, l))
    ensures SizeLaidOut(code, p, siz, t, l)
  {
    var g := SizeCheckCode(siz, t, l);
    AtIndex(code, p, g, 0); AtIndex(code, p, g, 1); AtIndex(code, p, g, 2); AtIndex(code, p, g, 3);
    AtIndex(code, p, g, 4); AtIndex(code, p, g, 5); AtIndex(code, p, g, 6); AtIndex(code, p, g, 7);
    AtIndex(code, p, g, 8);
  }

  function SizeTestState(m: Machine, t: nat, n: int): Machine
  {
    Set(Set(SizeSignState(m, t, n), Temp(t + 2), IntV(BoolInt(n == 0))), Temp(t + 3), IntV(BoolInt(n <= 0)))
  }

  /** The machine after the comparison with zero. */
  function SizeSignState(m: Machine, t: nat, n: int): Machine
  {
    Set(Set(m, Temp(t), IntV(0)), Temp(t + 1), IntV(BoolInt(n < 0)))
  }

  lemma SizeRunSign(code: seq<Instr>, p: nat, siz: Location, t: nat, m: Machine, n: int)
    requires p + 2 <= |code|
    requires code[p] == LoadConst(Temp(t), 0)
    requires code[p + 1] == BinaryOp(Temp(t + 1), "<", siz, Temp(t))
    requires OlderThan(siz, t) && IntAt(m, siz) == Some(n)
    ensures Run(code, p, m) == Run(code, p + 2, SizeSignState(m, t, n))
  {
    var m1 := Set(m, Temp(t), IntV(0));
    RunConst(code, p, m, Temp(t), 0);
    ApplyLess(n, 0);
    RunBinary(code, p + 1, m1, Temp(t + 1), "<", siz, Temp(t), n, 0, BoolInt(n < 0));
  }

  lemma SizeRunJoin(code: seq<Instr>, p: nat, siz: Location, t: nat, m: Machine, n: int)
    requires p + 4 <= |code|
    requires code[p + 2] == BinaryOp(Temp(t + 2), "==", siz, Temp(t))
    requires code[p + 3] == BinaryOp(Temp(t + 3), "||", Temp(t + 1), Temp(t + 2))
    requires OlderThan(siz, t) && IntAt(m, siz) == Some(n)
    ensures Run(code, p + 2, SizeSignState(m, t, n)) == Run(code, p + 4, SizeTestState(m, t, n))
  {
    var m2 := SizeSignState(m, t, n);
    ApplyEqual(n, 0);
    RunBinary(code, p + 2, m2, Temp(t + 2), "==", siz, Temp(t), n, 0, BoolInt(n == 0));
    var m3 := Set(m2, Temp(t + 2), IntV(BoolInt(n == 0)));
    ApplyOr(BoolInt(n < 0), BoolInt(n == 0));
    RunBinary(code, p + 3, m3, Temp(t + 3), "||", Temp(t + 1), Temp(t + 2), BoolInt(n < 0), BoolInt(n == 0), BoolInt(n <= 0));
  }

  /** The size check writes only its own temporaries. */
  lemma SizeTestStateExtends(m: Machine, t: nat, n: int)
    ensures Extends(m, SizeTestState(m, t, n), t)
    ensures IntAt(SizeTestState(m, t, n), Temp(t + 3)) == Some(BoolInt(n <= 0))
  {
  }

  /** The size check halts with the bad-size message exactly when the size is not positive. */
  lemma SizeCheckSpec(code: seq<Instr>, p: nat, siz: Location, t: nat, l: nat, m: Machine, n: int)
    requires At(code, p, SizeCheckCode(siz, t, l))
    requires OlderThan(siz, t) && IntAt(m, siz) == Some(n)
    ensures n <= 0 ==> Run(code, p, m).Halted? && Run(code, p, m).m.out == m.out + [ErrArrBadSize]
    ensures n > 0 ==> Run(code, p, m) == Run(code, p + 9, SizeTestState(m, t, n)) && Extends(m, SizeTestState(m, t, n), t)
  {
    SizeCodeAt(code, p, siz, t, l);
    var m4 := SizeTestState(m, t, n);
    SizeRunSign(code, p, siz, t, m, n);
    SizeRunJoin(code, p, siz, t, m, n);
    SizeTestStateExtends(m, t, n);
    RunIfZ(code, p + 4, m4, Temp(t + 3), Fresh(l), BoolInt(n <= 0));
    if n > 0 {
      FindHere(code, p + 8, Fresh(l));
      FindSkip(code, p + 7, Fresh(l));
      FindSkip(code, p + 6, Fresh(l));
      FindSkip(code, p + 5, Fresh(l));
    } else {
      RunPrintHalt(code, p + 5, m4, Temp(t + 4), ErrArrBadSize);
    }
  }

  /** The allocation that follows the size check: `VarSize * (size + 1)` bytes, size in the first word. */
  function AllocArrayCode(siz: Location, t: nat): seq<Instr>
  {
    [ BinaryOp(Temp(t + 6), "*", siz, Temp(t)),
      BinaryOp(Temp(t + 7), "+", Temp(t), Temp(t + 6)),
      BuiltInCall(Some(Temp(t + 8)), Alloc, [Temp(t + 7)]),
      Store(Temp(t + 8), siz, 0) ]
  }

  /** The allocation, instruction by instruction. */
  predicate AllocLaidOut(code: seq<Instr>, p: nat, siz: Location, t: nat)
  {
    && p + 4 <= |code|
    && code[p] == BinaryOp(Temp(t + 6), "*", siz, Temp(t))
    && code[p + 1] == BinaryOp(Temp(t + 7), "+", Temp(t), Temp(t + 6))
    && code[p + 2] == BuiltInCall(Some(Temp(t + 8)), Alloc, [Temp(t + 7)])
    && code[p + 3] == Store(Temp(t + 8), siz, 0)
  }

  lemma AllocCodeAt(code: seq<Instr>, p: nat, siz: Location, t: nat)
    requires At(code, p, AllocArrayCode(siz, t))
    ensures AllocLaidOut(code, p, siz, t)
  {
    var g := AllocArrayCode(siz, t);
    AtIndex(code, p, g, 0); AtIndex(code, p, g, 1); AtIndex(code, p, g, 2); AtIndex(code, p, g, 3);
  }

  /**
   * What `NewArrayExpr::Emit` emits after the size: the word size into `t`,
   * the check (temporaries from `t + 1`, label `l`), then the allocation.
   */
  function NewArrayCode(siz: Location, t: nat, l: nat): seq<Instr>
  {
    [LoadConst(Temp(t), VarSize)] + SizeCheckCode(siz, t + 1, l) + AllocArrayCode(siz, t)
  }

  /** Every allocated address lies below the allocation pointer. */
  predicate HeapBelowTop(m: Machine)
  {
    forall a :: a in m.mem ==> a < m.heapTop
  }

  /** The machine after allocating an array of `n` elements at `heapTop`. */
  function AllocState(m: Machine, t: nat, n: int): Machine
  {
    var m2 := Set(Set(m, Temp(t + 6), IntV(n * VarSize)), Temp(t + 7), IntV(VarSize + n * VarSize));
    var size := VarSize + n * VarSize;
    var m3 := Grow(m2, Temp(t + 8), size);
    m3.(mem := m3.mem[m.heapTop := IntV(n)])
  }

  lemma AllocRunSize(code: seq<Instr>, p: nat, siz: Location, t: nat, m: Machine, n: int)
    requires p + 2 <= |code|
    requires code[p] == BinaryOp(Temp(t + 6), "*", siz, Temp(t))
    requires code[p + 1] == BinaryOp(Temp(t + 7), "+", Temp(t), Temp(t + 6))
    requires OlderThan(siz, t + 6) && siz != Temp(t)
    requires IntAt(m, siz) == Some(n) && IntAt(m, Temp(t)) == Some(VarSize)
    ensures Run(code, p, m)
      == Run(code, p + 2, Set(Set(m, Temp(t + 6), IntV(n * VarSize)), Temp(t + 7), IntV(VarSize + n * VarSize)))
  {
    ApplyTimes(n, VarSize);
    RunBinary(code, p, m, Temp(t + 6), "*", siz, Temp(t), n, VarSize, n * VarSize);
    var m1 := Set(m, Temp(t + 6), IntV(n * VarSize));
    ApplyPlus(VarSize, n * VarSize);
    RunBinary(code, p + 1, m1, Temp(t + 7), "+", Temp(t), Temp(t + 6), VarSize, n * VarSize, VarSize + n * VarSize);
  }

  lemma AllocRunStore(code: seq<Instr>, p: nat, siz: Location, t: nat, m: Machine, n: int)
    requires p + 4 <= |code|
    requires code[p + 2] == BuiltInCall(Some(Temp(t + 8)), Alloc, [Temp(t + 7)])
    requires code[p + 3] == Store(Temp(t + 8), siz, 0)
    requires OlderThan(siz, t + 6) && siz != Temp(t)
    requires IntAt(m, siz) == Some(n) && n > 0
    ensures Run(code, p + 2, Set(Set(m, Temp(t + 6), IntV(n * VarSize)), Temp(t + 7), IntV(VarSize + n * VarSize)))
      == Run(code, p + 4, AllocState(m, t, n))
  {
    var m2 := Set(Set(m, Temp(t + 6), IntV(n * VarSize)), Temp(t + 7), IntV(VarSize + n * VarSize));
    var size := VarSize + n * VarSize;
    RunAlloc(code, p + 2, m2, Temp(t + 8), Temp(t + 7), size);
    var m3 := Grow(m2, Temp(t + 8), size);
    assert m.heapTop in Zeroes(m.heapTop, size);
    assert m.heapTop in m3.mem;
    RunStore(code, p + 3, m3, Temp(t + 8), siz, m.heapTop);
  }

  /**
   * With a positive size in `siz` and the word size in temporary `t`, the
   * allocation yields a fresh block of `VarSize * (size + 1)` zeroed bytes
   * whose first word holds the size; the old memory is untouched.
   */
  lemma AllocArraySpec(code: seq<Instr>, p: nat, siz: Location, t: nat, m: Machine, n: int)
    requires At(code, p, AllocArrayCode(siz, t))
    requires OlderThan(siz, t + 6) && siz != Temp(t)
    requires IntAt(m, siz) == Some(n) && n > 0 && IntAt(m, Temp(t)) == Some(VarSize) && HeapBelowTop(m)
    ensures Run(code, p, m) == Run(code, p + 4, AllocState(m, t, n))
    ensures IntAt(AllocState(m, t, n), Temp(t + 8)) == Some(m.heapTop)
    ensures AllocState(m, t, n).heapTop == m.heapTop + VarSize * (n + 1) && AllocState(m, t, n).out == m.out
    ensures forall a :: a in AllocState(m, t, n).mem ==> a in m.mem || m.heapTop <= a < m.heapTop + VarSize * (n + 1)
    ensures forall a :: m.heapTop <= a < m.heapTop + VarSize * (n + 1) ==> a in AllocState(m, t, n).mem
    ensures forall a :: a in m.mem ==> a in AllocState(m, t, n).mem && AllocState(m, t, n).mem[a] == m.mem[a]
    ensures AllocState(m, t, n).mem[m.heapTop] == IntV(n)
  {
    AllocCodeAt(code, p, siz, t);
    AllocRunSize(code, p, siz, t, m, n);
    AllocRunStore(code, p, siz, t, m, n);
    assert m.heapTop !in m.mem;
    forall a | a in m.mem
      ensures a in AllocState(m, t, n).mem && AllocState(m, t, n).mem[a] == m.mem[a]
    {
      assert a < m.heapTop;
    }
  }
}
