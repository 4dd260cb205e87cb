/**
 * The code generator as the core sees it: a sink of pseudo-instructions.
 * Every `Gen*` call appends one instruction; a call that yields a value draws
 * a fresh temporary from a counter, and `NewLabel` draws a fresh label from a
 * second counter. Each temporary and each local variable occupies a slot of
 * the current stack frame, counted in `frameBytes`.
 *
 * The layout constants are those of the code generator's interface: the slot
 * size of every variable and the bases of the parameter, global, field and
 * method areas.
 */
module CodeGen {
  import opened Wrappers

  /** Bytes per variable slot. */
  const VarSize: int := 4
  /** Offset of the first parameter from the frame pointer. */
  const OffsetToFirstParam: int := 4
  /** Offset of the first local from the frame pointer. */
  const OffsetToFirstLocal: int := -8
  /** Offset of the first global from the global pointer. */
  const OffsetToFirstGlobal: int := 0
  /** Offset of the first field in an object: word 0 holds the vtable address. */
  const OffsetToFirstField: int := 4
  /** Offset of the first method slot in a vtable. */
  const OffsetToFirstMethod: int := 0

  /** Messages the runtime checks print before halting. */
  const ErrArrOutOfBounds: string := "Decaf runtime error: Array subscript out of bounds\n"
  const ErrArrBadSize: string := "Decaf runtime error: Array size is <= 0\n"

  datatype Segment = FpRelative | GpRelative

  /** A storage location: a named frame or global slot, or a temporary. */
  datatype Location =
    | Loc(segment: Segment, offset: int, name: string)
    | Temp(id: nat)

  /** A label: one drawn from the label counter, or a function or class name. */
  datatype Label = Fresh(id: nat) | Symbolic(name: string)

  /** The runtime library's operations. */
  datatype BuiltIn =
    | Alloc | ReadLine | ReadInteger | StringEqual
    | PrintInt | PrintString | PrintBool | Halt

  /** Whether calling the builtin yields a value (and so a temporary). */
  predicate HasResult(b: BuiltIn)
  {
    b in {Alloc, ReadLine, ReadInteger, StringEqual}
  }

  datatype Instr =
    | LoadConst(dst: Location, value: int)
    | LoadStrConst(dst: Location, text: string)
    | LoadLabel(dst: Location, labelName: string)
    | Assign(dst: Location, src: Location)
    | Load(dst: Location, addr: Location, offset: int)
    | Store(addr: Location, src: Location, offset: int)
    | BinaryOp(dst: Location, op: string, left: Location, right: Location)
    | MkLabel(lbl: Label)
    | IfZ(test: Location, target: Label)
    | Goto(target: Label)
    | Return(retVal: Option<Location>)
    | BeginFunc(frameSize: int)
    | EndFunc
    | PushParam(arg: Location)
    | PopParams(bytes: int)
    | LCall(result: Option<Location>, fnLabel: string)
    | ACall(result: Option<Location>, fnAddr: Location)
    | BuiltInCall(result: Option<Location>, fn: BuiltIn, args: seq<Location>)
    | VTable(className: string, methodLabels: seq<string>)

  /** The location of the receiver in a method's frame. */
  function ThisLoc(): (l: Location)
    ensures l.Loc? && l.segment == FpRelative && l.offset == OffsetToFirstParam
  {
    Loc(FpRelative, OffsetToFirstParam, "this")
  }

  /** A location that was not drawn at or after temporary number `t`. */
  predicate OlderThan(l: Location, t: nat)
  {
    l.Temp? ==> l.id < t
  }

  class CodeGenerator {
    var code: seq<Instr>
    var nextTemp: nat
    var nextLabel: nat
    var frameBytes: nat

    constructor ()
      ensures code == [] && nextTemp == 0 && nextLabel == 0 && frameBytes == 0
    {
      code, nextTemp, nextLabel, frameBytes := [], 0, 0, 0;
    }

    method NewLabel() returns (l: Label)
      modifies this
      ensures l == Fresh(old(nextLabel)) && nextLabel == old(nextLabel) + 1
      ensures code == old(code) && nextTemp == old(nextTemp) && frameBytes == old(frameBytes)
    {
      l := Fresh(nextLabel);
      nextLabel := nextLabel + 1;
    }

    method GenTempVar() returns (t: Location)
      modifies this
      ensures t == Temp(old(nextTemp)) && nextTemp == old(nextTemp) + 1
      ensures frameBytes == old(frameBytes) + VarSize
      ensures code == old(code) && nextLabel == old(nextLabel)
    {
      t := Temp(nextTemp);
      nextTemp := nextTemp + 1;
      frameBytes := frameBytes + VarSize;
    }

    /** A frame slot of `size` bytes for a local variable. */
    method GenLocalVar(name: string, size: nat) returns (l: Location)
      modifies this
      ensures l == Loc(FpRelative, OffsetToFirstLocal - old(frameBytes), name)
      ensures frameBytes == old(frameBytes) + size
      ensures code == old(code) && nextTemp == old(nextTemp) && nextLabel == old(nextLabel)
    {
      l := Loc(FpRelative, OffsetToFirstLocal - frameBytes, name);
      frameBytes := frameBytes + size;
    }

    method Append(i: Instr)
      modifies this
      ensures code == old(code) + [i]
      ensures nextTemp == old(nextTemp) && nextLabel == old(nextLabel) && frameBytes == old(frameBytes)
    {
      code := code + [i];
    }

    method GenLoadConstant(value: int) returns (dst: Location)
      modifies this
      ensures dst == Temp(old(nextTemp)) && nextTemp == old(nextTemp) + 1
      ensures code == old(code) + [LoadConst(dst, value)]
      ensures frameBytes == old(frameBytes) + VarSize && nextLabel == old(nextLabel)
    {
      dst := GenTempVar();
      Append(LoadConst(dst, value));
    }

    method GenLoadStrConstant(text: string) returns (dst: Location)
      modifies this
      ensures dst == Temp(old(nextTemp)) && nextTemp == old(nextTemp) + 1
      ensures code == old(code) + [LoadStrConst(dst, text)]
      ensures frameBytes == old(frameBytes) + VarSize && nextLabel == old(nextLabel)
    {
      dst := GenTempVar();
      Append(LoadStrConst(dst, text));
    }

    method GenLoadLabel(labelName: string) returns (dst: Location)
      modifies this
      ensures dst == Temp(old(nextTemp)) && nextTemp == old(nextTemp) + 1
      ensures code == old(code) + [LoadLabel(dst, labelName)]
      ensures frameBytes == old(frameBytes) + VarSize && nextLabel == old(nextLabel)
    {
      dst := GenTempVar();
      Append(LoadLabel(dst, labelName));
    }

    method GenLoad(addr: Location, offset: int) returns (dst: Location)
      modifies this
      ensures dst == Temp(old(nextTemp)) && nextTemp == old(nextTemp) + 1
      ensures code == old(code) + [Load(dst, addr, offset)]
      ensures frameBytes == old(frameBytes) + VarSize && nextLabel == old(nextLabel)
    {
      dst := GenTempVar();
      Append(Load(dst, addr, offset));
    }

    method GenBinaryOp(op: string, left: Location, right: Location) returns (dst: Location)
      modifies this
      ensures dst == Temp(old(nextTemp)) && nextTemp == old(nextTemp) + 1
      ensures code == old(code) + [BinaryOp(dst, op, left, right)]
      ensures frameBytes == old(frameBytes) + VarSize && nextLabel == old(nextLabel)
    {
      dst := GenTempVar();
      Append(BinaryOp(dst, op, left, right));
    }

    /** A call into the runtime; a temporary receives the result if there is one. */
    method GenBuiltInCall(fn: BuiltIn, args: seq<Location>) returns (dst: Option<Location>)
      modifies this
      ensures HasResult(fn) ==> dst == Some(Temp(old(nextTemp))) && nextTemp == old(nextTemp) + 1
                                 && frameBytes == old(frameBytes) + VarSize
      ensures !HasResult(fn) ==> dst == None && nextTemp == old(nextTemp)
                                 && frameBytes == old(frameBytes)
      ensures code == old(code) + [BuiltInCall(dst, fn, args)]
      ensures nextLabel == old(nextLabel)
    {
      if HasResult(fn) {
        var t := GenTempVar();
        dst := Some(t);
      } else {
        dst := None;
      }
      Append(BuiltInCall(dst, fn, args));
    }

    /** A call to a function label; a temporary receives the result if there is one. */
    method GenLCall(fn: string, hasReturn: bool) returns (dst: Option<Location>)
      modifies this
      ensures hasReturn ==> dst == Some(Temp(old(nextTemp))) && nextTemp == old(nextTemp) + 1
                            && frameBytes == old(frameBytes) + VarSize
      ensures !hasReturn ==> dst == None && nextTemp == old(nextTemp) && frameBytes == old(frameBytes)
      ensures code == old(code) + [LCall(dst, fn)]
      ensures nextLabel == old(nextLabel)
    {
      if hasReturn {
        var t := GenTempVar();
        dst := Some(t);
      } else {
        dst := None;
      }
      Append(LCall(dst, fn));
    }

    /** A call through a computed address; a temporary receives the result if there is one. */
    method GenACall(fnAddr: Location, hasReturn: bool) returns (dst: Option<Location>)
      modifies this
      ensures hasReturn ==> dst == Some(Temp(old(nextTemp))) && nextTemp == old(nextTemp) + 1
                            && frameBytes == old(frameBytes) + VarSize
      ensures !hasReturn ==> dst == None && nextTemp == old(nextTemp) && frameBytes == old(frameBytes)
      ensures code == old(code) + [ACall(dst, fnAddr)]
      ensures nextLabel == old(nextLabel)
    {
      if hasReturn {
        var t := GenTempVar();
        dst := Some(t);
      } else {
        dst := None;
      }
      Append(ACall(dst, fnAddr));
    }

    /** Starts a function body: the frame of the new function starts empty. */
    method GenBeginFunc(frameSize: int)
      modifies this
      ensures code == old(code) + [BeginFunc(frameSize)] && frameBytes == 0
      ensures nextTemp == old(nextTemp) && nextLabel == old(nextLabel)
    {
      code := code + [BeginFunc(frameSize)];
      frameBytes := 0;
    }
  }

  /**
   * The stack of exit labels of the loops being emitted; `break` jumps to
   * its top. The last element of `labels` is the top.
   */
  class BreakStack {
    var labels: seq<Label>

    constructor ()
      ensures labels == []
    {
      labels := [];
    }

    method Push(l: Label)
      modifies this
      ensures labels == old(labels) + [l]
    {
      labels := labels + [l];
    }

    method Pop()
      requires labels != []
      modifies this
      ensures labels == old(labels)[..|old(labels)| - 1]
    {
      labels := labels[..|labels| - 1];
    }

    function Top(): (l: Label)
      reads this
      requires labels != []
      ensures l == labels[|labels| - 1]
    {
      labels[|labels| - 1]
    }
  }
}
