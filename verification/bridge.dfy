/**
 * The pure half of the host/guest external-function bridge: the layout of a
 * registration descriptor, the registration table's update rule, and the
 * decoding of an argument call frame.
 */
module Bridge {
  import opened Wrappers
  import opened Utf16
  import opened Memory

  /** The type tags of the bridge's own numbering. */
  const INT := 1
  const REAL := 2
  const STR := 3
  const ARRAY := 4

  // ---------------------------------------------------------------------
  // Registration descriptors

  /**
   * What a host module hands to `extFunctions` for one function. `callback`
   * identifies the host function to call; its effects are not modelled.
   */
  datatype FuncInfo = FuncInfo(
    funcName: seq<int>,
    argumentCount: int,
    returnCount: int,
    args: seq<int>,
    rets: seq<int>,
    callback: nat)

  /** A row of the host's external-callback table. */
  datatype Entry = Entry(callback: nat, argsType: seq<int>)

  function EntryOf(info: FuncInfo): (e: Entry) { Entry(info.callback, info.args) }

  function Max0(n: int): (m: nat) { if n > 0 then n else 0 }

  /** The descriptor's size in bytes: a 4-byte name pointer, two counts, one word per tag. */
  function DescriptorBytes(info: FuncInfo): (bytes: int)
    ensures bytes == 4 * (3 + Max0(info.argumentCount) + Max0(info.returnCount))
  {
    4 + 4 + 4 + Max0(info.argumentCount) * 4 + Max0(info.returnCount) * 4
  }

  /** The slot count asked of the guest allocator: `bufferSize / 4`. */
  function DescriptorSlots(info: FuncInfo): (slots: nat)
    ensures slots == 3 + Max0(info.argumentCount) + Max0(info.returnCount)
    ensures 4 * slots == DescriptorBytes(info)
  {
    DescriptorBytes(info) / 4
  }

  function MapToUint32(s: seq<int>): (r: seq<u32>)
    ensures |r| == |s| && forall i :: 0 <= i < |s| ==> r[i] == ToUint32(s[i])
  {
    seq(|s|, i requires 0 <= i < |s| => ToUint32(s[i]))
  }

  /**
   * The words `extFunctions` writes from the descriptor's start: the name
   * pointer, the two declared counts, every argument tag, every return tag.
   */
  function DescriptorWords(info: FuncInfo, namePtr: int): (w: seq<u32>)
    ensures |w| == 3 + |info.args| + |info.rets|
    ensures w[0] == ToUint32(namePtr)
    ensures w[1] == ToUint32(info.argumentCount) && w[2] == ToUint32(info.returnCount)
    ensures forall i :: 3 <= i < 3 + |info.args| ==> w[i] == ToUint32(info.args[i - 3])
    ensures forall i :: 3 + |info.args| <= i < |w| ==> w[i] == ToUint32(info.rets[i - 3 - |info.args|])
  {
    [ToUint32(namePtr), ToUint32(info.argumentCount), ToUint32(info.returnCount)]
      + MapToUint32(info.args) + MapToUint32(info.rets)
  }

  /** The tag lists fit the slots their declared counts reserve. */
  predicate Fits(info: FuncInfo)
  {
    |info.args| + |info.rets| <= Max0(info.argumentCount) + Max0(info.returnCount)
  }

  /**
   * The written words stay inside the requested region exactly when the tag
   * lists are no longer than the declared counts reserve.
   */
  lemma DescriptorStaysInRegion(info: FuncInfo, namePtr: int)
    ensures |DescriptorWords(info, namePtr)| <= DescriptorSlots(info) <==> Fits(info)
  {
  }

  // ---------------------------------------------------------------------
  // Registration table

  /** What one `extFunctions` call leaves behind. */
  datatype Registration = Registration(table: map<int, Entry>, ok: bool, calls: nat)

  /**
   * Registers `infos` in order from index `from` on, the guest answering
   * `ids[i]` to the i-th one: a positive id stores the entry there, the
   * first non-positive id stops the loop with failure. `calls` is the index
   * the loop stopped at: how many descriptors were handed over in all.
   */
  function Register(table: map<int, Entry>, infos: seq<FuncInfo>, ids: seq<int>, from: nat): (r: Registration)
    requires |ids| == |infos| && from <= |infos|
    ensures from <= r.calls <= |infos|
    decreases |infos| - from
  {
    if from == |infos| then Registration(table, true, from)
    else if ids[from] > 0 then Register(table[ids[from] := EntryOf(infos[from])], infos, ids, from + 1)
    else Registration(table, false, from + 1)
  }

  /**
   * Registration succeeds exactly when the guest accepts every descriptor;
   * otherwise it stops right after the first rejected one, every earlier
   * one having been accepted.
   */
  lemma {:induction false} RegisterOutcome(table: map<int, Entry>, infos: seq<FuncInfo>, ids: seq<int>, from: nat)
    requires |ids| == |infos| && from <= |infos|
    ensures var r := Register(table, infos, ids, from);
      && (r.ok <==> forall i :: from <= i < |ids| ==> ids[i] > 0)
      && (r.ok ==> r.calls == |infos|)
      && (!r.ok ==> ids[r.calls - 1] <= 0)
      && (forall i :: from <= i < r.calls - 1 ==> ids[i] > 0)
    decreases |infos| - from
  {
    if from < |infos| && ids[from] > 0 {
      RegisterOutcome(table[ids[from] := EntryOf(infos[from])], infos, ids, from + 1);
    }
  }

  /**
   * A key the guest did not hand out during the loop keeps its entry (or
   * its absence): registration touches no other row.
   */
  lemma {:induction false} RegisterTouchesOnlyIssuedIds(table: map<int, Entry>, infos: seq<FuncInfo>, ids: seq<int>, from: nat, k: int)
    requires |ids| == |infos| && from <= |infos|
    requires k !in ids[from .. Register(table, infos, ids, from).calls]
    ensures k in Register(table, infos, ids, from).table <==> k in table
    ensures k in table ==> Register(table, infos, ids, from).table[k] == table[k]
    decreases |infos| - from
  {
    if from < |infos| && ids[from] > 0 {
      var calls := Register(table, infos, ids, from).calls;
      assert ids[from] == ids[from .. calls][0];
      assert ids[from + 1 .. calls] == ids[from .. calls][1..];
      RegisterTouchesOnlyIssuedIds(table[ids[from] := EntryOf(infos[from])], infos, ids, from + 1, k);
    }
  }

  /**
   * When the ids the guest handed out during the loop are distinct, every descriptor the loop reached and the guest
   * accepted ends up in the table under its own id.
   */
  lemma {:induction false} RegisterStoresEntries(table: map<int, Entry>, infos: seq<FuncInfo>, ids: seq<int>, from: nat, i: nat)
    requires |ids| == |infos| && from <= |infos|
    requires forall a, b :: from <= a < b < Register(table, infos, ids, from).calls ==> ids[a] != ids[b]
    requires from <= i < Register(table, infos, ids, from).calls && ids[i] > 0
    ensures ids[i] in Register(table, infos, ids, from).table
    ensures Register(table, infos, ids, from).table[ids[i]] == EntryOf(infos[i])
    decreases |infos| - from
  {
    var next := table[ids[from] := EntryOf(infos[from])];
    if i == from {
      var calls := Register(next, infos, ids, from + 1).calls;
      assert ids[from] !in ids[from + 1 .. calls];
      RegisterTouchesOnlyIssuedIds(next, infos, ids, from + 1, ids[from]);
    } else {
      RegisterStoresEntries(next, infos, ids, from + 1, i);
    }
  }

  // ---------------------------------------------------------------------
  // Call frames

  /**
   * An argument as the callback receives it. `Real` keeps the raw 64-bit
   * word the source reinterprets as a double; `NaN` and `Undefined` are what
   * JavaScript yields for a payload read past the end of the frame view.
   */
  datatype Value = Num(n: int) | Real(word: int) | Str(text: seq<int>) | NaN | Undefined

  /** Element `i` of a view, or `undefined` past its end. */
  function At(frame: seq<int>, i: int): (w: Option<int>)
    ensures w.Some? <==> 0 <= i < |frame|
  {
    if 0 <= i < |frame| then Some(frame[i]) else None
  }

  /** `Number(w)` used as a typed-array offset or length: `undefined` becomes NaN, taken as 0. */
  function IndexOrZero(w: Option<int>): (n: int)
  {
    match w
    case Some(n) => n
    case None => 0
  }

  /** How many payload words follow a tag word. */
  function PayloadWords(tag: Option<int>): (n: nat)
  {
    if tag == Some(INT) || tag == Some(REAL) then 1
    else if tag == Some(STR) then 2
    else 0
  }

  /** A decoded argument and where the cursor stands after it. */
  datatype Decoded = Decoded(value: Value, next: nat)

  /** The kind of value each tag produces. */
  predicate KindOf(tag: Option<int>, v: Value)
  {
    if tag == Some(INT) then v.Num? || v.NaN?
    else if tag == Some(REAL) then v.Real? || v.Undefined?
    else if tag == Some(STR) then v.Str?
    else v == Num(0)
  }

  /**
   * Decodes the argument whose tag word is at `idx`: an int or real payload
   * is one word, a string payload is its length then its pointer, any other
   * tag has no payload and leaves the argument 0.
   */
  function DecodeArg(mem: seq<u32>, frame: seq<int>, idx: nat): (r: Result<Decoded>)
    ensures r.Success? ==> r.value.next == idx + 1 + PayloadWords(At(frame, idx))
    ensures r.Success? ==> KindOf(At(frame, idx), r.value.value)
    ensures r.Failure? ==> At(frame, idx) == Some(STR)
  {
    var tag := At(frame, idx);
    if tag == Some(INT) then
      var v := match At(frame, idx + 1) case Some(n) => Num(n) case None => NaN;
      Success(Decoded(v, idx + 2))
    else if tag == Some(REAL) then
      var v := match At(frame, idx + 1) case Some(w) => Real(w) case None => Undefined;
      Success(Decoded(v, idx + 2))
    else if tag == Some(STR) then
      var size := IndexOrZero(At(frame, idx + 1));
      var ptr := IndexOrZero(At(frame, idx + 2));
      match NekoStringToString(mem, ptr, size)
      case Success(s) => Success(Decoded(Str(s), idx + 3))
      case Failure(e) => Failure(e)
    else
      Success(Decoded(Num(0), idx + 1))
  }

  /** What the dispatcher does with the callback. */
  datatype Call = NoCall | Invoke(args: seq<Value>)

  /** The view a frame pointer designates: none for a null pointer. */
  function OpenFrame(mem: seq<u32>, ptr: int, size: int): (r: Result<Option<seq<int>>>)
    ensures r.Success? && r.value.Some? ==> ptr != 0 && FrameView(mem, ptr, size) == Success(r.value.value)
    ensures ptr == 0 ==> r == Success(None)
    ensures r.Failure? <==> ptr != 0 && FrameView(mem, ptr, size).Failure?
  {
    if ptr == 0 then Success(None)
    else match FrameView(mem, ptr, size)
      case Success(v) => Success(Some(v))
      case Failure(e) => Failure(e)
  }

  /** A frame's count header: 0 without a frame, word 0 of its view otherwise. */
  function Count(frame: Option<seq<int>>): (c: Option<int>)
    ensures frame.None? ==> c == Some(0)
    ensures frame.Some? ==> (c.Some? <==> |frame.value| > 0)
    ensures frame.Some? && c.Some? ==> c.value == frame.value[0]
  {
    match frame
    case None => Some(0)
    case Some(v) => At(v, 0)
  }

  function WordsOf(frame: Option<seq<int>>): (w: seq<int>)
  {
    match frame
    case None => []
    case Some(v) => v
  }

  /**
   * `extFunctionCall` as a function of memory: decodes the argument frame
   * and says whether the registered callback is invoked, and with what. The
   * callback runs only for a return count of 0 and 0, 1 or 2 arguments.
   */
  function Dispatch(mem: seq<u32>, argsPtr: int, argsSize: int, retsPtr: int, retsSize: int): (r: Result<Call>)
    ensures r.Success? && r.value.Invoke? ==>
      && OpenFrame(mem, retsPtr, retsSize).Success?
      && Count(OpenFrame(mem, retsPtr, retsSize).value) == Some(0)
      && OpenFrame(mem, argsPtr, argsSize).Success?
      && Count(OpenFrame(mem, argsPtr, argsSize).value) == Some(|r.value.args|)
      && |r.value.args| <= 2
    ensures OpenFrame(mem, argsPtr, argsSize).Success? && OpenFrame(mem, retsPtr, retsSize).Success? ==>
      var argc := Count(OpenFrame(mem, argsPtr, argsSize).value);
      var retc := Count(OpenFrame(mem, retsPtr, retsSize).value);
      (retc != Some(0) || (argc != Some(0) && argc != Some(1) && argc != Some(2))) <==> r == Success(NoCall)
    ensures r.Failure? && OpenFrame(mem, argsPtr, argsSize).Success? && OpenFrame(mem, retsPtr, retsSize).Success? ==>
      var argc := Count(OpenFrame(mem, argsPtr, argsSize).value);
      Count(OpenFrame(mem, retsPtr, retsSize).value) == Some(0) && (argc == Some(1) || argc == Some(2))
  {
    var args := OpenFrame(mem, argsPtr, argsSize);
    var rets := OpenFrame(mem, retsPtr, retsSize);
    if args.Failure? || rets.Failure? then Failure(RangeError)
    else
      var argc, retc := Count(args.value), Count(rets.value);
      var frame := WordsOf(args.value);
      if retc != Some(0) then Success(NoCall)
      else if argc == Some(0) then Success(Invoke([]))
      else if argc == Some(1) then
        match DecodeArg(mem, frame, 1)
        case Success(d) => Success(Invoke([d.value]))
        case Failure(e) => Failure(e)
      else if argc == Some(2) then
        match DecodeArg(mem, frame, 1)
        case Failure(e) => Failure(e)
        case Success(d1) =>
          match DecodeArg(mem, frame, d1.next)
          case Success(d2) => Success(Invoke([d1.value, d2.value]))
          case Failure(e) => Failure(e)
      else Success(NoCall)
  }

  // ---------------------------------------------------------------------
  // The guest's side of a frame, as a reference for the decoder

  /** An argument as the guest lays it out: a tag word, then its payload. */
  datatype Arg = IntArg(n: int) | RealArg(word: int) | StrArg(size: int, ptr: int)

  function EncodeArg(a: Arg): (w: seq<int>)
    ensures 2 <= |w| && |w| == 1 + PayloadWords(Some(w[0]))
  {
    match a
    case IntArg(n) => [INT, n]
    case RealArg(word) => [REAL, word]
    case StrArg(size, ptr) => [STR, size, ptr]
  }

  /** The value the callback should receive for an argument the guest encoded. */
  function Intended(mem: seq<u32>, a: Arg): (r: Result<Value>)
  {
    match a
    case IntArg(n) => Success(Num(n))
    case RealArg(word) => Success(Real(word))
    case StrArg(size, ptr) =>
      match NekoStringToString(mem, ptr, size)
      case Success(s) => Success(Str(s))
      case Failure(e) => Failure(e)
  }

  /** Decoding an encoded argument, wherever it sits in a frame, yields its intended value and steps over it. */
  lemma DecodeEncodedArg(mem: seq<u32>, frame: seq<int>, at: nat, a: Arg)
    requires Intended(mem, a).Success?
    requires at + |EncodeArg(a)| <= |frame|
    requires forall k :: 0 <= k < |EncodeArg(a)| ==> frame[at + k] == EncodeArg(a)[k]
    ensures DecodeArg(mem, frame, at) == Success(Decoded(Intended(mem, a).value, at + |EncodeArg(a)|))
  {
    var w := EncodeArg(a);
    assert frame[at] == w[0] && frame[at + 1] == w[1];
    if a.StrArg? {
      assert frame[at + 2] == w[2];
    }
  }

  /** The return frame the callback paths demand: readable, with a count of zero (or absent). */
  predicate NoReturns(mem: seq<u32>, retsPtr: int, retsSize: int)
  {
    OpenFrame(mem, retsPtr, retsSize).Success? && Count(OpenFrame(mem, retsPtr, retsSize).value) == Some(0)
  }

  /**
   * A frame the guest built for one argument, with a return frame that asks
   * for no values, makes the dispatcher invoke the callback with exactly the
   * intended value.
   */
  lemma DispatchOneEncodedArg(mem: seq<u32>, argsPtr: int, argsSize: int, retsPtr: int, retsSize: int, a: Arg, tail: seq<int>)
    requires argsPtr != 0 && NoReturns(mem, retsPtr, retsSize)
    requires FrameView(mem, argsPtr, argsSize) == Success([1] + EncodeArg(a) + tail)
    requires Intended(mem, a).Success?
    ensures Dispatch(mem, argsPtr, argsSize, retsPtr, retsSize) == Success(Invoke([Intended(mem, a).value]))
  {
    var frame := [1] + EncodeArg(a) + tail;
    assert OpenFrame(mem, argsPtr, argsSize) == Success(Some(frame));
    DecodeEncodedArg(mem, frame, 1, a);
  }

  /**
   * A frame the guest built for two arguments, with a return frame that
   * asks for no values, makes the dispatcher invoke the callback with both
   * intended values, in order: the second tag is read where the first
   * payload ended.
   */
  lemma DispatchTwoEncodedArgs(mem: seq<u32>, argsPtr: int, argsSize: int, retsPtr: int, retsSize: int, a: Arg, b: Arg, tail: seq<int>)
    requires argsPtr != 0 && NoReturns(mem, retsPtr, retsSize)
    requires FrameView(mem, argsPtr, argsSize) == Success([2] + EncodeArg(a) + EncodeArg(b) + tail)
    requires Intended(mem, a).Success? && Intended(mem, b).Success?
    ensures Dispatch(mem, argsPtr, argsSize, retsPtr, retsSize)
      == Success(Invoke([Intended(mem, a).value, Intended(mem, b).value]))
  {
    var frame := [2] + EncodeArg(a) + EncodeArg(b) + tail;
    var d1, d2 := DecodeTwoEncodedArgs(mem, a, b, tail);
    DispatchTwoArgs(mem, argsPtr, argsSize, retsPtr, retsSize, frame, d1, d2);
  }

  /** The two arguments of a two-argument frame decode one after the other to their intended values. */
  lemma DecodeTwoEncodedArgs(mem: seq<u32>, a: Arg, b: Arg, tail: seq<int>) returns (d1: Decoded, d2: Decoded)
    requires Intended(mem, a).Success? && Intended(mem, b).Success?
    ensures var frame := [2] + EncodeArg(a) + EncodeArg(b) + tail;
      && |frame| > 0 && frame[0] == 2
      && d1.value == Intended(mem, a).value && d2.value == Intended(mem, b).value
      && DecodeArg(mem, frame, 1) == Success(d1) && DecodeArg(mem, frame, d1.next) == Success(d2)
  {
    var ea, eb := EncodeArg(a), EncodeArg(b);
    var frame := [2] + ea + eb + tail;
    DecodeEncodedArg(mem, frame, 1, a);
    DecodeEncodedArg(mem, frame, 1 + |ea|, b);
    d1 := Decoded(Intended(mem, a).value, 1 + |ea|);
    d2 := Decoded(Intended(mem, b).value, 1 + |ea| + |eb|);
  }

  /**
   * With two arguments and a return frame asking for none, the callback
   * receives the argument decoded at word 1 and the one decoded where that
   * left off.
   */
  lemma DispatchTwoArgs(mem: seq<u32>, argsPtr: int, argsSize: int, retsPtr: int, retsSize: int, frame: seq<int>, d1: Decoded, d2: Decoded)
    requires argsPtr != 0 && FrameView(mem, argsPtr, argsSize) == Success(frame)
    requires NoReturns(mem, retsPtr, retsSize)
    requires |frame| > 0 && frame[0] == 2
    requires DecodeArg(mem, frame, 1) == Success(d1) && DecodeArg(mem, frame, d1.next) == Success(d2)
    ensures Dispatch(mem, argsPtr, argsSize, retsPtr, retsSize) == Success(Invoke([d1.value, d2.value]))
  {
    assert OpenFrame(mem, argsPtr, argsSize) == Success(Some(frame));
  }
}
