/**
 * The host object of the bridge (class `NekoBasic`): it owns the guest's
 * linear memory, the external-callback table and the run flag, encodes
 * strings into the guest, registers host functions, decodes external calls
 * and drives the interpreter in step batches.
 *
 * The guest module is an oracle. Its allocator is a bump pointer over the
 * memory (`heapTop`, in slots), which hands out fresh, never-overlapping
 * regions; its registrar, step function and source loader are answers
 * passed in as parameters. Everything the host hands to its own callbacks
 * (`putchar`, `stateChange`, `vSync`, `loadTextFile`, the registered
 * functions) and every call into the guest except the allocator is
 * recorded, in order, in `events`; an allocation shows only in `heapTop`.
 */
module Host {
  import opened Wrappers
  import opened Utf16
  import opened Memory
  import opened Bridge
  import opened Layout

  /** 256 MiB of linear memory, as 32-bit slots. */
  const HEAP_BYTES := 256 * 1024 * 1024
  const HEAP_SLOTS := HEAP_BYTES / 4

  /** At most this many interpreter steps run per `#update`. */
  const STEPS_PER_UPDATE := 400

  /** "OK\n" */
  const OK_TEXT: seq<int> := [0x4F, 0x4B, 0x0A]

  /** "Neko Basic Version 0.00.00\nOK\n", the start-up banner. */
  const BANNER: seq<int> :=
    [0x4E, 0x65, 0x6B, 0x6F, 0x20, 0x42, 0x61, 0x73, 0x69, 0x63, 0x20,
     0x56, 0x65, 0x72, 0x73, 0x69, 0x6F, 0x6E, 0x20,
     0x30, 0x2E, 0x30, 0x30, 0x2E, 0x30, 0x30, 0x0A] + OK_TEXT

  /** What the host does that is visible outside it, in order. */
  datatype Event =
    | VSync
    | Putchar(codePoint: int)
    | StateChange(state: int)
    | GuestStep
    | GuestRegister(descriptor: nat)
    | GuestSetSource(slot: int, filename: nat, source: nat)
    | LoadTextFileRequest(name: seq<int>)
    | Callback(callback: nat, args: seq<Value>)

  function Putchars(cps: seq<int>): (es: seq<Event>)
    ensures |es| == |cps| && forall i :: 0 <= i < |cps| ==> es[i] == Putchar(cps[i])
  {
    seq(|cps|, i requires 0 <= i < |cps| => Putchar(cps[i]))
  }

  function GuestSteps(n: nat): (es: seq<Event>)
    ensures |es| == n && forall i :: 0 <= i < n ==> es[i] == GuestStep
  {
    seq(n, _ => GuestStep)
  }

  /** The index of the first failing step at or after `from`, or `limit` if none fails before it. */
  function FirstFailure(stepOk: nat -> bool, from: nat, limit: nat): (k: nat)
    requires from <= limit
    ensures from <= k <= limit
    ensures forall i :: from <= i < k ==> stepOk(i)
    ensures k < limit ==> !stepOk(k)
    decreases limit - from
  {
    if from == limit || !stepOk(from) then from else FirstFailure(stepOk, from + 1, limit)
  }

  /**
   * How many steps one batch executes: up to and including the first
   * failing one, and never more than STEPS_PER_UPDATE.
   */
  function StepsTaken(stepOk: nat -> bool): (n: nat)
    ensures 1 <= n <= STEPS_PER_UPDATE
    ensures forall i :: 0 <= i < n - 1 ==> stepOk(i)
    ensures n < STEPS_PER_UPDATE ==> !stepOk(n - 1)
    ensures (forall i :: 0 <= i < STEPS_PER_UPDATE ==> stepOk(i)) <==> n == STEPS_PER_UPDATE && stepOk(n - 1)
  {
    var k := FirstFailure(stepOk, 0, STEPS_PER_UPDATE);
    if k < STEPS_PER_UPDATE then k + 1 else STEPS_PER_UPDATE
  }

  /**
   * The cursor walk over one argument: read the tag, then the payload words
   * it calls for.
   */
  method ReadArgument(mem: seq<u32>, frame: seq<int>, idx: nat) returns (r: Result<Decoded>)
    ensures r == DecodeArg(mem, frame, idx)
  {
    var cursor := idx;
    var t := At(frame, cursor);
    cursor := cursor + 1;
    var arg := Num(0);
    if t == Some(INT) {
      arg := match At(frame, cursor) case Some(n) => Num(n) case None => NaN;
      cursor := cursor + 1;
    } else if t == Some(REAL) {
      arg := match At(frame, cursor) case Some(w) => Real(w) case None => Undefined;
      cursor := cursor + 1;
    } else if t == Some(STR) {
      var strSize := IndexOrZero(At(frame, cursor));
      cursor := cursor + 1;
      var memPtrStr := IndexOrZero(At(frame, cursor));
      cursor := cursor + 1;
      var s := NekoStringToString(mem, memPtrStr, strSize);
      if s.Failure? {
        return Failure(s.error);
      }
      arg := Str(s.value);
    }
    r := Success(Decoded(arg, cursor));
  }

  /**
   * The event log after the `NekoBasicRegisterExtFunction` calls for the
   * first `n` descriptors, allocated from slot `top` on: each call names
   * where its descriptor starts.
   */
  function Submitted(log: seq<Event>, top: nat, infos: seq<FuncInfo>, n: nat): (es: seq<Event>)
    requires n <= |infos|
    ensures |es| == |log| + n
  {
    if n == 0 then log
    else Submitted(log, top, infos, n - 1) + [GuestRegister(4 * (top + RoomFor(infos, n - 1)))]
  }

  /**
   * The log keeps what it held, and its `k`-th new event is the registrar
   * call for descriptor `k`, naming the byte address where that descriptor
   * starts.
   */
  lemma {:induction false} SubmittedAddresses(log: seq<Event>, top: nat, infos: seq<FuncInfo>, n: nat, k: nat)
    requires n <= |infos| && k < n
    ensures Submitted(log, top, infos, n)[..|log|] == log
    ensures Submitted(log, top, infos, n)[|log| + k] == GuestRegister(4 * (top + RoomFor(infos, k)))
    decreases n
  {
    if k < n - 1 {
      SubmittedAddresses(log, top, infos, n - 1, k);
    } else if n > 1 {
      SubmittedAddresses(log, top, infos, n - 1, 0);
    }
  }

  /** One more `NekoBasicRegisterExtFunction` call, for descriptor `n`. */
  lemma SubmittedNext(log: seq<Event>, top: nat, infos: seq<FuncInfo>, n: nat)
    requires n < |infos|
    ensures Submitted(log, top, infos, n + 1) == Submitted(log, top, infos, n) + [GuestRegister(4 * (top + RoomFor(infos, n)))]
  {
  }

  /** What the host answers `loadTextFile` with, as its callback decided. */
  datatype LoadReply = LoadReply(result: bool, text: seq<int>)

  class NekoBasic {
    const memory: array<u32>
    /** Slots below this index are allocated. */
    var heapTop: nat
    /** `#extCallbackFunc`, keyed by the id the guest returned. */
    var table: map<int, Entry>
    /** 0 when stopped, 1 when running. */
    var isRunning: int
    var events: seq<Event>

    /** Which of the optional host callbacks were supplied. */
    const hasPutchar: bool
    const hasVSync: bool
    const hasStateChange: bool
    const hasLoadTextFile: bool

    ghost predicate Valid()
      reads this`heapTop
    {
      memory.Length == HEAP_SLOTS && 1 <= heapTop <= memory.Length
    }

    /**
     * Slots `base` onwards of the memory hold `slots`: what the writing
     * methods promise about the live memory, slot by slot.
     */
    ghost predicate Holds(base: nat, slots: seq<int>)
      reads memory
    {
      base + |slots| <= memory.Length && forall j :: base <= j < base + |slots| ==> memory[j] == slots[j - base]
    }

    /** The slot-by-slot view of `Holds` as a slice of the memory. */
    lemma HoldsPlaced(base: nat, slots: seq<int>)
      requires Holds(base, slots)
      ensures Placed(memory[..], base, slots)
    {
      PlacedPointwise(memory[..], base, slots);
    }

    /** The two regions `WriteDescriptor` fills make up a descriptor in the memory's slice view. */
    lemma PlacesDescriptor(base: nat, info: FuncInfo, memPtr: nat, namePtr: nat)
      requires IsString(info.funcName) && Fits(info)
      requires memPtr == 4 * base && namePtr == memPtr + 4 * DescriptorSlots(info)
      requires Holds(memPtr / 4, DescriptorWords(info, namePtr))
      requires Holds(namePtr / 4, NekoStringSlots(info.funcName))
      ensures DescriptorAt(memory[..], base, info)
    {
      assert memPtr / 4 == base && namePtr / 4 == base + DescriptorSlots(info);
      HoldsPlaced(base, DescriptorWords(info, namePtr));
      HoldsPlaced(base + DescriptorSlots(info), NekoStringSlots(info.funcName));
    }

    /**
     * The two regions `WriteDescriptor` fills for descriptor `i`, right after
     * a run of `i` descriptors that the writes left alone, extend the run.
     */
    lemma AppendsDescriptor(m0: seq<u32>, top: nat, infos: seq<FuncInfo>, i: nat, memPtr: nat, namePtr: nat)
      requires i < |infos| && IsString(infos[i].funcName) && Fits(infos[i])
      requires memPtr == 4 * (top + RoomFor(infos, i)) && namePtr == memPtr + 4 * DescriptorSlots(infos[i])
      requires |m0| == memory.Length && Laid(m0, top, infos, i)
      requires top + RoomFor(infos, i) <= memory.Length
      requires forall j :: 0 <= j < top + RoomFor(infos, i) ==> memory[j] == m0[j]
      requires Holds(memPtr / 4, DescriptorWords(infos[i], namePtr))
      requires Holds(namePtr / 4, NekoStringSlots(infos[i].funcName))
      ensures Laid(memory[..], top, infos, i + 1)
    {
      PlacesDescriptor(top + RoomFor(infos, i), infos[i], memPtr, namePtr);
      LaidAppend(m0, memory[..], top, infos, i);
    }

    /** What `#setRunning(to)` reports when the flag was `from`. */
    function Notify(from: int, to: int): (es: seq<Event>)
      ensures es == [] || es == [StateChange(to)]
      ensures es != [] <==> from != to && hasStateChange
    {
      if from != to && hasStateChange then [StateChange(to)] else []
    }

    function VSyncs(): (es: seq<Event>)
    {
      if hasVSync then [VSync] else []
    }

    /** What `#outputString(text)` emits. */
    function Output(text: seq<int>): (es: seq<Event>)
      ensures |es| <= |text|
      ensures hasPutchar ==> |es| == |CodePoints(text)| && forall i :: 0 <= i < |es| ==> es[i] == Putchar(CodePoints(text)[i])
      ensures !hasPutchar ==> es == []
    {
      if hasPutchar then Putchars(CodePoints(text)) else []
    }

    /**
     * Zeroed memory whose allocator starts at `heapBase`, past the null
     * pointer's slot, an empty table, the flag at 0, and the banner when both
     * `putchar` and `vSync` are given.
     */
    constructor (putchar: bool, vSync: bool, stateChange: bool, loadTextFile: bool, heapBase: nat)
      requires 1 <= heapBase <= HEAP_SLOTS
      ensures Valid() && fresh(memory)
      ensures hasPutchar == putchar && hasVSync == vSync
      ensures hasStateChange == stateChange && hasLoadTextFile == loadTextFile
      ensures forall j :: 0 <= j < memory.Length ==> memory[j] == 0
      ensures heapTop == heapBase && table == map[] && isRunning == 0
      ensures events == if putchar && vSync then Putchars(CodePoints(BANNER)) + [VSync] else []
    {
      hasPutchar, hasVSync, hasStateChange, hasLoadTextFile := putchar, vSync, stateChange, loadTextFile;
      memory := new u32[HEAP_SLOTS](_ => 0);
      heapTop := heapBase;
      table := map[];
      isRunning := 0;
      events := [];
      new;
      if hasPutchar && hasVSync {
        OutputString(BANNER);
        events := events + [VSync];
      }
    }

    /** `NekoBasicMalloc(slots)`: a fresh region of `slots` slots; returns its byte address. */
    method GuestMalloc(slots: nat) returns (ptr: nat)
      requires Valid() && heapTop + slots <= memory.Length
      modifies this`heapTop
      ensures Valid()
      ensures ptr == 4 * old(heapTop) && ptr / 4 == old(heapTop) && heapTop == old(heapTop) + slots
      ensures ptr != 0
    {
      ptr := 4 * heapTop;
      heapTop := heapTop + slots;
    }

    /**
     * `#stringTonekoString`: asks for `|text| + 1` slots and fills the first
     * ones with the string's code points and a 0; no other slot changes.
     */
    method StringToNekoString(text: seq<int>) returns (memPtr: nat)
      requires Valid() && IsString(text) && heapTop + |text| + 1 <= memory.Length
      modifies this`heapTop, memory
      ensures Valid()
      ensures memPtr == 4 * old(heapTop) && heapTop == old(heapTop) + |text| + 1
      ensures Holds(old(heapTop), NekoStringSlots(text))
      ensures forall j :: 0 <= j < memory.Length && !(old(heapTop) <= j < old(heapTop) + |NekoStringSlots(text)|) ==>
        memory[j] == old(memory[j])
    {
      var len := |text|;
      memPtr := GuestMalloc(len + 1);
      var base := memPtr / 4;
      var cps := CodePoints(text);
      CopyWords(base, cps);
      memory[base + |cps|] := 0;
    }

    /**
     * A `Uint32Array` store loop: `words[k]` goes, converted to 32 bits, to
     * slot `base + k`; no other slot changes.
     */
    method CopyWords(base: nat, words: seq<int>)
      requires base + |words| <= memory.Length
      modifies memory
      ensures forall j :: base <= j < base + |words| ==> memory[j] == ToUint32(words[j - base])
      ensures forall j :: 0 <= j < memory.Length && !(base <= j < base + |words|) ==> memory[j] == old(memory[j])
    {
      for i := 0 to |words|
        invariant forall j :: base <= j < base + i ==> memory[j] == ToUint32(words[j - base])
        invariant forall j :: 0 <= j < memory.Length && !(base <= j < base + i) ==> memory[j] == old(memory[j])
      {
        memory[base + i] := ToUint32(words[i]);
      }
    }

    /** `#outputString`: one `putchar` per code point, if there is a `putchar`. */
    method OutputString(text: seq<int>)
      modifies this`events
      ensures events == old(events) + Output(text)
    {
      if hasPutchar {
        var cps := CodePoints(text);
        for i := 0 to |cps|
          invariant events == old(events) + Putchars(cps[..i])
        {
          events := events + [Putchar(cps[i])];
          assert Putchars(cps[..i + 1]) == Putchars(cps[..i]) + [Putchar(cps[i])];
        }
        assert cps[..|cps|] == cps;
      }
    }

    /** `#setRunning`: notifies only on a change; afterwards the flag is `state`. */
    method SetRunning(state: int)
      modifies this`isRunning, this`events
      ensures isRunning == state
      ensures events == old(events) + Notify(old(isRunning), state)
    {
      if isRunning != state {
        if hasStateChange {
          events := events + [StateChange(state)];
        }
        isRunning := state;
      }
    }

    /** `run`: nothing when already running, otherwise the flag becomes 1. */
    method Run()
      modifies this`isRunning, this`events
      ensures old(isRunning) != 0 ==> isRunning == old(isRunning) && events == old(events)
      ensures old(isRunning) == 0 ==> isRunning == 1 && events == old(events) + Notify(0, 1)
    {
      if isRunning != 0 {
        return;
      }
      SetRunning(1);
    }

    /** `stop`: the flag becomes 0. */
    method Stop()
      modifies this`isRunning, this`events
      ensures isRunning == 0
      ensures events == old(events) + Notify(old(isRunning), 0)
    {
      SetRunning(0);
    }

    /**
     * The step loop of `#update`: executes steps until one fails or
     * STEPS_PER_UPDATE have run, and tells whether one failed.
     */
    method ExecuteSteps(stepOk: nat -> bool) returns (failed: bool)
      modifies this`events
      ensures failed <==> FirstFailure(stepOk, 0, STEPS_PER_UPDATE) < STEPS_PER_UPDATE
      ensures events == old(events) + GuestSteps(StepsTaken(stepOk))
    {
      var i := 0;
      while i < STEPS_PER_UPDATE
        invariant 0 <= i <= STEPS_PER_UPDATE
        invariant forall j :: 0 <= j < i ==> stepOk(j)
        invariant events == old(events) + GuestSteps(i)
      {
        events := events + [GuestStep];
        assert GuestSteps(i + 1) == GuestSteps(i) + [GuestStep];
        if !stepOk(i) {
          assert FirstFailure(stepOk, 0, STEPS_PER_UPDATE) == i;
          assert StepsTaken(stepOk) == i + 1;
          return true;
        }
        i := i + 1;
      }
      assert FirstFailure(stepOk, 0, STEPS_PER_UPDATE) == STEPS_PER_UPDATE;
      return false;
    }

    /**
     * `#update`, one batch: when running, execute steps until one fails or
     * STEPS_PER_UPDATE have run; the first failure stops the interpreter and
     * prints "OK\n", and no step runs after it.
     */
    method Update(stepOk: nat -> bool)
      modifies this`isRunning, this`events
      ensures old(isRunning) == 0 ==> isRunning == 0 && events == old(events) + VSyncs()
      ensures old(isRunning) != 0 && FirstFailure(stepOk, 0, STEPS_PER_UPDATE) == STEPS_PER_UPDATE ==>
        && isRunning == old(isRunning)
        && events == old(events) + VSyncs() + GuestSteps(StepsTaken(stepOk))
      ensures old(isRunning) != 0 && FirstFailure(stepOk, 0, STEPS_PER_UPDATE) < STEPS_PER_UPDATE ==>
        && isRunning == 0
        && events == old(events) + VSyncs() + GuestSteps(StepsTaken(stepOk))
                     + Notify(old(isRunning), 0) + Output(OK_TEXT) + VSyncs()
    {
      if hasVSync {
        events := events + [VSync];
      }
      if isRunning != 0 {
        var failed := ExecuteSteps(stepOk);
        if failed {
          SetRunning(0);
          OutputString(OK_TEXT);
          if hasVSync {
            events := events + [VSync];
          }
        }
      }
    }

    /**
     * The descriptor part of `extFunctions` for one function: asks for
     * `bufferSize / 4` slots, encodes the name, then writes the name pointer,
     * the two counts and the tags from the descriptor's first slot on.
     */
    method WriteDescriptor(info: FuncInfo) returns (memPtr: nat, namePtr: nat)
      requires Valid() && IsString(info.funcName) && Fits(info)
      requires heapTop + Footprint(info) <= memory.Length
      modifies this`heapTop, memory
      ensures Valid()
      ensures memPtr == 4 * old(heapTop) && namePtr == memPtr + 4 * DescriptorSlots(info)
      ensures heapTop == old(heapTop) + Footprint(info)
      ensures Holds(memPtr / 4, DescriptorWords(info, namePtr))
      ensures Holds(namePtr / 4, NekoStringSlots(info.funcName))
      ensures forall j :: 0 <= j < old(heapTop) ==> memory[j] == old(memory[j])
      ensures forall j :: 0 <= j < memory.Length && OffDescriptor(j, old(heapTop), info) ==> memory[j] == old(memory[j])
      ensures forall j :: heapTop <= j < memory.Length ==> memory[j] == old(memory[j])
    {
      var bufferSize := DescriptorBytes(info);
      memPtr := GuestMalloc(bufferSize / 4);
      namePtr := StringToNekoString(info.funcName);
      var base, nameBase := memPtr / 4, namePtr / 4;
      ghost var name := NekoStringSlots(info.funcName);
      assert base == old(heapTop) && nameBase == base + DescriptorSlots(info);
      assert |DescriptorWords(info, namePtr)| <= DescriptorSlots(info);
      FillDescriptor(base, info, namePtr);
    }

    /** The word-writing loops of `extFunctions`: the descriptor's words from slot `base` on, and nothing else. */
    method FillDescriptor(base: nat, info: FuncInfo, namePtr: int)
      requires base + 3 + |info.args| + |info.rets| <= memory.Length
      modifies memory
      ensures Holds(base, DescriptorWords(info, namePtr))
      ensures forall j :: 0 <= j < memory.Length && !(base <= j < base + |DescriptorWords(info, namePtr)|) ==>
        memory[j] == old(memory[j])
    {
      memory[base] := ToUint32(namePtr);
      memory[base + 1] := ToUint32(info.argumentCount);
      memory[base + 2] := ToUint32(info.returnCount);
      CopyWords(base + 3, info.args);
      CopyWords(base + 3 + |info.args|, info.rets);
      DescriptorSlotsMatch(memory[..], base, info, namePtr);
    }

    /**
     * `extFunctions`: registers each descriptor in turn. The guest's answer
     * to the i-th one is `ids[i]`. The table and the outcome are those of
     * `Register`; `ok` false stands for the source's `false`, true for its
     * falling off the end.
     */
    method ExtFunctions(infos: seq<FuncInfo>, ids: seq<int>) returns (ok: bool)
      requires Valid() && |ids| == |infos|
      requires forall i :: 0 <= i < |infos| ==> IsString(infos[i].funcName) && Fits(infos[i])
      requires heapTop + RoomFor(infos, |infos|) <= memory.Length
      modifies this`heapTop, this`table, this`events, memory
      ensures Valid()
      ensures var r := Register(old(table), infos, ids, 0);
        && table == r.table && ok == r.ok
        && heapTop == old(heapTop) + RoomFor(infos, r.calls)
        && events == Submitted(old(events), old(heapTop), infos, r.calls)
        && Laid(memory[..], old(heapTop), infos, r.calls)
        && Untouched(old(memory[..]), memory[..], old(heapTop), infos, r.calls)
      ensures forall j :: 0 <= j < old(heapTop) ==> memory[j] == old(memory[j])
      ensures forall j :: heapTop <= j < memory.Length ==> memory[j] == old(memory[j])
    {
      ghost var outcome := Register(table, infos, ids, 0);
      ghost var top := heapTop;
      var i := 0;
      ok := true;
      while i < |infos| && ok
        invariant 0 <= i <= |infos|
        invariant Valid() && heapTop == top + RoomFor(infos, i)
        invariant outcome == if ok then Register(table, infos, ids, i) else Registration(table, false, i)
        invariant events == Submitted(old(events), top, infos, i)
        invariant Untouched(old(memory[..]), memory[..], top, infos, i)
        invariant forall j :: 0 <= j < top ==> memory[j] == old(memory[j])
        invariant forall j :: heapTop <= j < memory.Length ==> memory[j] == old(memory[j])
        invariant Laid(memory[..], top, infos, i)
      {
        RoomForPrefix(infos, i + 1, |infos|);
        ok := RegisterOne(infos, i, ids[i], top, old(events), old(memory[..]));
        i := i + 1;
      }
    }

    /**
     * One pass of the `extFunctions` loop, for `infos[i]`: the descriptor is
     * written right after the `i` before it and handed to
     * `NekoBasicRegisterExtFunction`, whose answer is `funcId`; a positive id
     * stores the callback and the argument tags under it. The earlier
     * descriptors stay as they were.
     */
    method RegisterOne(infos: seq<FuncInfo>, i: nat, funcId: int, ghost top: nat, ghost log: seq<Event>, ghost m0: seq<u32>) returns (stored: bool)
      requires Valid() && i < |infos| && IsString(infos[i].funcName) && Fits(infos[i])
      requires heapTop == top + RoomFor(infos, i) && heapTop + Footprint(infos[i]) <= memory.Length
      requires Laid(memory[..], top, infos, i) && events == Submitted(log, top, infos, i)
      requires Untouched(m0, memory[..], top, infos, i)
      modifies this`heapTop, this`table, this`events, memory
      ensures Valid() && heapTop == old(heapTop) + Footprint(infos[i])
      ensures events == old(events) + [GuestRegister(4 * old(heapTop))] == Submitted(log, top, infos, i + 1)
      ensures stored == (funcId > 0)
      ensures table == if stored then old(table)[funcId := EntryOf(infos[i])] else old(table)
      ensures Laid(memory[..], top, infos, i + 1)
      ensures forall j :: 0 <= j < old(heapTop) ==> memory[j] == old(memory[j])
      ensures forall j :: heapTop <= j < memory.Length ==> memory[j] == old(memory[j])
      ensures KeptOff(old(memory[..]), memory[..], old(heapTop), infos[i])
      ensures Untouched(m0, memory[..], top, infos, i + 1)
    {
      var info := infos[i];
      var memPtr, namePtr := WriteDescriptor(info);
      AppendsDescriptor(old(memory[..]), top, infos, i, memPtr, namePtr);
      assert KeptOff(old(memory[..]), memory[..], old(heapTop), info);
      UntouchedNext(m0, old(memory[..]), memory[..], top, infos, i);
      ghost var laid := memory[..];
      events := events + [GuestRegister(memPtr)];
      SubmittedNext(log, top, infos, i);
      stored := funcId > 0;
      if stored {
        table := table[funcId := EntryOf(info)];
      }
      assert memory[..] == laid;
    }

    /**
     * `setSource`: encodes the file name and the source, hands both to the
     * guest, whose verdict is `accepted`; a rejection stops the interpreter.
     */
    method SetSource(slotNo: int, filename: seq<int>, source: seq<int>, accepted: bool) returns (ok: bool)
      requires Valid() && IsString(filename) && IsString(source)
      requires heapTop + (|filename| + 1) + (|source| + 1) <= memory.Length
      modifies this`heapTop, this`isRunning, this`events, memory
      ensures Valid()
      ensures ok == accepted
      ensures isRunning == if accepted then old(isRunning) else 0
      ensures Holds(old(heapTop), NekoStringSlots(filename))
      ensures Holds(old(heapTop) + |filename| + 1, NekoStringSlots(source))
      ensures accepted ==>
        events == old(events) + [GuestSetSource(slotNo, 4 * old(heapTop), 4 * (old(heapTop) + |filename| + 1))]
      ensures !accepted ==>
        events == old(events) + [GuestSetSource(slotNo, 4 * old(heapTop), 4 * (old(heapTop) + |filename| + 1))]
                  + Notify(old(isRunning), 0) + VSyncs()
      ensures heapTop == old(heapTop) + (|filename| + 1) + (|source| + 1)
      ensures forall j ::
        && 0 <= j < memory.Length
        && !(old(heapTop) <= j < old(heapTop) + |NekoStringSlots(filename)|)
        && !(old(heapTop) + |filename| + 1 <= j < old(heapTop) + |filename| + 1 + |NekoStringSlots(source)|)
        ==> memory[j] == old(memory[j])
    {
      var memPtrFilename := StringToNekoString(filename);
      ghost var f, name := memPtrFilename / 4, NekoStringSlots(filename);
      assert f == old(heapTop) && |name| <= |filename| + 1;
      var memPtrSource := StringToNekoString(source);
      events := events + [GuestSetSource(slotNo, memPtrFilename, memPtrSource)];
      if !accepted {
        SetRunning(0);
        if hasVSync {
          events := events + [VSync];
        }
        return false;
      }
      return true;
    }

    /** The callback event a dispatch outcome produces. */
    function Invoked(d: Result<Call>, callback: nat): (es: seq<Event>)
    {
      if d.Success? && d.value.Invoke? then [Callback(callback, d.value.args)] else []
    }

    /**
     * The `extFunctionCall` import: decodes the frames, invokes the
     * registered callback as `Dispatch` says, and returns 0 unless a view or
     * a string could not be built, or the callback to invoke was never
     * registered, which throw. The table is consulted only once the call is
     * decided, so an unknown id goes unnoticed when no callback is due.
     */
    method ExtFunctionCall(extFuncId: int, memPtrArgs: int, argsSize: int, memPtrRets: int, retsSize: int)
      returns (r: Result<int>)
      requires Valid()
      modifies this`events
      ensures var d := Dispatch(memory[..], memPtrArgs, argsSize, memPtrRets, retsSize);
        && r == (if d.Failure? then Failure(RangeError)
                 else if d.value.Invoke? && extFuncId !in table then Failure(TypeError)
                 else Success(0))
        && events == old(events) + (if extFuncId in table then Invoked(d, table[extFuncId].callback) else [])
    {
      var mem := memory[..];
      var argsView := OpenFrame(mem, memPtrArgs, argsSize);
      if argsView.Failure? {
        return Failure(RangeError);
      }
      var retsView := OpenFrame(mem, memPtrRets, retsSize);
      if retsView.Failure? {
        return Failure(RangeError);
      }
      var argsCount := Count(argsView.value);
      var retsCount := Count(retsView.value);
      var frame := WordsOf(argsView.value);
      if retsCount == Some(0) {
        if argsCount == Some(0) {
          if extFuncId !in table {
            return Failure(TypeError);
          }
          events := events + [Callback(table[extFuncId].callback, [])];
        } else if argsCount == Some(1) {
          var idx := 1;
          var arg1 := ReadArgument(mem, frame, idx);
          if arg1.Failure? {
            return Failure(arg1.error);
          }
          if extFuncId !in table {
            return Failure(TypeError);
          }
          events := events + [Callback(table[extFuncId].callback, [arg1.value.value])];
        } else if argsCount == Some(2) {
          var idx := 1;
          var arg1 := ReadArgument(mem, frame, idx);
          if arg1.Failure? {
            return Failure(arg1.error);
          }
          idx := arg1.value.next;
          var arg2 := ReadArgument(mem, frame, idx);
          if arg2.Failure? {
            return Failure(arg2.error);
          }
          if extFuncId !in table {
            return Failure(TypeError);
          }
          events := events + [Callback(table[extFuncId].callback, [arg1.value.value, arg2.value.value])];
        }
      }
      return Success(0);
    }

    /**
     * The `loadTextFile` import: 0 without a callback; otherwise the file
     * name is decoded and passed on, and the callback's text is encoded into
     * the guest when its `result` is true, else 0 is returned.
     */
    method LoadTextFile(memPtrFilename: int, filenameSize: int, reply: LoadReply) returns (r: Result<int>)
      requires Valid() && IsString(reply.text) && heapTop + |reply.text| + 1 <= memory.Length
      modifies this`heapTop, this`events, memory
      ensures Valid()
      ensures var name := NekoStringToString(old(memory[..]), memPtrFilename, filenameSize);
        if !hasLoadTextFile || name.Failure? then
          && r == (if hasLoadTextFile then Failure(RangeError) else Success(0))
          && events == old(events) && heapTop == old(heapTop) && memory[..] == old(memory[..])
        else
          && events == old(events) + [LoadTextFileRequest(name.value)]
          && (!reply.result ==> r == Success(0) && heapTop == old(heapTop) && memory[..] == old(memory[..]))
          && (reply.result ==>
                && r == Success(4 * old(heapTop)) && r.value != 0
                && heapTop == old(heapTop) + |reply.text| + 1
                && Holds(old(heapTop), NekoStringSlots(reply.text))
                && forall j :: 0 <= j < memory.Length && !(old(heapTop) <= j < old(heapTop) + |NekoStringSlots(reply.text)|) ==>
                     memory[j] == old(memory[j]))
    {
      if !hasLoadTextFile {
        return Success(0);
      }
      var filename := NekoStringToString(memory[..], memPtrFilename, filenameSize);
      if filename.Failure? {
        return Failure(filename.error);
      }
      events := events + [LoadTextFileRequest(filename.value)];
      if reply.result {
        var ptr := StringToNekoString(reply.text);
        return Success(ptr);
      }
      return Success(0);
    }
  }

  /**
   * A string written by `#stringTonekoString` reads back, with its
   * code-point count as the size, as the same string.
   */
  method EncodeThenDecode(host: NekoBasic, text: seq<int>) returns (ptr: nat)
    requires host.Valid() && IsString(text) && host.heapTop + |text| + 1 <= host.memory.Length
    modifies host`heapTop, host.memory
    ensures host.Valid()
    ensures NekoStringToString(host.memory[..], ptr, |CodePoints(text)|) == Success(text)
  {
    ptr := host.StringToNekoString(text);
    var slots := NekoStringSlots(text);
    SliceOfPointwise(host.memory[..], ptr / 4, slots);
    NekoStringRoundTrip(host.memory[..], ptr, text);
  }
}
