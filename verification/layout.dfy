/**
 * Where `extFunctions` puts the descriptors it registers: the room each one
 * takes from the guest allocator, and what "descriptor `k` sits at slot
 * `base`" means for a snapshot of the guest memory.
 */
module Layout {
  import opened Utf16
  import opened Memory
  import opened Bridge

  /** The slots one descriptor and its name take from the guest allocator. */
  function Footprint(info: FuncInfo): (n: nat)
  {
    DescriptorSlots(info) + |info.funcName| + 1
  }

  /** The slots the first `n` descriptors take, the last one added last. */
  function RoomFor(infos: seq<FuncInfo>, n: nat): (slots: nat)
    requires n <= |infos|
    ensures slots >= 4 * n
  {
    if n == 0 then 0 else RoomFor(infos, n - 1) + Footprint(infos[n - 1])
  }

  /** The first descriptors never need more room than all of them. */
  lemma {:induction false} RoomForPrefix(infos: seq<FuncInfo>, i: nat, n: nat)
    requires i <= n <= |infos|
    ensures RoomFor(infos, i) <= RoomFor(infos, n)
    decreases n - i
  {
    if i < n {
      RoomForPrefix(infos, i, n - 1);
    }
  }


  /**
   * A memory slice equals a sequence it agrees with slot by slot: the bridge
   * from the pointwise facts the writers promise to the slice the string
   * decoder reads.
   */
  lemma SliceOfPointwise(mem: seq<u32>, base: nat, t: seq<int>)
    requires base + |t| <= |mem|
    requires forall j :: base <= j < base + |t| ==> mem[j] == t[j - base]
    ensures mem[base .. base + |t|] == t
  {
  }

  /** Slot-by-slot contents that make up a descriptor's words. */
  lemma DescriptorSlotsMatch(mem: seq<u32>, base: nat, info: FuncInfo, namePtr: int)
    requires base + 3 + |info.args| + |info.rets| <= |mem|
    requires mem[base] == ToUint32(namePtr)
    requires mem[base + 1] == ToUint32(info.argumentCount) && mem[base + 2] == ToUint32(info.returnCount)
    requires forall j :: base + 3 <= j < base + 3 + |info.args| ==> mem[j] == ToUint32(info.args[j - base - 3])
    requires forall j :: base + 3 + |info.args| <= j < base + 3 + |info.args| + |info.rets| ==>
      mem[j] == ToUint32(info.rets[j - base - 3 - |info.args|])
    ensures forall j :: base <= j < base + |DescriptorWords(info, namePtr)| ==> mem[j] == DescriptorWords(info, namePtr)[j - base]
  {
    var words := DescriptorWords(info, namePtr);
    forall j | base <= j < base + |words|
      ensures mem[j] == words[j - base]
    {
      if j < base + 3 {
        assert j == base || j == base + 1 || j == base + 2;
      }
    }
  }

  /**
   * `words` sit in `mem` from slot `base` on. This is the snapshot form of
   * the host's `Holds`, which speaks of the live memory: the descriptor runs
   * below must be stated over snapshots to relate memory before and after a
   * write, and the recursion keeps the solver from unfolding a whole run's
   * contents at every use (`PlacedPointwise` relates the two forms).
   */
  ghost predicate Placed(mem: seq<u32>, base: nat, words: seq<int>)
    decreases |words|
  {
    |words| == 0 || (base < |mem| && mem[base] == words[0] && Placed(mem, base + 1, words[1..]))
  }

  /**
   * The descriptor `extFunctions` writes for `info` from slot `base` on,
   * its name pointer designating the encoded name right after it.
   */
  ghost predicate DescriptorAt(mem: seq<u32>, base: nat, info: FuncInfo)
  {
    && IsString(info.funcName) && Fits(info)
    && Placed(mem, base, DescriptorWords(info, 4 * (base + DescriptorSlots(info))))
    && Placed(mem, base + DescriptorSlots(info), NekoStringSlots(info.funcName))
  }

  /**
   * The descriptors of the first `n` of `infos`, one after the other from
   * slot `top` on. `Laid`, `LaidThrough` and `InPlace` are one definition
   * split over three mutually recursive predicates only so that the solver,
   * which unfolds a recursive call at most twice, never reaches a
   * descriptor's contents without a lemma asking for them.
   */
  ghost predicate Laid(mem: seq<u32>, top: nat, infos: seq<FuncInfo>, n: nat)
    decreases n, 2
  {
    n <= |infos| && (n == 0 || LaidThrough(mem, top, infos, n - 1))
  }

  /** Descriptor `k` is in place, and so is every one before it. */
  ghost predicate LaidThrough(mem: seq<u32>, top: nat, infos: seq<FuncInfo>, k: nat)
    decreases k + 1, 1
  {
    k < |infos| && InPlace(mem, top, infos, k)
  }

  /** The descriptors before `k` are in place, and descriptor `k` right after them. */
  ghost predicate InPlace(mem: seq<u32>, top: nat, infos: seq<FuncInfo>, k: nat)
    requires k < |infos|
    decreases k + 1, 0
  {
    Laid(mem, top, infos, k) && DescriptorAt(mem, top + RoomFor(infos, k), infos[k])
  }

  /** Putting the run and its next descriptor together. */
  lemma LaidThroughIntro(mem: seq<u32>, top: nat, infos: seq<FuncInfo>, k: nat)
    requires k < |infos| && Laid(mem, top, infos, k)
    requires DescriptorAt(mem, top + RoomFor(infos, k), infos[k])
    ensures LaidThrough(mem, top, infos, k)
  {
  }

  /** Taking a run apart into the shorter run and its last descriptor. */
  lemma LaidThroughElim(mem: seq<u32>, top: nat, infos: seq<FuncInfo>, k: nat)
    requires LaidThrough(mem, top, infos, k)
    ensures k < |infos| && Laid(mem, top, infos, k)
    ensures DescriptorAt(mem, top + RoomFor(infos, k), infos[k])
  {
  }

  /** Every descriptor counted by `Laid` is in place. */
  lemma {:induction false} LaidDescriptor(mem: seq<u32>, top: nat, infos: seq<FuncInfo>, n: nat, k: nat)
    requires Laid(mem, top, infos, n) && k < n
    ensures DescriptorAt(mem, top + RoomFor(infos, k), infos[k])
    decreases n
  {
    LaidThroughElim(mem, top, infos, n - 1);
    if k < n - 1 {
      LaidDescriptor(mem, top, infos, n - 1, k);
    }
  }

  /** Words below slot `mark` survive any change that leaves every slot below `mark` as it was. */
  lemma {:induction false} PlacedKept(m0: seq<u32>, m1: seq<u32>, base: nat, words: seq<int>, mark: nat)
    requires base + |words| <= mark <= |m0| && mark <= |m1|
    requires forall j :: 0 <= j < mark ==> m1[j] == m0[j]
    requires Placed(m0, base, words)
    ensures Placed(m1, base, words)
    decreases |words|
  {
    if |words| > 0 {
      PlacedKept(m0, m1, base + 1, words[1..], mark);
    }
  }

  /** `Placed` says slot by slot what it says. */
  lemma {:induction false} PlacedPointwise(mem: seq<u32>, base: nat, words: seq<int>)
    requires base + |words| <= |mem|
    ensures Placed(mem, base, words) <==> forall k :: 0 <= k < |words| ==> mem[base + k] == words[k]
    decreases |words|
  {
    if |words| > 0 {
      PlacedPointwise(mem, base + 1, words[1..]);
      assert forall k :: 1 <= k < |words| ==> words[k] == words[1..][k - 1];
    }
  }

  /** The same for one descriptor and its name. */
  lemma DescriptorKept(m0: seq<u32>, m1: seq<u32>, base: nat, info: FuncInfo, mark: nat)
    requires base + Footprint(info) <= mark <= |m0| && mark <= |m1|
    requires forall j :: 0 <= j < mark ==> m1[j] == m0[j]
    requires DescriptorAt(m0, base, info)
    ensures DescriptorAt(m1, base, info)
  {
    var namePtr := 4 * (base + DescriptorSlots(info));
    DescriptorStaysInRegion(info, namePtr);
    PlacedKept(m0, m1, base, DescriptorWords(info, namePtr), mark);
    PlacedKept(m0, m1, base + DescriptorSlots(info), NekoStringSlots(info.funcName), mark);
  }

  /** One more descriptor in place extends the run. */
  lemma LaidNext(mem: seq<u32>, top: nat, infos: seq<FuncInfo>, n: nat, base: nat)
    requires n < |infos| && Laid(mem, top, infos, n)
    requires base == top + RoomFor(infos, n) && DescriptorAt(mem, base, infos[n])
    ensures Laid(mem, top, infos, n + 1)
  {
    LaidThroughIntro(mem, top, infos, n);
  }

  /**
   * Descriptors lying below slot `mark` survive any change that leaves
   * every slot below `mark` as it was.
   */
  lemma {:induction false} LaidKept(m0: seq<u32>, m1: seq<u32>, top: nat, infos: seq<FuncInfo>, n: nat, mark: nat)
    requires n <= |infos| && top + RoomFor(infos, n) <= mark <= |m0| && mark <= |m1|
    requires forall j :: 0 <= j < mark ==> m1[j] == m0[j]
    requires Laid(m0, top, infos, n)
    ensures Laid(m1, top, infos, n)
    decreases n
  {
    if n > 0 {
      LaidThroughElim(m0, top, infos, n - 1);
      RoomForPrefix(infos, n - 1, n);
      LaidKept(m0, m1, top, infos, n - 1, mark);
      DescriptorKept(m0, m1, top + RoomFor(infos, n - 1), infos[n - 1], mark);
      LaidThroughIntro(m1, top, infos, n - 1);
    }
  }

  /**
   * A run of `n` descriptors that a change above its end left alone, and
   * descriptor `n` in place right after it, make a run of `n + 1`.
   */
  lemma LaidAppend(m0: seq<u32>, m1: seq<u32>, top: nat, infos: seq<FuncInfo>, n: nat)
    requires n < |infos| && |m0| == |m1| && top + RoomFor(infos, n) <= |m0|
    requires Laid(m0, top, infos, n)
    requires forall j :: 0 <= j < top + RoomFor(infos, n) ==> m1[j] == m0[j]
    requires DescriptorAt(m1, top + RoomFor(infos, n), infos[n])
    ensures Laid(m1, top, infos, n + 1)
  {
    LaidKept(m0, m1, top, infos, n, top + RoomFor(infos, n));
    LaidNext(m1, top, infos, n, top + RoomFor(infos, n));
  }

  /**
   * Slot `j` is none of the slots `extFunctions` writes for a descriptor
   * at `base`: neither one of its words nor one of its encoded name's
   * slots. The region's padding and the name region's unused tail are
   * such slots.
   */
  predicate OffDescriptor(j: int, base: nat, info: FuncInfo)
  {
    && !(base <= j < base + 3 + |info.args| + |info.rets|)
    && !(base + DescriptorSlots(info) <= j < base + DescriptorSlots(info) + |CodePoints(info.funcName)| + 1)
  }

  /** `m1` agrees with `m0` on every slot the descriptor for `info` at `base` does not occupy. */
  ghost predicate KeptOff(m0: seq<u32>, m1: seq<u32>, base: nat, info: FuncInfo)
  {
    |m0| == |m1| && forall j :: 0 <= j < |m0| && OffDescriptor(j, base, info) ==> m1[j] == m0[j]
  }

  /** Slot `j` is none of the slots written for the first `n` descriptors laid from `top`. */
  predicate OffRun(j: int, top: nat, infos: seq<FuncInfo>, n: nat)
    requires n <= |infos|
  {
    n == 0 || (OffRun(j, top, infos, n - 1) && OffDescriptor(j, top + RoomFor(infos, n - 1), infos[n - 1]))
  }

  /** `m1` agrees with `m0` on every slot the first `n` descriptors from `top` do not occupy. */
  ghost predicate Untouched(m0: seq<u32>, m1: seq<u32>, top: nat, infos: seq<FuncInfo>, n: nat)
    requires n <= |infos|
  {
    |m0| == |m1| && forall j :: 0 <= j < |m0| && OffRun(j, top, infos, n) ==> m1[j] == m0[j]
  }

  /** Slots outside the room of a run of descriptors that fit their regions are none of its slots. */
  lemma {:induction false} OffRunOutside(j: int, top: nat, infos: seq<FuncInfo>, n: nat)
    requires n <= |infos| && forall k :: 0 <= k < n ==> Fits(infos[k])
    requires j < top || top + RoomFor(infos, n) <= j
    ensures OffRun(j, top, infos, n)
    decreases n
  {
    if n > 0 {
      RoomForPrefix(infos, n - 1, n);
      OffRunOutside(j, top, infos, n - 1);
      assert Fits(infos[n - 1]);
    }
  }

  /** A change confined to descriptor `n`'s slots, after one confined to the first `n`, is confined to the first `n + 1`. */
  lemma UntouchedNext(m0: seq<u32>, m1: seq<u32>, m2: seq<u32>, top: nat, infos: seq<FuncInfo>, n: nat)
    requires n < |infos| && Untouched(m0, m1, top, infos, n)
    requires KeptOff(m1, m2, top + RoomFor(infos, n), infos[n])
    ensures Untouched(m0, m2, top, infos, n + 1)
  {
  }

  /** A change confined to a run's slots leaves everything below `top` and above the run's room alone. */
  lemma UntouchedOutside(m0: seq<u32>, m1: seq<u32>, top: nat, infos: seq<FuncInfo>, n: nat)
    requires n <= |infos| && forall k :: 0 <= k < n ==> Fits(infos[k])
    requires Untouched(m0, m1, top, infos, n)
    ensures forall j :: 0 <= j < |m0| && (j < top || top + RoomFor(infos, n) <= j) ==> m1[j] == m0[j]
  {
    forall j | 0 <= j < |m0| && (j < top || top + RoomFor(infos, n) <= j)
      ensures m1[j] == m0[j]
    {
      OffRunOutside(j, top, infos, n);
    }
  }
}
