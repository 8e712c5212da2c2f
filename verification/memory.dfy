/**
 * The guest's linear memory as the host sees it through typed-array views:
 * 32-bit words (`Uint32Array`), 64-bit signed frame words (`BigInt64Array`
 * over the same bytes), and the UTF-32 string format both sides share.
 * Pointers are byte offsets into the memory, as in JavaScript.
 */
module Memory {
  import opened Wrappers
  import opened Utf16

  const TWO_32 := 0x1_0000_0000
  const TWO_63 := 0x8000_0000_0000_0000
  const TWO_64 := 0x1_0000_0000_0000_0000

  /** One 32-bit slot of linear memory. */
  type u32 = x: int | 0 <= x < 0x1_0000_0000

  /** What storing a number into a `Uint32Array` element keeps of it. */
  function ToUint32(x: int): (w: u32)
    ensures 0 <= x < TWO_32 ==> w == x
  {
    x % TWO_32
  }

  /** The signed 64-bit value of two consecutive little-endian 32-bit slots. */
  function Int64(lo: u32, hi: u32): (v: int)
    ensures -TWO_63 <= v < TWO_63
    ensures (v - lo - hi * TWO_32) % TWO_64 == 0
  {
    var u := lo + hi * TWO_32;
    if u >= TWO_63 then u - TWO_64 else u
  }

  /**
   * The elements of `new BigInt64Array(buffer, ptr, size)`, or the RangeError
   * its construction throws for a negative, misaligned or overlong view.
   */
  function FrameView(mem: seq<u32>, ptr: int, size: int): (r: Result<seq<int>>)
    ensures r.Success? <==> 0 <= ptr && 0 <= size && ptr % 8 == 0 && ptr + 8 * size <= 4 * |mem|
    ensures r.Success? ==> |r.value| == size
    ensures r.Success? ==> forall i :: 0 <= i < size ==>
      r.value[i] == Int64(mem[ptr / 4 + 2 * i], mem[ptr / 4 + 2 * i + 1])
  {
    if 0 <= ptr && 0 <= size && ptr % 8 == 0 && ptr + 8 * size <= 4 * |mem| then
      var base := ptr / 4;
      Success(seq(size, i requires 0 <= i < size => Int64(mem[base + 2 * i], mem[base + 2 * i + 1])))
    else
      Failure(RangeError)
  }

  /** Whether `new Uint32Array(buffer, ptr, size)` can be constructed. */
  predicate SlotViewOk(mem: seq<u32>, ptr: int, size: int)
  {
    0 <= ptr && 0 <= size && ptr % 4 == 0 && ptr + 4 * size <= 4 * |mem|
  }

  /** The `size` slots a valid `Uint32Array` view at `ptr` shows. */
  function Slots(mem: seq<u32>, ptr: int, size: int): (s: seq<u32>)
    requires SlotViewOk(mem, ptr, size)
    ensures |s| == size
  {
    mem[ptr / 4 .. ptr / 4 + size]
  }

  /**
   * The slots `#stringTonekoString` writes for a string: its code points in
   * iteration order, then a 0 terminator.
   */
  function NekoStringSlots(text: seq<int>): (s: seq<u32>)
    requires IsString(text)
    ensures |s| == |CodePoints(text)| + 1 <= |text| + 1
    ensures s[..|s| - 1] == CodePoints(text) && s[|s| - 1] == 0
  {
    CodePoints(text) + [0]
  }

  /**
   * `#nekoStringToString`: read exactly `size` slots at `ptr` and build the
   * string one code point at a time. The view throws for a bad pointer or
   * size, `String.fromCodePoint` for a slot above U+10FFFF.
   */
  function NekoStringToString(mem: seq<u32>, ptr: int, size: int): (r: Result<seq<int>>)
    ensures r.Success? <==> SlotViewOk(mem, ptr, size) && AllCodePoints(Slots(mem, ptr, size))
    ensures r.Success? ==> IsString(r.value) && size <= |r.value| <= 2 * size
  {
    if SlotViewOk(mem, ptr, size) && AllCodePoints(Slots(mem, ptr, size)) then
      Success(FromCodePoints(Slots(mem, ptr, size)))
    else
      Failure(RangeError)
  }

  /**
   * Decoding a string with the code-point count its encoding wrote gives the
   * original string back.
   */
  lemma NekoStringRoundTrip(mem: seq<u32>, ptr: int, text: seq<int>)
    requires IsString(text)
    requires SlotViewOk(mem, ptr, |text| + 1)
    requires Slots(mem, ptr, |NekoStringSlots(text)|) == NekoStringSlots(text)
    ensures NekoStringToString(mem, ptr, |CodePoints(text)|) == Success(text)
  {
    var k := |CodePoints(text)|;
    assert Slots(mem, ptr, k) == NekoStringSlots(text)[..k];
    IterateThenRebuild(text);
  }

  /**
   * Decoding never stops at a 0 slot: every one of the `size` slots, zeros
   * included, comes back as a code point of the result, in order.
   */
  lemma NekoStringKeepsEverySlot(mem: seq<u32>, ptr: int, size: int)
    requires SlotViewOk(mem, ptr, size) && AllScalars(Slots(mem, ptr, size))
    ensures NekoStringToString(mem, ptr, size).Success?
    ensures CodePoints(NekoStringToString(mem, ptr, size).value) == Slots(mem, ptr, size)
  {
    RebuildThenIterate(Slots(mem, ptr, size));
  }
}
