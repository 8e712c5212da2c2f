# NekoBasic host bridge and text console, modelled in Dafny

NekoBasic is a BASIC interpreter compiled to WebAssembly. A JavaScript host
object drives it. This project models two pieces of that host:

- **The host side of the host/guest bridge** (`NekoBasic.js`), modelled in
  `wrappers.dfy`, `utf16.dfy`, `memory.dfy`, `bridge.dfy`, `layout.dfy`,
  `clock.dfy` and `host.dfy`:
  - Guest memory is an array of 32-bit slots, and pointers are byte offsets,
    as in the source.
  - Strings are exchanged in NekoBasic's UTF-32 format: one code point per
    slot, then a 0.
  - Host functions are registered through descriptors of 32-bit words. The
    guest's answers fill the external-callback table.
  - External calls arrive as frames of signed 64-bit words, led by a count
    and walked by a tag-directed cursor.
  - The interpreter runs in batches of at most 400 steps. A run flag tells
    the host whether it is running.
- **The character-grid text console** (`nbExtTextIO.js`), modelled in
  `textio.dfy`:
  - A flat array of `(codePoint, color, attr)` triples, row after row.
  - A cursor that advances, wraps at the right edge and scrolls the grid at
    the bottom.
  - The `CLS`, `COLOR` and `COLOR()` commands, which range-check a screen id.

The guest module is an oracle:

- Its allocator `NekoBasicMalloc` is a bump pointer over the memory (the
  `heapTop` field, in slots). It hands out fresh regions that never overlap.
- The answers of `NekoBasicRegisterExtFunction`, `NekoBasicExecuteOneStep`
  and `NekoBasicSetSource` are parameters (`ids`, `stepOk`, `accepted`).
- The reply of the `loadTextFile` callback is a parameter too.

The host also calls `putchar`, `stateChange`, `vSync`, `loadTextFile` and
the registered callbacks, and it calls into the guest. All of these are
recorded, in order, in the event log `events`, so contracts can state
exactly what was emitted. The one exception is `NekoBasicMalloc`, which
leaves no event: its effect is the `heapTop` field.

JavaScript behaviour is written out where the code depends on it:

- A string is a sequence of UTF-16 code units. `for ... of` yields code
  points, pairing surrogates and leaving a lone surrogate as it is.
- `String.fromCodePoint` splits a supplementary code point into a surrogate
  pair.
- A store into a `Uint32Array` keeps the value modulo 2^32.
- A `BigInt64Array` element is two little-endian slots, read as a signed
  value.
- A typed-array element read past the view's end is `undefined`.
- An invalid view, or a code point above U+10FFFF, throws a `RangeError`.

## Model

| member | source | states |
|---|---|---|
| Utf16.Combine | NekoBasic.js:68-69 | a surrogate pair stands for a supplementary code point, 0x10000..0x10FFFF |
| Utf16.CodePoints | NekoBasic.js:68-69 | string iteration yields at most one code point per code unit, each in 0..0x10FFFF |
| Utf16.FromCodePoint | NekoBasic.js:86 | `String.fromCodePoint` gives one code unit below 0x10000 and two from there on |
| Utf16.FromCodePoints | NekoBasic.js:85-87 | appending `String.fromCodePoint` of n code points gives between n and 2n code units |
| Utf16.SplitCombine | NekoBasic.js:86 | splitting a supplementary code point and recombining the pair gives the code point back |
| Utf16.CombineSplit | NekoBasic.js:68-69 | recombining a surrogate pair and splitting it again gives the pair back |
| Utf16.IterateThenRebuild | NekoBasic.js:68-69 | iterating a string by code point and rebuilding it gives back the same code units, lone surrogates and zeros included |
| Utf16.RebuildThenIterate | NekoBasic.js:85-87 | rebuilding from scalar values and iterating gives back exactly those values |
| Memory.ToUint32 | NekoBasic.js:69 | a `Uint32Array` store keeps every value already in 0..2^32-1 unchanged |
| Memory.Int64 | NekoBasic.js:197 | a `BigInt64Array` element is the signed 64-bit value of two little-endian slots |
| Memory.FrameView | NekoBasic.js:197-198 | a 64-bit view exists exactly for a non-negative, 8-aligned, in-bounds pointer and size; element i is the 64-bit word at `ptr + 8i` |
| Memory.Slots | NekoBasic.js:84 | a valid 32-bit view of `size` elements shows exactly `size` slots |
| Memory.NekoStringSlots | NekoBasic.js:61-73 | an encoded string is its code points in order, then a 0; it needs no more than `text.length + 1` slots |
| Memory.NekoStringToString | NekoBasic.js:81-89 | decoding succeeds exactly when the view is valid and every slot is at most 0x10FFFF; the result has between `size` and `2*size` code units |
| Memory.NekoStringRoundTrip | NekoBasic.js:61-89 | decoding an encoded string with its code-point count gives the string back |
| Memory.NekoStringKeepsEverySlot | NekoBasic.js:84-87 | decoding reads exactly `size` slots and never stops at a 0: every slot, zeros included, comes back in order |
| Bridge.DescriptorBytes | NekoBasic.js:367-372 | the buffer size is 4 bytes for the name pointer, 4 per count, and 4 per declared tag, with negative counts taken as 0 |
| Bridge.DescriptorSlots | NekoBasic.js:374 | the allocator is asked for `bufferSize / 4` slots, with nothing lost in the division |
| Bridge.MapToUint32 | NekoBasic.js:386-391 | every tag is stored as its 32-bit value, in order |
| Bridge.DescriptorWords | NekoBasic.js:376-391 | the descriptor is the name pointer, the argument count, the return count, the argument tags and the return tags, in that order |
| Bridge.DescriptorStaysInRegion | NekoBasic.js:371-391 | the written words fit the requested region exactly when the tag lists are no longer than the declared counts allow |
| Bridge.Register | NekoBasic.js:393-404 | registration stops at or before the last descriptor, never before the one it started from |
| Bridge.RegisterOutcome | NekoBasic.js:393-404 | registration succeeds exactly when every id is positive; otherwise it stops right after the first id that is not, every earlier id being positive |
| Bridge.RegisterTouchesOnlyIssuedIds | NekoBasic.js:394-399 | a table key the guest did not return keeps its entry, or stays absent |
| Bridge.RegisterStoresEntries | NekoBasic.js:394-399 | with distinct ids, every accepted descriptor is stored under its id as `{callback, argsType: args}` |
| Bridge.EntryOf | NekoBasic.js:396-399 | the table entry keeps the descriptor's callback and its argument tags as `argsType` |
| Bridge.IndexOrZero | NekoBasic.js:219-220 | a string's offset or length word read past the view is `undefined`, which as a typed-array argument counts as 0; a word that is there is used as is |
| Bridge.At | NekoBasic.js:210 | a view element exists exactly at an index within the view; past its end the read is `undefined` |
| Bridge.Count | NekoBasic.js:197-198 | an absent frame counts as 0; a frame's count is its first word, and an empty view has none |
| Bridge.DecodeArg | NekoBasic.js:209-224 | the cursor moves past the tag word, then 1 word for an int or real tag, 2 for a string tag and none for any other tag, which leaves the argument 0; only a string can fail |
| Bridge.OpenFrame | NekoBasic.js:197-198 | a null frame pointer means no frame; otherwise the frame is the 64-bit view, and the call throws exactly when that view cannot be built |
| Bridge.Dispatch | NekoBasic.js:195-267 | the callback runs only when the return count is 0 and the argument count is 0, 1 or 2, and then with exactly that many arguments; every other count leads to no call |
| Bridge.EncodeArg | NekoBasic.js:210-224 | the guest's layout of an argument: a tag word and the number of payload words that tag calls for |
| Bridge.DecodeEncodedArg | NekoBasic.js:209-224 | wherever an encoded argument sits in a frame, decoding yields its intended value and steps exactly over it |
| Bridge.DispatchOneEncodedArg | NekoBasic.js:196-225 | for any return frame that is absent or counts 0, a one-argument frame invokes the callback with the intended value |
| Bridge.DispatchTwoEncodedArgs | NekoBasic.js:196-264 | for any return frame that is absent or counts 0, a two-argument frame invokes the callback with both intended values, in order; the second tag is read where the first payload ended |
| Bridge.DispatchTwoArgs | NekoBasic.js:196-264 | with two arguments and a return frame that is absent or counts 0, the callback gets the argument decoded at word 1 and then the one decoded where the first left off |
| Bridge.DecodeTwoEncodedArgs | NekoBasic.js:232-263 | two encoded arguments decode one after the other to their intended values |
| Clock.PackDate | NekoBasic.js:157 | a real date packs to a number between `year*10000 + 101` and `year*10000 + 1231` |
| Clock.PackTime | NekoBasic.js:166 | a real time of day packs to a number in 0..235959 |
| Clock.UnpackDate | NekoBasic.js:154-158 | YYYYMMDD gives back the year, the one-based month and the day |
| Clock.UnpackTime | NekoBasic.js:163-167 | hhmmss gives back the hours, minutes and seconds, and stays below 240000 |
| Clock.DateOrder | NekoBasic.js:157 | packed dates compare the way the dates do |
| Host.FirstFailure | NekoBasic.js:345-346 | the first failing step, or the limit when every step before it succeeds |
| Host.StepsTaken | NekoBasic.js:345-357 | a batch runs 1 to 400 steps: every step but the last succeeds, and the last fails unless all 400 ran; all 400 succeed exactly when 400 ran and the last succeeded |
| Host.ReadArgument | NekoBasic.js:209-224 | the imperative cursor walk over one argument computes exactly `DecodeArg` |
| Host.EncodeThenDecode | NekoBasic.js:61-89 | a string written into guest memory reads back unchanged, given its code-point count as the size |
| Host.SubmittedAddresses | NekoBasic.js:374-393 | the registrar calls come after everything logged before, and the k-th one names the byte address where descriptor k starts, right after the ones before it |
| Host.NekoBasic.Notify | NekoBasic.js:97-100 | `stateChange` is reported, with the new state, exactly when the flag changes and the callback exists |
| Host.NekoBasic.Output | NekoBasic.js:330-334 | one `putchar` per code point, in order, when the callback exists, and nothing otherwise; never more events than code units |
| Host.NekoBasic.AppendsDescriptor | NekoBasic.js:374-393 | the descriptor words and the encoded name, written right after a run of descriptors that the writes left alone, extend the run by one |
| Host.NekoBasic.constructor | NekoBasic.js:482-499 | the allocator starts at the guest's heap base (set up at NekoBasic.js:313), above slot 0, so no allocation is the null pointer; the memory is zeroed, the table empty and the flag 0; the banner and a vSync are emitted exactly when `putchar` and `vSync` are both given |
| Host.NekoBasic.GuestMalloc | NekoBasic.js:64 | the allocator returns the byte address of a fresh region just past every earlier one |
| Host.NekoBasic.StringToNekoString | NekoBasic.js:61-73 | `text.length + 1` slots are requested; they start with the code points and a 0, and no slot outside them changes |
| Host.NekoBasic.CopyWords | NekoBasic.js:67-70 | the store loop writes word k, as 32 bits, to slot `base + k` and changes no other slot |
| Host.NekoBasic.OutputString | NekoBasic.js:328-335 | one `putchar` per code point, in order, and only when `putchar` was given |
| Host.NekoBasic.SetRunning | NekoBasic.js:95-103 | `stateChange` is notified only when the flag changes; afterwards the flag equals the argument |
| Host.NekoBasic.Run | NekoBasic.js:435-443 | does nothing when running; otherwise the flag becomes 1 |
| Host.NekoBasic.Stop | NekoBasic.js:448-451 | the flag becomes 0 |
| Host.NekoBasic.ExecuteSteps | NekoBasic.js:345-357 | the loop runs steps up to the first failure or 400, and reports whether a step failed |
| Host.NekoBasic.Update | NekoBasic.js:340-360 | a stopped interpreter only gets a vSync; a running one runs at most 400 steps, and on the first failure stops, prints "OK\n" and emits a vSync, with no step after it |
| Host.NekoBasic.WriteDescriptor | NekoBasic.js:367-391 | the descriptor region and the name string are allocated in turn; the descriptor words and the encoded name end up in them, and every other slot is unchanged: below the old allocation top, the region's padding, the name region's unused tail, and everything above the new top |
| Host.NekoBasic.FillDescriptor | NekoBasic.js:376-391 | the word-writing loops store exactly the descriptor words and touch no other slot |
| Host.NekoBasic.ExtFunctions | NekoBasic.js:362-405 | the table and the outcome are those `Register` specifies; one registrar call per descriptor reached, each with its descriptor's address; allocation grows by exactly those descriptors, every one of which lies in guest memory, words then name, at the address its call named (`Laid`); no slot outside those descriptors' words and names changes (`Untouched`), so memory below the old allocation top and above the new one is unchanged |
| Host.NekoBasic.RegisterOne | NekoBasic.js:367-403 | one descriptor is allocated right after the earlier ones and handed to the registrar at its address, where it now lies, words then name, the earlier ones staying in place, and no slot but its words and its name's changes; a positive id stores `{callback, argsType}` under it and leaves every other entry alone |
| Host.NekoBasic.SetSource | NekoBasic.js:414-430 | both strings are encoded in turn and handed to the guest; the heap grows by exactly the two NUL-terminated strings, every slot outside them is unchanged, the result is the guest's verdict, and a rejection stops the interpreter and emits a vSync |
| Layout.RoomFor | NekoBasic.js:374 | the first n descriptors take at least 4 slots each (three header words and the name's 0), so the bump addresses of distinct descriptors differ |
| Layout.OffRunOutside | NekoBasic.js:374-391 | a slot below a run of descriptors or above the room it took is none of the run's written slots |
| Layout.UntouchedNext | NekoBasic.js:374-391 | a write confined to the next descriptor's slots, after writes confined to the run before it, is confined to the longer run |
| Layout.UntouchedOutside | NekoBasic.js:374-391 | a change confined to a run's written slots leaves memory below the run and above its room as it was |
| Layout.LaidAppend | NekoBasic.js:374-393 | a run of descriptors that a change above it left alone, with the next descriptor right after it, makes a run one longer |
| Layout.RoomForPrefix | NekoBasic.js:374-375 | the first descriptors never take more room than all of them |
| Layout.PlacedKept | NekoBasic.js:374-375 | words lying below the allocation top survive a change confined to slots above it |
| Layout.PlacedPointwise | NekoBasic.js:386-391 | words lie in memory from a slot on exactly when each slot holds its word |
| Layout.DescriptorKept | NekoBasic.js:367-391 | a descriptor and its name lying below the allocation top survive a change confined to slots above it |
| Layout.LaidNext | NekoBasic.js:393-395 | one more descriptor in place right after the earlier ones extends the run |
| Layout.LaidKept | NekoBasic.js:393-403 | descriptors lying below the allocation top survive a change confined to slots above it |
| Layout.LaidDescriptor | NekoBasic.js:393-403 | every descriptor counted in a run lies, words then name, right after the ones before it |
| Host.NekoBasic.ExtFunctionCall | NekoBasic.js:195-268 | the callback is invoked exactly as `Dispatch` decides; the import returns 0 unless a view or a string could not be built (`RangeError`) or the callback due has no table entry (`TypeError`); when no callback is due, any id returns 0 |
| Host.NekoBasic.LoadTextFile | NekoBasic.js:174-188 | returns 0 without a callback, and throws when the file name cannot be decoded, in both cases changing nothing; otherwise the callback is asked for the decoded name; a reported failure returns 0 and allocates nothing, and a success encodes the text into fresh memory just past every earlier allocation, returns its non-null pointer and changes no other slot |
| TextIO.ScreenIdOk | nbExtTextIO.js:166 | the screen ids the commands accept are 0 to 4 |
| TextIO.Addr | nbExtTextIO.js:76 | cell (x, y) starts at slot `3x + 3y*width`, three slots per cell in reading order; `AddrInRange` and `AddrApart` state what follows from it |
| TextIO.CursorAfter | nbExtTextIO.js:31-38 | the move after a write keeps an on-screen cursor on screen; a newline goes to column 0, scrolling exactly at the bottom; a scroll leaves the cursor at column 0 of the last row |
| TextIO.WithCell | nbExtTextIO.js:74-80 | writing a cell sets exactly its three slots and leaves every other slot as it was |
| TextIO.Scrolled | nbExtTextIO.js:59-72 | scrolling moves every slot one row back and fills the last row with blank cells |
| TextIO.NextLine | nbExtTextIO.js:50-58 | the cursor goes to column 0; the grid scrolls exactly when the next row is past the bottom, and otherwise the cursor is on the next row; an on-screen row stays on screen |
| TextIO.Advance | nbExtTextIO.js:41-48 | one column on within the row; at the right edge column 0, and a scroll exactly when that edge is on the bottom row; an on-screen cursor stays on screen |
| TextIO.CursorMoves | nbExtTextIO.js:29-58 | the cursor stays on screen; a character moves it one cell on in reading order, and a newline moves it to the start of the next row; the grid scrolls exactly when the move would leave the bottom row, and the cursor then lands at column 0 of the last row |
| TextIO.AddrInRange | nbExtTextIO.js:76 | every on-screen cell's three slots lie inside the `3*width*height` slots |
| TextIO.AddrApart | nbExtTextIO.js:76 | distinct cells have disjoint slots |
| TextIO.WriteTouchesOneCell | nbExtTextIO.js:74-80 | after writing cell (x, y), that cell reads back as written and every other cell is unchanged |
| TextIO.ScrollShiftsRows | nbExtTextIO.js:59-72 | after a scroll, row r shows the old row r+1, and the last row is all `(0, 0xFFFFFFFF, 0)` |
| TextIO.ClearedCellIsBlank | nbExtTextIO.js:164-172 | every cell of a cleared grid is `(0, 0xFFFFFFFF, 0)` |
| TextIO.ExtTextIO.constructor | nbExtTextIO.js:17-27 | `3*width*height` slots, all cells blank, the cursor at (0, 0), colour 0xFFFFFFFF and attribute 0 |
| TextIO.ExtTextIO.Set | nbExtTextIO.js:74-80 | the three slots of cell (x, y) take the code point, the colour and the attribute, in that order; every other slot keeps its value |
| TextIO.ExtTextIO.Putch32 | nbExtTextIO.js:29-39 | the character goes into the cursor's cell in the current colour and attribute, newlines included; then the cursor moves as `CursorAfter` says, scrolling the grid when the move scrolls, and stays on screen |
| TextIO.ExtTextIO.AdvanceCursor | nbExtTextIO.js:41-48 | one column on, or the start of the next line at the right edge, scrolling at the bottom |
| TextIO.ExtTextIO.NextLineCursor | nbExtTextIO.js:50-58 | column 0 of the next row; past the last row, the cursor stays on the last row and the grid scrolls |
| TextIO.ExtTextIO.Scroll | nbExtTextIO.js:59-72 | the grid becomes its scrolled image |
| TextIO.ExtTextIO.ShiftBack | nbExtTextIO.js:61-66 | the copy loop moves every slot one row back and stops with `dst` one row short of the end |
| TextIO.ExtTextIO.ClearFrom | nbExtTextIO.js:67-71 | the clear loop blanks every cell from `dst` to the end and leaves the slots before it alone |
| TextIO.ExtTextIO.ClearRow | nbExtTextIO.js:169-171 | the inner loop blanks every cell of one row and leaves every other slot alone |
| TextIO.ExtTextIO.CLS | nbExtTextIO.js:164-173 | a screen id outside 0..4 gives the error object and changes nothing; otherwise every cell is blank; the cursor and colour are never touched |
| TextIO.ExtTextIO.COLOR | nbExtTextIO.js:175-179 | a screen id outside 0..4 gives the error object and keeps the colour; otherwise the colour becomes `rgba` |
| TextIO.ExtTextIO.FuncCOLOR | nbExtTextIO.js:181-185 | a screen id in 0..4 gives `{rets: [color]}`, and any other gives the error object; nothing changes |

## Left out

- WebAssembly plumbing is not modelled: `instantiateStreaming`, `fetch`, creating the memory and `setupHeap` (NekoBasic.js:309-321, 485). The guest entry points are oracle parameters, and the allocator is a bump pointer.
- Frame scheduling is not modelled: `requestAnimationFrame` and `cancelAnimationFrame`. `Update` is one batch.
- Floating point is not modelled:
  - the `Math` imports, `isinf` and `isNan`;
  - `printDouble` and `floatToString`, because `toFixed` is float formatting;
  - real arguments, which are kept as the raw 64-bit word the `Float64Array` view would reinterpret.
- The `Date` reads are not modelled. The clock components are parameters of `Clock.PackDate` and `Clock.PackTime`. `console.log` is left out too.
- The 64-bit pointer branch of `extFunctions` (NekoBasic.js:379-383) is not modelled, because `pointerSize` is fixed at 4.
- Host.NekoBasic.WriteDescriptor: requires `Fits(info)`. The source writes `args.length + rets.length` tags into a region sized by the declared counts. `Bridge.DescriptorStaysInRegion` shows that the words stay inside the region exactly when `Fits` holds; a longer tag list, which the source would let overrun the region, is not modelled.
- Host.NekoBasic.WriteDescriptor: the source's `Uint32Array` view has `bufferSize` elements, four times the region it allocated. The model checks only the slots actually written, so a view that runs past the end of memory (a `RangeError`) is not modelled.
- Host.NekoBasic.StringToNekoString: requires that the allocation fits in memory, and so do `WriteDescriptor`, `ExtFunctions`, `SetSource` and `LoadTextFile`. An exhausted guest heap is not modelled, because the guest allocator's failure behaviour is not part of this model.
- Host.NekoBasic.ExtFunctions: the source returns `undefined` when every descriptor is accepted; the model returns `true`.
- Host.NekoBasic.RegisterOne: requires `Fits(infos[i])`, as `WriteDescriptor` does, for the reason given there.
- Host.NekoBasic.ExtFunctions: requires `Fits` of every descriptor, as `WriteDescriptor` does, for the reason given there.
- Bridge.DecodeArg: an int payload is kept as the exact signed 64-bit value. The source converts it with `Number` (NekoBasic.js:213, 236, 252), which rounds a value beyond ±2^53 to the nearest double; that rounding is not modelled.
- The guest entry points `NekoBasicRegisterExtFunction`, `NekoBasicExecuteOneStep` and `NekoBasicSetSource` are modelled as touching no guest memory, allocating nothing and calling no host import. The real interpreter allocates and writes memory while it runs, and calls `putchar` and `extFunctionCall` from inside a step. The following hold only under this simplification:
  - `WriteDescriptor`, `ExtFunctions` and `RegisterOne`: the frame outside the written words and names, and the heap growing by exactly the descriptors' footprints.
  - `Laid`: descriptors lying back to back from the old top.
  - `SetSource`: the frame around the two strings.
  - `Update` and `ExecuteSteps`: a batch changes only the run flag and the event log.
- `argsType` is stored but never compared with the frame tags, so no such check is modelled.
- Effects of the registered callbacks and of `putchar`, `stateChange`, `vSync` and `loadTextFile` are not modelled. Each call is only recorded in `events`.
- A frame count word or tag word that is a JavaScript `BigInt` is compared here as an integer. The mixed `BigInt`/`Number` equality of the source gives the same result.
- The `draw` and `drawLetter` HTML rendering in nbExtTextIO.js is not modelled.
- `registerFunctions` in nbExtTextIO.js is not modelled. It calls a host method named `registerExtFunction` that `NekoBasic` does not define, and its tag numbering and descriptor fields differ from those of NekoBasic.js.
- nbExtGraphics.js only obtains a WebGL2 canvas context, so there is nothing to model.
- TextIO.ExtTextIO.constructor: requires `width` and `height` of at least 1. With no rows and at least one column, the scroll's copy loop never reaches its end, so the first `putch32` that moves to a new line (a newline, or a wrap at the right edge) would never return. With no columns, writes would land past the end of the array, which JavaScript grows; that growth is not modelled.
- TextIO.ExtTextIO.CLS: a screen id is an integer here. A fractional or NaN id, which the JavaScript comparisons would let through, is not modelled.
- TextIO.ExtTextIO.COLOR: the same integer screen id as `CLS`; a fractional or NaN id is not modelled.
- TextIO.ExtTextIO.FuncCOLOR: the same integer screen id as `CLS`; a fractional or NaN id is not modelled.
- TextIO.ExtTextIO.constructor: the source's array starts as `width * 3 * height` empty elements before `CLS` fills it. The model starts it at 0, which `CLS` overwrites.
