/**
 * The character-grid text console (class `nbExtTextIO`). The screen is a
 * flat array holding a `(codePoint, color, attr)` triple per cell, row after
 * row; `putch32` writes at the cursor and moves it on, wrapping at the right
 * edge and scrolling the grid up one row when the cursor would leave the
 * bottom; CLS, COLOR and COLOR() are the screen commands.
 */
module TextIO {

  /** The colour a cleared cell and a fresh console start with. */
  const WHITE := 0xFFFF_FFFF

  /** The code point that starts a new line. */
  const NEWLINE := 10

  /** The screen id of the commands given without one. */
  const DEFAULT_TEXT_SCREEN_ID := 4

  /** One cell of the grid. */
  datatype Cell = Cell(codePoint: int, color: int, attr: int)

  /** What a cleared cell holds. */
  const BLANK := Cell(0, WHITE, 0)

  /**
   * What a screen command returns: nothing, the error object for a screen
   * id out of range, or the values of a function form.
   */
  datatype Reply = Done | OutOfRange | Rets(rets: seq<int>)

  /** The screen ids the commands accept: anything from 0 to 4. */
  predicate ScreenIdOk(id: int)
  {
    !(id < 0 || id > 4)
  }

  /** The first slot of cell `(x, y)` in a grid `w` cells wide. */
  function Addr(x: int, y: int, w: int): (a: int)
  {
    x * 3 + y * w * 3
  }

  /** Slot `i` of a cleared grid. */
  function BlankSlot(i: int): (v: int)
  {
    if i % 3 == 1 then WHITE else 0
  }

  /** `n` cleared cells. */
  function Blank(n: nat): (r: seq<int>)
  {
    seq(3 * n, i => BlankSlot(i))
  }

  /** The cell whose first slot is `a`. */
  function CellAt(t: seq<int>, a: int): (c: Cell)
    requires 0 <= a && a + 2 < |t|
  {
    Cell(t[a], t[a + 1], t[a + 2])
  }

  /** `t` with the cell whose first slot is `a` replaced by `c`. */
  function WithCell(t: seq<int>, a: int, c: Cell): (r: seq<int>)
    requires 0 <= a && a + 2 < |t|
    ensures |r| == |t| && CellAt(r, a) == c
    ensures forall i :: 0 <= i < |t| && !(a <= i < a + 3) ==> r[i] == t[i]
  {
    t[a := c.codePoint][a + 1 := c.color][a + 2 := c.attr]
  }

  /** The grid one row further on: the first row dropped, a cleared row appended. */
  function Scrolled(t: seq<int>, w: nat): (r: seq<int>)
    requires 3 * w <= |t|
    ensures |r| == |t|
    ensures forall i :: 0 <= i < |t| - 3 * w ==> r[i] == t[i + 3 * w]
    ensures forall i :: |t| - 3 * w <= i < |t| ==> r[i] == BlankSlot(i - (|t| - 3 * w))
  {
    t[3 * w..] + Blank(w)
  }

  // ---------------------------------------------------------------------
  // Cursor movement

  /** Where the cursor goes, and whether the grid scrolls on the way. */
  datatype Move = Move(x: int, y: int, scrolled: bool)

  /** `#nextLineCursor`: column 0 of the next row, or of the last row after a scroll. */
  function NextLine(y: int, h: int): (m: Move)
    ensures m.x == 0 && (m.scrolled <==> y + 1 >= h)
    ensures !m.scrolled ==> m.y == y + 1
    ensures 0 <= y < h ==> 0 <= m.y < h
  {
    if y + 1 >= h then Move(0, h - 1, true) else Move(0, y + 1, false)
  }

  /** `#advanceCursor`: one column on, or the start of the next line at the right edge. */
  function Advance(x: int, y: int, w: int, h: int): (m: Move)
    ensures 0 <= x < w && 0 <= y < h ==> 0 <= m.x < w && 0 <= m.y < h
    ensures m.scrolled <==> x + 1 >= w && y + 1 >= h
    ensures x + 1 < w ==> m.y == y && m.x == x + 1
    ensures x + 1 >= w ==> m.x == 0
  {
    if x + 1 >= w then NextLine(y, h) else Move(x + 1, y, false)
  }

  /** The move `putch32(codePoint)` makes after writing the cell. */
  function CursorAfter(x: int, y: int, codePoint: int, w: int, h: int): (m: Move)
    ensures 0 <= x < w && 0 <= y < h ==> 0 <= m.x < w && 0 <= m.y < h
    ensures codePoint == NEWLINE ==> m.x == 0 && (m.scrolled <==> y + 1 >= h)
    ensures m.scrolled ==> m.x == 0 && m.y == h - 1
  {
    if codePoint != NEWLINE then Advance(x, y, w, h) else NextLine(y, h)
  }

  lemma MulMono(a: int, b: int, c: nat)
    requires a <= b
    ensures a * c <= b * c
  {
    assert b * c - a * c == (b - a) * c;
  }

  /**
   * The cursor never leaves the screen; a code point other than a newline
   * takes it to the next cell in reading order, and a newline to the start
   * of the next row, unless the grid scrolls, which happens exactly when
   * the move would leave the bottom row.
   */
  lemma {:induction false} CursorMoves(x: int, y: int, codePoint: int, w: int, h: int)
    requires 0 <= x < w && 0 <= y < h
    ensures var m := CursorAfter(x, y, codePoint, w, h);
      && 0 <= m.x < w && 0 <= m.y < h
      && (m.scrolled <==> y == h - 1 && (codePoint == NEWLINE || x == w - 1))
      && (m.scrolled ==> m.x == 0 && m.y == h - 1)
      && (!m.scrolled && codePoint != NEWLINE ==> m.y * w + m.x == y * w + x + 1)
      && (!m.scrolled && codePoint == NEWLINE ==> m.x == 0 && m.y == y + 1)
  {
    var m := CursorAfter(x, y, codePoint, w, h);
    if !m.scrolled && codePoint != NEWLINE && x == w - 1 {
      assert m.y == y + 1 && m.x == 0;
      assert (y + 1) * w == y * w + w;
    }
  }

  // ---------------------------------------------------------------------
  // Cells and slots

  /** Cell `(x, y)` of a `w` by `h` grid lies inside its `3 * w * h` slots. */
  lemma AddrInRange(x: int, y: int, w: int, h: int)
    requires 0 <= x < w && 0 <= y < h
    ensures 0 <= Addr(x, y, w) && Addr(x, y, w) + 2 < 3 * w * h
  {
    MulMono(y, h - 1, w);
    assert (h - 1) * w == h * w - w;
    assert 0 <= y * w;
  }

  /** Cell `(x, y)` of the `w` by `h` grid `t`. */
  function CellOf(t: seq<int>, w: int, h: int, x: int, y: int): (c: Cell)
    requires |t| == 3 * w * h && 0 <= x < w && 0 <= y < h
  {
    AddrInRange(x, y, w, h);
    CellAt(t, Addr(x, y, w))
  }

  /** The `w` by `h` grid `t` with cell `(x, y)` replaced by `c`. */
  function Written(t: seq<int>, w: int, h: int, x: int, y: int, c: Cell): (r: seq<int>)
    requires |t| == 3 * w * h && 0 <= x < w && 0 <= y < h
    ensures |r| == |t|
  {
    AddrInRange(x, y, w, h);
    WithCell(t, Addr(x, y, w), c)
  }

  /** The `w` by `h` grid `t` scrolled up one row. */
  function ScrolledGrid(t: seq<int>, w: nat, h: nat): (r: seq<int>)
    requires |t| == 3 * w * h && 1 <= h
    ensures |r| == |t|
  {
    MulMono(1, h, w);
    Scrolled(t, w)
  }

  /** A cleared `w` by `h` grid. */
  function BlankGrid(w: nat, h: nat): (r: seq<int>)
    ensures |r| == 3 * w * h
  {
    Blank(w * h)
  }

  /** Distinct cells have disjoint slots: their first slots are three or more apart. */
  lemma {:induction false} AddrApart(x: int, y: int, x': int, y': int, w: int)
    requires 0 <= x < w && 0 <= y && 0 <= x' < w && 0 <= y'
    requires x != x' || y != y'
    ensures Addr(x, y, w) + 3 <= Addr(x', y', w) || Addr(x', y', w) + 3 <= Addr(x, y, w)
  {
    if y < y' {
      MulMono(y + 1, y', w);
      assert (y + 1) * w == y * w + w;
    } else if y' < y {
      MulMono(y' + 1, y, w);
      assert (y' + 1) * w == y' * w + w;
    }
  }

  /**
   * Writing one cell: that cell reads back as written and every other cell
   * of the grid is as it was.
   */
  lemma {:induction false} WriteTouchesOneCell(t: seq<int>, w: int, h: int, x: int, y: int, c: Cell, x': int, y': int)
    requires |t| == 3 * w * h && 0 <= x < w && 0 <= y < h && 0 <= x' < w && 0 <= y' < h
    ensures CellOf(Written(t, w, h, x, y, c), w, h, x', y') ==
      if x' == x && y' == y then c else CellOf(t, w, h, x', y')
  {
    AddrInRange(x, y, w, h);
    AddrInRange(x', y', w, h);
    if x' != x || y' != y {
      AddrApart(x, y, x', y', w);
    }
  }

  /**
   * After a scroll, each row below the first shows what the row beneath it
   * held, and the bottom row is cleared.
   */
  lemma {:induction false} ScrollShiftsRows(t: seq<int>, w: nat, h: nat, x: int, row: int)
    requires |t| == 3 * w * h && 0 <= x < w && 0 <= row < h
    ensures row < h - 1 ==> CellOf(ScrolledGrid(t, w, h), w, h, x, row) == CellOf(t, w, h, x, row + 1)
    ensures row == h - 1 ==> CellOf(ScrolledGrid(t, w, h), w, h, x, row) == BLANK
  {
    AddrInRange(x, row, w, h);
    MulMono(1, h, w);
    var a := Addr(x, row, w);
    assert ScrolledGrid(t, w, h) == Scrolled(t, w);
    if row < h - 1 {
      AddrInRange(x, row + 1, w, h);
      NextRowAddr(x, row, w);
      ScrolledCell(t, w, a);
    } else {
      LastRowAddr(x, w, h);
      ScrolledTailCell(t, w, x);
    }
  }

  /** The cell below `(x, y)` starts one row of slots further on. */
  lemma NextRowAddr(x: int, y: int, w: int)
    ensures Addr(x, y + 1, w) == Addr(x, y, w) + 3 * w
  {
    assert (y + 1) * w == y * w + w;
  }

  /** Cell `x` of the last row starts `3 * x` slots into the last row. */
  lemma LastRowAddr(x: int, w: int, h: int)
    ensures Addr(x, h - 1, w) == 3 * w * h - 3 * w + 3 * x
  {
    assert (h - 1) * w == h * w - w;
  }

  /** Cell `x` of the row whose first slot is `base`. */
  lemma RowAddr(x: int, y: int, w: int, base: int)
    requires base == 3 * (y * w)
    ensures Addr(x, y, w) == base + 3 * x == 3 * (y * w + x)
  {
  }

  /** The three slots of a cleared cell. */
  lemma BlankCell(k: int)
    ensures BlankSlot(3 * k) == 0 && BlankSlot(3 * k + 1) == WHITE && BlankSlot(3 * k + 2) == 0
  {
  }

  /** A cell before the last row of a scrolled grid is the cell one row further on. */
  lemma ScrolledCell(t: seq<int>, w: nat, a: int)
    requires 3 * w <= |t| && 0 <= a && a + 2 < |t| - 3 * w
    ensures CellAt(Scrolled(t, w), a) == CellAt(t, a + 3 * w)
  {
  }

  /** Cell `k` of the last row of a scrolled grid is blank. */
  lemma ScrolledTailCell(t: seq<int>, w: nat, k: int)
    requires 3 * w <= |t| && 0 <= k < w
    ensures CellAt(Scrolled(t, w), |t| - 3 * w + 3 * k) == BLANK
  {
    BlankCell(k);
  }

  /** Every cell of a cleared `w` by `h` grid is blank. */
  lemma {:induction false} ClearedCellIsBlank(w: nat, h: nat, x: int, y: int)
    requires 0 <= x < w && 0 <= y < h
    ensures CellOf(BlankGrid(w, h), w, h, x, y) == BLANK
  {
    AddrInRange(x, y, w, h);
    var a := Addr(x, y, w);
    assert a == 3 * (x + y * w);
    assert a % 3 == 0 && (a + 1) % 3 == 1 && (a + 2) % 3 == 2;
  }

  // ---------------------------------------------------------------------
  // The console

  class ExtTextIO {
    const width: nat
    const height: nat
    /** `#tram`: the cells, row after row, three slots each. */
    const tram: array<int>
    var cursorX: int
    var cursorY: int
    var color: int
    var attr: int

    /** The grid's dimensions and the length of its slot array. */
    predicate Shape()
    {
      1 <= width && 1 <= height && tram.Length == 3 * width * height
    }

    /** The cursor is on a cell of the grid. */
    ghost predicate Valid()
      reads this`cursorX, this`cursorY
    {
      Shape() && 0 <= cursorX < width && 0 <= cursorY < height
    }

    /** A cleared `w` by `h` grid, the cursor at the top left, white on no attribute. */
    constructor (w: nat, h: nat)
      requires 1 <= w && 1 <= h
      ensures Valid() && width == w && height == h && fresh(tram)
      ensures tram[..] == BlankGrid(w, h)
      ensures cursorX == 0 && cursorY == 0 && color == WHITE && attr == 0
    {
      width, height := w, h;
      tram := new int[w * 3 * h];
      cursorX, cursorY := 0, 0;
      color, attr := WHITE, 0;
      new;
      var _ := CLS(DEFAULT_TEXT_SCREEN_ID);
    }

    /** `#set`: cell `(x, y)` becomes `c`; no other slot changes. */
    method Set(x: int, y: int, c: Cell)
      requires Shape() && 0 <= x < width && 0 <= y < height
      modifies tram
      ensures 0 <= Addr(x, y, width) && Addr(x, y, width) + 2 < tram.Length
      ensures tram[Addr(x, y, width)] == c.codePoint && tram[Addr(x, y, width) + 1] == c.color
      ensures tram[Addr(x, y, width) + 2] == c.attr
      ensures forall i :: 0 <= i < tram.Length && !(Addr(x, y, width) <= i < Addr(x, y, width) + 3) ==>
        tram[i] == old(tram[i])
    {
      AddrInRange(x, y, width, height);
      var addr := x * 3 + y * width * 3;
      tram[addr] := c.codePoint;
      tram[addr + 1] := c.color;
      tram[addr + 2] := c.attr;
    }

    /**
     * `putch32`: the cell under the cursor takes the code point in the
     * current colour and attribute, then the cursor moves on as
     * `CursorAfter` says, the grid scrolling if it does.
     */
    method Putch32(codePoint: int)
      requires Valid()
      modifies tram, this`cursorX, this`cursorY
      ensures Valid()
      ensures var m := CursorAfter(old(cursorX), old(cursorY), codePoint, width, height);
        var written := Written(old(tram[..]), width, height, old(cursorX), old(cursorY), Cell(codePoint, color, attr));
        && cursorX == m.x && cursorY == m.y
        && tram[..] == if m.scrolled then ScrolledGrid(written, width, height) else written
    {
      Set(cursorX, cursorY, Cell(codePoint, color, attr));
      assert tram[..] == Written(old(tram[..]), width, height, old(cursorX), old(cursorY), Cell(codePoint, color, attr));
      if codePoint != NEWLINE {
        AdvanceCursor();
      } else {
        NextLineCursor();
      }
    }

    /** `#advanceCursor`. */
    method AdvanceCursor()
      requires Valid()
      modifies tram, this`cursorX, this`cursorY
      ensures Valid()
      ensures var m := Advance(old(cursorX), old(cursorY), width, height);
        && cursorX == m.x && cursorY == m.y
        && tram[..] == if m.scrolled then ScrolledGrid(old(tram[..]), width, height) else old(tram[..])
    {
      cursorX := cursorX + 1;
      if cursorX >= width {
        cursorX := 0;
        NextLineCursor();
      }
    }

    /** `#nextLineCursor`. */
    method NextLineCursor()
      requires Shape() && 0 <= cursorY < height
      modifies tram, this`cursorX, this`cursorY
      ensures Valid()
      ensures var m := NextLine(old(cursorY), height);
        && cursorX == m.x && cursorY == m.y
        && tram[..] == if m.scrolled then ScrolledGrid(old(tram[..]), width, height) else old(tram[..])
    {
      cursorY := cursorY + 1;
      cursorX := 0;
      if cursorY >= height {
        cursorY := height - 1;
        Scroll();
      }
    }

    /**
     * `#sclroll`: copies every slot one row back, front to back, then
     * clears the last row cell by cell.
     */
    method Scroll()
      requires Shape()
      modifies tram
      ensures tram[..] == ScrolledGrid(old(tram[..]), width, height)
    {
      MulMono(1, height, width);
      var dst := ShiftBack(width * 3);
      ClearFrom(dst, width);
      assert tram[..] == Scrolled(old(tram[..]), width);
    }

    /**
     * The copy loop of `#sclroll`: slot `src` goes to slot `dst`, the two
     * `row` apart, until `src` reaches the end; returns where `dst` stopped.
     */
    method ShiftBack(row: nat) returns (dst: nat)
      requires row <= tram.Length
      modifies tram
      ensures dst == tram.Length - row
      ensures forall i :: 0 <= i < dst ==> tram[i] == old(tram[i + row])
      ensures forall i :: dst <= i < tram.Length ==> tram[i] == old(tram[i])
    {
      dst := 0;
      var src := row;
      while src != tram.Length
        invariant row <= src <= tram.Length && dst == src - row
        invariant forall i :: 0 <= i < dst ==> tram[i] == old(tram[i + row])
        invariant forall i :: dst <= i < tram.Length ==> tram[i] == old(tram[i])
        decreases tram.Length - src
      {
        assert tram[src] == old(tram[dst + row]);
        tram[dst] := tram[src];
        dst := dst + 1;
        src := src + 1;
      }
    }

    /**
     * The clear loop of `#sclroll`: the `cells` cells from slot `from` to the
     * end become blank, three slots at a time.
     */
    method ClearFrom(from: nat, cells: nat)
      requires from + 3 * cells == tram.Length
      modifies tram
      ensures forall i :: 0 <= i < from ==> tram[i] == old(tram[i])
      ensures forall i :: from <= i < tram.Length ==> tram[i] == BlankSlot(i - from)
    {
      var dst := from;
      ghost var k := 0;
      while dst != tram.Length
        invariant 0 <= k <= cells && dst == from + 3 * k
        invariant forall i :: 0 <= i < from ==> tram[i] == old(tram[i])
        invariant forall i :: from <= i < dst ==> tram[i] == BlankSlot(i - from)
        decreases tram.Length - dst
      {
        tram[dst] := 0;
        tram[dst + 1] := WHITE;
        tram[dst + 2] := 0;
        assert (dst - from) % 3 == 0;
        dst := dst + 3;
        k := k + 1;
      }
    }

    /**
     * `#CLS`: with a screen id out of range, the error object and no change;
     * otherwise every cell is cleared. The cursor and the colour are not
     * touched either way.
     */
    method CLS(textScreenId: int) returns (r: Reply)
      requires Shape()
      modifies tram
      ensures ScreenIdOk(textScreenId) ==> r == Done && tram[..] == BlankGrid(width, height)
      ensures !ScreenIdOk(textScreenId) ==> r == OutOfRange && tram[..] == old(tram[..])
    {
      if textScreenId < 0 || textScreenId > 4 {
        return OutOfRange;
      }
      for y := 0 to height
        invariant forall i :: 0 <= i < 3 * (y * width) ==> tram[i] == BlankSlot(i)
      {
        MulMono(y + 1, height, width);
        assert (y + 1) * width == y * width + width;
        ClearRow(y, 3 * (y * width));
      }
      assert 3 * (height * width) == tram.Length;
      assert tram[..] == BlankGrid(width, height);
      return Done;
    }

    /**
     * The inner loop of `#CLS` for row `y`, whose first slot is `base`:
     * every cell of the row becomes blank; no other slot changes.
     */
    method ClearRow(y: int, ghost base: int)
      requires Shape() && 0 <= y < height && base == 3 * (y * width) && base + 3 * width <= tram.Length
      modifies tram
      ensures forall i :: base <= i < base + 3 * width ==> tram[i] == BlankSlot(i)
      ensures forall i :: 0 <= i < tram.Length && !(base <= i < base + 3 * width) ==> tram[i] == old(tram[i])
    {
      for x := 0 to width
        invariant forall i :: base <= i < base + 3 * x ==> tram[i] == BlankSlot(i)
        invariant forall i :: 0 <= i < tram.Length && !(base <= i < base + 3 * x) ==> tram[i] == old(tram[i])
      {
        RowAddr(x, y, width, base);
        BlankCell(y * width + x);
        Set(x, y, BLANK);
      }
    }

    /** `#COLOR`: with a screen id in range, `rgba` becomes the current colour. */
    method COLOR(textScreenId: int, rgba: int) returns (r: Reply)
      modifies this`color
      ensures ScreenIdOk(textScreenId) ==> r == Done && color == rgba
      ensures !ScreenIdOk(textScreenId) ==> r == OutOfRange && color == old(color)
    {
      if textScreenId < 0 || textScreenId > 4 {
        return OutOfRange;
      }
      color := rgba;
      return Done;
    }

    /** `#funcCOLOR`: the current colour as the one return value, for a screen id in range. */
    method FuncCOLOR(textScreenId: int) returns (r: Reply)
      ensures ScreenIdOk(textScreenId) ==> r == Rets([color])
      ensures !ScreenIdOk(textScreenId) ==> r == OutOfRange
    {
      if textScreenId < 0 || textScreenId > 4 {
        return OutOfRange;
      }
      return Rets([color]);
    }
  }
}
