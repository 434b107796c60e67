/**
 * The terminal back buffer that termbox keeps, seen as a plane of cells keyed by
 * (column, row), and `printTb`, which writes one message into it rune by rune.
 * A position missing from the map holds a blank cell in the default colours.
 */
module Terminal {

  /** termbox.Attribute: a colour/style value. */
  type Attribute = nat

  const ColorDefault: Attribute := 0

  datatype Cell = Cell(ch: char, fg: Attribute, bg: Attribute)

  /** (column, row) */
  type Pos = (int, int)

  /** One message written in the default colours with its top-left position. */
  datatype Text = Text(x: int, y: int, msg: string)

  /** Whether a message of `n` runes written at (x, y) covers p. */
  predicate Covers(x: int, y: int, n: nat, p: Pos)
  {
    p.1 == y && x <= p.0 < x + n
  }

  /** The cells a message of `n` runes covers when written at (x, y). */
  function Footprint(x: int, y: int, n: nat): set<Pos>
  {
    if n == 0 then {} else Footprint(x, y, n - 1) + {(x + n - 1, y)}
  }

  /** The footprint is the covered cells, and there are exactly `n` of them. */
  lemma {:induction false} FootprintCells(x: int, y: int, n: nat)
    ensures forall p :: p in Footprint(x, y, n) <==> Covers(x, y, n, p)
    ensures |Footprint(x, y, n)| == n
  {
    if n > 0 {
      FootprintCells(x, y, n - 1);
      assert (x + n - 1, y) !in Footprint(x, y, n - 1);
    }
  }

  /** The back buffer after `printTb(x, y, fg, bg, msg)`. */
  function Paint(cells: map<Pos, Cell>, x: int, y: int, fg: Attribute, bg: Attribute, msg: string)
    : map<Pos, Cell>
    decreases |msg|
  {
    if msg == [] then cells
    else Paint(cells, x, y, fg, bg, msg[..|msg| - 1])[(x + |msg| - 1, y) := Cell(msg[|msg| - 1], fg, bg)]
  }

  /** Rune k of the message is in cell (x + k, y). */
  lemma {:induction false} PaintAt(cells: map<Pos, Cell>, x: int, y: int, fg: Attribute, bg: Attribute, msg: string, k: nat)
    requires k < |msg|
    ensures (x + k, y) in Paint(cells, x, y, fg, bg, msg)
    ensures Paint(cells, x, y, fg, bg, msg)[(x + k, y)] == Cell(msg[k], fg, bg)
    decreases |msg|
  {
    if k < |msg| - 1 {
      PaintAt(cells, x, y, fg, bg, msg[..|msg| - 1], k);
    }
  }

  /** A cell the message does not cover is neither added nor changed. */
  lemma {:induction false} PaintOutside(cells: map<Pos, Cell>, x: int, y: int, fg: Attribute, bg: Attribute, msg: string, p: Pos)
    requires !Covers(x, y, |msg|, p)
    ensures p in Paint(cells, x, y, fg, bg, msg) <==> p in cells
    ensures p in cells ==> Paint(cells, x, y, fg, bg, msg)[p] == cells[p]
    decreases |msg|
  {
    if msg != [] {
      PaintOutside(cells, x, y, fg, bg, msg[..|msg| - 1], p);
    }
  }

  /** The cells present afterwards are the ones present before plus the footprint. */
  lemma {:induction false} PaintKeys(cells: map<Pos, Cell>, x: int, y: int, fg: Attribute, bg: Attribute, msg: string)
    ensures Paint(cells, x, y, fg, bg, msg).Keys == cells.Keys + Footprint(x, y, |msg|)
    decreases |msg|
  {
    if msg != [] {
      PaintKeys(cells, x, y, fg, bg, msg[..|msg| - 1]);
    }
  }

  /** The back buffer after writing `texts` one after the other in the default colours. */
  function PaintAll(cells: map<Pos, Cell>, texts: seq<Text>): map<Pos, Cell>
  {
    if texts == [] then cells
    else
      var t := texts[|texts| - 1];
      Paint(PaintAll(cells, texts[..|texts| - 1]), t.x, t.y, ColorDefault, ColorDefault, t.msg)
  }

  /** Writing `a` and then `b` is writing `a + b`. */
  lemma {:induction false} PaintAllAppend(cells: map<Pos, Cell>, a: seq<Text>, b: seq<Text>)
    ensures PaintAll(cells, a + b) == PaintAll(PaintAll(cells, a), b)
    decreases |b|
  {
    if b == [] {
      assert a + b == a;
    } else {
      PaintAllAppend(cells, a, b[..|b| - 1]);
      assert (a + b)[..|a + b| - 1] == a + b[..|b| - 1];
    }
  }

  /** A cell that none of `texts` covers keeps whatever it held. */
  lemma {:induction false} PaintAllOutside(cells: map<Pos, Cell>, texts: seq<Text>, p: Pos)
    requires forall j :: 0 <= j < |texts| ==> !Covers(texts[j].x, texts[j].y, |texts[j].msg|, p)
    ensures p in PaintAll(cells, texts) <==> p in cells
    ensures p in cells ==> PaintAll(cells, texts)[p] == cells[p]
    decreases |texts|
  {
    if texts != [] {
      var t := texts[|texts| - 1];
      PaintAllOutside(cells, texts[..|texts| - 1], p);
      PaintOutside(PaintAll(cells, texts[..|texts| - 1]), t.x, t.y, ColorDefault, ColorDefault, t.msg, p);
    }
  }

  /**
   * Rune k of text j is what the cell it went to shows once all of `texts` are written,
   * when no later text covers that cell.
   */
  lemma {:induction false} PaintAllVisible(cells: map<Pos, Cell>, texts: seq<Text>, j: nat, k: nat)
    requires j < |texts| && k < |texts[j].msg|
    requires forall i :: j < i < |texts| ==>
      !Covers(texts[i].x, texts[i].y, |texts[i].msg|, (texts[j].x + k, texts[j].y))
    ensures (texts[j].x + k, texts[j].y) in PaintAll(cells, texts)
    ensures PaintAll(cells, texts)[(texts[j].x + k, texts[j].y)] == Cell(texts[j].msg[k], ColorDefault, ColorDefault)
    decreases |texts|
  {
    var p := (texts[j].x + k, texts[j].y);
    var front := texts[..|texts| - 1];
    var t := texts[|texts| - 1];
    var mid := PaintAll(cells, front);
    if j == |texts| - 1 {
      PaintAt(mid, t.x, t.y, ColorDefault, ColorDefault, t.msg, k);
    } else {
      assert p in mid && mid[p] == Cell(texts[j].msg[k], ColorDefault, ColorDefault) by {
        assert front[j] == texts[j];
        forall i | j < i < |front|
          ensures !Covers(front[i].x, front[i].y, |front[i].msg|, p)
        {
          assert front[i] == texts[i];
        }
        PaintAllVisible(cells, front, j, k);
      }
      PaintOutside(mid, t.x, t.y, ColorDefault, ColorDefault, t.msg, p);
    }
  }

  /** The terminal back buffer; `termbox.Init` followed by `termbox.Clear` gives a blank one. */
  class Screen {
    var cells: map<Pos, Cell>

    constructor ()
      ensures cells == map[]
    {
      cells := map[];
    }

    /** printTb: rune k of `msg` goes to (x + k, y); no other cell changes. */
    method PrintTb(x: int, y: int, fg: Attribute, bg: Attribute, msg: string)
      modifies this
      ensures cells == Paint(old(cells), x, y, fg, bg, msg)
    {
      var col := x;
      var i := 0;
      while i < |msg|
        invariant 0 <= i <= |msg|
        invariant col == x + i
        invariant cells == Paint(old(cells), x, y, fg, bg, msg[..i])
      {
        cells := cells[(col, y) := Cell(msg[i], fg, bg)];
        assert msg[..i + 1][..i] == msg[..i];
        col := col + 1;
        i := i + 1;
      }
      assert msg[..i] == msg;
    }
  }
}
