/**
 * The live statistics view: `printStats` writes one six-line block per pinger and
 * `reportStats` writes the instruction line and then block i with its top-left
 * corner at column 7 * i + 2, row 0. Blocks are only seven columns apart on the
 * same rows, so a later block overwrites the right part of an earlier one.
 */
module Display {
  import opened Terminal
  import opened Probes

  const Instructions: string := "Press space to freeze stats, Ctrl+C to end..."

  /** `%d` of a non-negative integer. */
  function Decimal(n: nat): (s: string)
    ensures |s| >= 1
    ensures forall i :: 0 <= i < |s| ==> '0' <= s[i] <= '9'
  {
    if n < 10 then ['0' + n as char] else Decimal(n / 10) + ['0' + (n % 10) as char]
  }

  /** The number a string of decimal digits stands for. */
  function DigitsValue(s: string): int
  {
    if s == [] then 0 else 10 * DigitsValue(s[..|s| - 1]) + (s[|s| - 1] as int - '0' as int)
  }

  /** `%d` gives the decimal digits of n, with no leading zero. */
  lemma {:induction false} DecimalValue(n: nat)
    ensures DigitsValue(Decimal(n)) == n
    ensures |Decimal(n)| == 1 || Decimal(n)[0] != '0'
  {
    if n >= 10 {
      DecimalValue(n / 10);
      var s := Decimal(n);
      assert s[..|s| - 1] == Decimal(n / 10);
      assert s[0] == Decimal(n / 10)[0];
    }
  }

  function Header(name: string, sent: nat): string
  {
    "Statistics for " + name + " (" + Decimal(sent) + " packets sent):"
  }

  /** The six lines `printStats(x, y, name, s)` writes, in the order it writes them. */
  function StatsTexts(x: int, y: int, name: string, s: Statistics): seq<Text>
  {
    [ Text(x, y + 2, Header(name, s.packetsSent)),
      Text(x + 2, y + 3, "- Packet Loss: " + s.packetLoss + "%"),
      Text(x + 2, y + 4, "- Avg. RTT (ms): " + s.avgRtt),
      Text(x + 2, y + 5, "- Min. RTT (ms): " + s.minRtt),
      Text(x + 2, y + 6, "- Max. RTT (ms): " + s.maxRtt),
      Text(x + 2, y + 7, "- Std. Dev. RTT (ms): " + s.stdDevRtt) ]
  }

  /** The column of line `j` of a block whose corner is at column x. */
  function LineColumn(x: int, j: nat): int
  {
    if j == 0 then x else x + 2
  }

  /**
   * Every rune of every line of one block is visible where it was written: the header
   * at (x, y + 2) and detail line j at (x + 2, y + 2 + j).
   */
  lemma StatsBlockVisible(cells: map<Pos, Cell>, x: int, y: int, name: string, s: Statistics, j: nat, k: nat)
    requires j < 6 && k < |StatsTexts(x, y, name, s)[j].msg|
    ensures var r := PaintAll(cells, StatsTexts(x, y, name, s));
      (LineColumn(x, j) + k, y + 2 + j) in r &&
      r[(LineColumn(x, j) + k, y + 2 + j)] == Cell(StatsTexts(x, y, name, s)[j].msg[k], ColorDefault, ColorDefault)
  {
    PaintAllVisible(cells, StatsTexts(x, y, name, s), j, k);
  }

  /** A block changes no cell above row y + 2, below row y + 7 or left of column x. */
  lemma StatsBlockFrame(cells: map<Pos, Cell>, x: int, y: int, name: string, s: Statistics, p: Pos)
    requires p.1 < y + 2 || p.1 > y + 7 || p.0 < x
    ensures p in PaintAll(cells, StatsTexts(x, y, name, s)) <==> p in cells
    ensures p in cells ==> PaintAll(cells, StatsTexts(x, y, name, s))[p] == cells[p]
  {
    PaintAllOutside(cells, StatsTexts(x, y, name, s), p);
  }

  /** The blocks of the first n pingers, block i at (7 * i + 2, 0), in drawing order. */
  function Blocks(names: seq<string>, stats: seq<Statistics>, n: nat): (ts: seq<Text>)
    requires n <= |names| && n <= |stats|
    ensures |ts| == 6 * n
  {
    if n == 0 then []
    else Blocks(names, stats, n - 1) + StatsTexts(7 * (n - 1) + 2, 0, names[n - 1], stats[n - 1])
  }

  /** Line j of block i is line j of `printStats(7 * i + 2, 0, names[i], stats[i])`. */
  lemma {:induction false} BlockAt(names: seq<string>, stats: seq<Statistics>, n: nat, i: nat, j: nat)
    requires n <= |names| && n <= |stats|
    requires i < n && j < 6
    ensures Blocks(names, stats, n)[6 * i + j] == StatsTexts(7 * i + 2, 0, names[i], stats[i])[j]
  {
    if i < n - 1 {
      BlockAt(names, stats, n - 1, i, j);
    }
  }

  /** Every line of every block lies on rows 2 to 7. */
  lemma BlockRows(names: seq<string>, stats: seq<Statistics>, n: nat, m: nat)
    requires n <= |names| && n <= |stats| && m < 6 * n
    ensures 2 <= Blocks(names, stats, n)[m].y <= 7
    ensures Blocks(names, stats, n)[m].x == 7 * (m / 6) + 2 + (if m % 6 == 0 then 0 else 2)
  {
    BlockAt(names, stats, n, m / 6, m % 6);
  }

  /** Everything one frame of `reportStats` writes, in order. */
  function ReportTexts(names: seq<string>, pingers: seq<Pinger>, statsOf: Pinger -> Statistics): seq<Text>
    requires |pingers| <= |names|
  {
    [Text(0, 0, Instructions)] + Blocks(names, Snapshot(pingers, statsOf), |pingers|)
  }

  /** The instruction line on row 0 is never overwritten by the blocks. */
  lemma InstructionsVisible(cells: map<Pos, Cell>, names: seq<string>, pingers: seq<Pinger>, statsOf: Pinger -> Statistics, k: nat)
    requires |pingers| <= |names| && k < |Instructions|
    ensures (k, 0) in PaintAll(cells, ReportTexts(names, pingers, statsOf))
    ensures PaintAll(cells, ReportTexts(names, pingers, statsOf))[(k, 0)] == Cell(Instructions[k], ColorDefault, ColorDefault)
  {
    var ts := ReportTexts(names, pingers, statsOf);
    var stats := Snapshot(pingers, statsOf);
    forall i | 0 < i < |ts|
      ensures !Covers(ts[i].x, ts[i].y, |ts[i].msg|, (ts[0].x + k, ts[0].y))
    {
      BlockRows(names, stats, |pingers|, i - 1);
    }
    PaintAllVisible(cells, ts, 0, k);
  }

  /** Nothing is drawn over the block of the last pinger: all six of its lines are visible. */
  lemma LastBlockVisible(cells: map<Pos, Cell>, names: seq<string>, pingers: seq<Pinger>, statsOf: Pinger -> Statistics, j: nat, k: nat)
    requires 0 < |pingers| <= |names| && j < 6
    requires k < |StatsTexts(7 * (|pingers| - 1) + 2, 0, names[|pingers| - 1], statsOf(pingers[|pingers| - 1]))[j].msg|
    ensures var r := PaintAll(cells, ReportTexts(names, pingers, statsOf));
      var x := 7 * (|pingers| - 1) + 2;
      (LineColumn(x, j) + k, 2 + j) in r &&
      r[(LineColumn(x, j) + k, 2 + j)] == Cell(StatsTexts(x, 0, names[|pingers| - 1], statsOf(pingers[|pingers| - 1]))[j].msg[k], ColorDefault, ColorDefault)
  {
    var n := |pingers|;
    var ts := ReportTexts(names, pingers, statsOf);
    var stats := Snapshot(pingers, statsOf);
    var m := 1 + 6 * (n - 1) + j;
    BlockAt(names, stats, n, n - 1, j);
    forall i | m < i < |ts|
      ensures !Covers(ts[i].x, ts[i].y, |ts[i].msg|, (ts[m].x + k, ts[m].y))
    {
      BlockAt(names, stats, n, n - 1, i - 1 - 6 * (n - 1));
    }
    PaintAllVisible(cells, ts, m, k);
  }

  /**
   * Blocks overlap: the header of block i + 1 starts on the cell where rune 7 of the
   * header of block i went, so that cell shows 'S' instead of the 'i' of "Statistics".
   */
  lemma HeadersOverlap(cells: map<Pos, Cell>, names: seq<string>, pingers: seq<Pinger>, statsOf: Pinger -> Statistics, i: nat)
    requires |pingers| <= |names| && i + 1 < |pingers|
    ensures Header(names[i], statsOf(pingers[i]).packetsSent)[7] == 'i'
    ensures var r := PaintAll(cells, ReportTexts(names, pingers, statsOf));
      (7 * i + 2 + 7, 2) in r && r[(7 * i + 2 + 7, 2)] == Cell('S', ColorDefault, ColorDefault)
  {
    var n := |pingers|;
    var ts := ReportTexts(names, pingers, statsOf);
    var stats := Snapshot(pingers, statsOf);
    var m := 1 + 6 * (i + 1);
    BlockAt(names, stats, n, i + 1, 0);
    forall l | m < l < |ts|
      ensures !Covers(ts[l].x, ts[l].y, |ts[l].msg|, (ts[m].x + 0, ts[m].y))
    {
      BlockAt(names, stats, n, (l - 1) / 6, (l - 1) % 6);
    }
    PaintAllVisible(cells, ts, m, 0);
  }

  /** printStats: the six lines of the block, written top to bottom. */
  method PrintStats(screen: Screen, x: int, y: int, name: string, s: Statistics)
    modifies screen
    ensures screen.cells == PaintAll(old(screen.cells), StatsTexts(x, y, name, s))
  {
    ghost var ts := StatsTexts(x, y, name, s);
    ghost var c := screen.cells;
    screen.PrintTb(x, y + 2, ColorDefault, ColorDefault, Header(name, s.packetsSent));
    assert screen.cells == PaintAll(c, ts[..1]);
    screen.PrintTb(x + 2, y + 3, ColorDefault, ColorDefault, "- Packet Loss: " + s.packetLoss + "%");
    assert ts[..2][..1] == ts[..1];
    assert screen.cells == PaintAll(c, ts[..2]);
    screen.PrintTb(x + 2, y + 4, ColorDefault, ColorDefault, "- Avg. RTT (ms): " + s.avgRtt);
    assert ts[..3][..2] == ts[..2];
    assert screen.cells == PaintAll(c, ts[..3]);
    screen.PrintTb(x + 2, y + 5, ColorDefault, ColorDefault, "- Min. RTT (ms): " + s.minRtt);
    assert ts[..4][..3] == ts[..3];
    assert screen.cells == PaintAll(c, ts[..4]);
    screen.PrintTb(x + 2, y + 6, ColorDefault, ColorDefault, "- Max. RTT (ms): " + s.maxRtt);
    assert ts[..5][..4] == ts[..4];
    assert screen.cells == PaintAll(c, ts[..5]);
    screen.PrintTb(x + 2, y + 7, ColorDefault, ColorDefault, "- Std. Dev. RTT (ms): " + s.stdDevRtt);
    assert ts[..6][..5] == ts[..5];
    assert ts[..6] == ts;
  }

  /** reportStats: the instruction line, then one block per pinger labelled by names[i]. */
  method ReportStats(screen: Screen, names: seq<string>, pingers: seq<Pinger>, statsOf: Pinger -> Statistics)
    requires |pingers| <= |names|
    modifies screen
    ensures screen.cells == PaintAll(old(screen.cells), ReportTexts(names, pingers, statsOf))
  {
    screen.PrintTb(0, 0, ColorDefault, ColorDefault, Instructions);
    ghost var first := [Text(0, 0, Instructions)];
    ghost var stats := Snapshot(pingers, statsOf);
    assert first[..0] == [];
    var i := 0;
    while i < |pingers|
      invariant i <= |pingers|
      invariant screen.cells == PaintAll(old(screen.cells), first + Blocks(names, stats, i))
    {
      var block := StatsTexts(7 * i + 2, 0, names[i], statsOf(pingers[i]));
      PrintStats(screen, 7 * i + 2, 0, names[i], statsOf(pingers[i]));
      PaintAllAppend(old(screen.cells), first + Blocks(names, stats, i), block);
      assert first + Blocks(names, stats, i + 1) == (first + Blocks(names, stats, i)) + block;
      i := i + 1;
    }
  }

  /**
   * One pass of the render loop while `exit` is unset: a frozen view is left as it is,
   * otherwise the statistics are drawn again.
   */
  method RenderPass(screen: Screen, frozen: bool, names: seq<string>, pingers: seq<Pinger>, statsOf: Pinger -> Statistics)
    requires |pingers| <= |names|
    modifies screen
    ensures screen.cells == if frozen then old(screen.cells) else PaintAll(old(screen.cells), ReportTexts(names, pingers, statsOf))
  {
    if !frozen {
      ReportStats(screen, names, pingers, statsOf);
    }
  }
}
