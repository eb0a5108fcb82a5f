/**
  The four-line text block sent to the display, built from literal text and
  integer fields, together with a reference reader that recovers the fields
  from the text. The reader exists to show that no two snapshots share a
  block; it is more lenient than the fixed layout (it skips padding and
  accepts leading zeros) and says nothing about how the device reads it.
*/
module Display {
  import opened Wrappers
  import opened PyStr

  /** One piece of an f-string: literal text, a `{n:>3}` field or a `{n}` field. */
  datatype Piece = Text(t: string) | Percent(n: int) | Number(n: int)

  /** What a reader expects in place of a piece: the literal, or some integer in one of the two layouts. */
  datatype Slot = Literal(t: string) | PercentSlot | NumberSlot

  function RenderPiece(p: Piece): string {
    match p
    case Text(t) => t
    case Percent(n) => PadLeft(IntStr(n), 3)
    case Number(n) => IntStr(n)
  }

  function Render(ps: seq<Piece>): string {
    if ps == [] then "" else RenderPiece(ps[0]) + Render(ps[1..])
  }

  function SlotOf(p: Piece): Slot {
    match p
    case Text(t) => Literal(t)
    case Percent(_) => PercentSlot
    case Number(_) => NumberSlot
  }

  function Shape(ps: seq<Piece>): seq<Slot> {
    if ps == [] then [] else [SlotOf(ps[0])] + Shape(ps[1..])
  }

  /** The integers of the numeric pieces, in order. */
  function Values(ps: seq<Piece>): seq<int> {
    if ps == [] then []
    else if ps[0].Text? then Values(ps[1..])
    else [ps[0].n] + Values(ps[1..])
  }

  /**
    Every numeric piece that is not last is followed by non-empty literal text
    that does not start with a digit, so a reader can tell where each number ends.
  */
  predicate Separated(ps: seq<Piece>) {
    forall i :: 0 <= i < |ps| - 1 && !ps[i].Text? ==>
      ps[i + 1].Text? && ps[i + 1].t != [] && !IsDigit(ps[i + 1].t[0])
  }

  /** Reads `s` against `shape`, returning the integers found in the numeric slots. */
  function Parse(shape: seq<Slot>, s: string): Option<seq<int>> {
    if shape == [] then
      if s == [] then Some([]) else None
    else
      match shape[0]
      case Literal(t) =>
        if StartsWith(s, t) then Parse(shape[1..], s[|t|..]) else None
      case PercentSlot =>
        var (n, rest) :- ReadInt(SkipBlanks(s));
        var vs :- Parse(shape[1..], rest);
        Some([n] + vs)
      case NumberSlot =>
        var (n, rest) :- ReadInt(s);
        var vs :- Parse(shape[1..], rest);
        Some([n] + vs)
  }

  lemma RenderStartsWithText(ps: seq<Piece>)
    requires ps != [] && ps[0].Text? && ps[0].t != []
    ensures Render(ps) != [] && Render(ps)[0] == ps[0].t[0]
  {
  }

  /** Reading rendered text against its own shape gives back exactly its integers. */
  lemma {:induction false} ParseRender(ps: seq<Piece>)
    requires Separated(ps)
    ensures Parse(Shape(ps), Render(ps)) == Some(Values(ps))
  {
    if ps != [] {
      var rest := Render(ps[1..]);
      assert Separated(ps[1..]) by {
        assert forall i :: 0 <= i < |ps| - 2 ==> ps[1..][i] == ps[i + 1];
      }
      ParseRender(ps[1..]);
      assert Shape(ps)[1..] == Shape(ps[1..]);
      if !ps[0].Text? {
        assert rest == [] || !IsDigit(rest[0]) by {
          if |ps| > 1 {
            RenderStartsWithText(ps[1..]);
          }
        }
        ReadIntStr(ps[0].n, rest);
        if ps[0].Percent? {
          SkipBlanksPadded(IntStr(ps[0].n), 3, rest);
        }
      } else {
        assert (ps[0].t + rest)[|ps[0].t|..] == rest;
      }
    }
  }

  lemma {:induction false} RenderAppend(a: seq<Piece>, b: seq<Piece>)
    ensures Render(a + b) == Render(a) + Render(b)
  {
    if a != [] {
      RenderAppend(a[1..], b);
      assert (a + b)[1..] == a[1..] + b;
    } else {
      assert a + b == b;
    }
  }

  lemma {:induction false} ShapeAppend(a: seq<Piece>, b: seq<Piece>)
    ensures Shape(a + b) == Shape(a) + Shape(b)
  {
    if a != [] {
      ShapeAppend(a[1..], b);
      assert (a + b)[1..] == a[1..] + b;
    } else {
      assert a + b == b;
    }
  }

  lemma {:induction false} ValuesAppend(a: seq<Piece>, b: seq<Piece>)
    ensures Values(a + b) == Values(a) + Values(b)
  {
    if a != [] {
      ValuesAppend(a[1..], b);
      assert (a + b)[1..] == a[1..] + b;
    } else {
      assert a + b == b;
    }
  }

  /** Two separated lists stay separated when the first ends in literal text. */
  lemma SeparatedAppend(a: seq<Piece>, b: seq<Piece>)
    requires Separated(a) && Separated(b)
    requires a != [] && a[|a| - 1].Text?
    ensures Separated(a + b)
  {
  }

  /** The integers of one cycle, each already truncated. */
  datatype Snapshot = Snapshot(
    cpuUsage: int, cpuTemp: int,
    gpuUsage: int, gpuTemp: int,
    ramUsed: int, ramAvail: int,
    tx: int, rx: int)

  /** `CPU:{cpu_usage:>3}%  TEMP:{cpu_temp} C` */
  function CpuLine(s: Snapshot): seq<Piece> {
    [Text("CPU:"), Percent(s.cpuUsage), Text("%  TEMP:"), Number(s.cpuTemp), Text(" C")]
  }

  /** `GPU:{gpu_usage:>3}%  TEMP:{gpu_temp} C` */
  function GpuLine(s: Snapshot): seq<Piece> {
    [Text("GPU:"), Percent(s.gpuUsage), Text("%  TEMP:"), Number(s.gpuTemp), Text(" C")]
  }

  /** `RAM:{ram_used} GB  AVL:{ram_avail} GB` */
  function RamLine(s: Snapshot): seq<Piece> {
    [Text("RAM:"), Number(s.ramUsed), Text(" GB  AVL:"), Number(s.ramAvail), Text(" GB")]
  }

  /** `TX:{tx}KB/s  RX:{rx}KB/s` */
  function NetLine(s: Snapshot): seq<Piece> {
    [Text("TX:"), Number(s.tx), Text("KB/s  RX:"), Number(s.rx), Text("KB/s")]
  }

  /** A line followed by its line break. */
  function Broken(line: seq<Piece>): seq<Piece> {
    line + [Text("\n")]
  }

  /** Three lines each ending in a break, then the last line without one. */
  function Layout(s: Snapshot): seq<Piece> {
    Broken(CpuLine(s)) + Broken(GpuLine(s)) + Broken(RamLine(s)) + NetLine(s)
  }

  /** The `output` f-string of the polling loop. */
  function Format(s: Snapshot): string {
    Render(Layout(s))
  }

  const CpuSlots: seq<Slot> := [Literal("CPU:"), PercentSlot, Literal("%  TEMP:"), NumberSlot, Literal(" C"), Literal("\n")]
  const GpuSlots: seq<Slot> := [Literal("GPU:"), PercentSlot, Literal("%  TEMP:"), NumberSlot, Literal(" C"), Literal("\n")]
  const RamSlots: seq<Slot> := [Literal("RAM:"), NumberSlot, Literal(" GB  AVL:"), NumberSlot, Literal(" GB"), Literal("\n")]
  const NetSlots: seq<Slot> := [Literal("TX:"), NumberSlot, Literal("KB/s  RX:"), NumberSlot, Literal("KB/s")]

  /** The reference reader's shape: the four lines, the first three each followed by a break. */
  const DisplaySlots: seq<Slot> := CpuSlots + GpuSlots + RamSlots + NetSlots

  /** The snapshot's integers in the order the block shows them. */
  function Fields(s: Snapshot): seq<int> {
    [s.cpuUsage, s.cpuTemp, s.gpuUsage, s.gpuTemp, s.ramUsed, s.ramAvail, s.tx, s.rx]
  }

  /** The reference reader: recovers a snapshot from a block. */
  function ParseDisplay(text: string): Option<Snapshot> {
    var vs :- Parse(DisplaySlots, text);
    if |vs| == 8 then Some(Snapshot(vs[0], vs[1], vs[2], vs[3], vs[4], vs[5], vs[6], vs[7]))
    else None
  }

  lemma {:induction false} ShapeAt(ps: seq<Piece>)
    ensures |Shape(ps)| == |ps|
    ensures forall i :: 0 <= i < |ps| ==> Shape(ps)[i] == SlotOf(ps[i])
  {
    if ps != [] {
      ShapeAt(ps[1..]);
    }
  }

  /** The integers of a five-piece line whose second and fourth pieces are the numeric ones. */
  lemma LineValues(ps: seq<Piece>)
    requires |ps| == 5 && ps[0].Text? && !ps[1].Text? && ps[2].Text? && !ps[3].Text? && ps[4].Text?
    ensures Values(ps) == [ps[1].n, ps[3].n]
  {
    assert Values(ps[4..]) == [] by { assert ps[4..][1..] == []; }
    assert Values(ps[3..]) == [ps[3].n] by { assert ps[3..][1..] == ps[4..]; }
    assert Values(ps[2..]) == [ps[3].n] by { assert ps[2..][1..] == ps[3..]; }
    assert Values(ps[1..]) == [ps[1].n, ps[3].n] by { assert ps[1..][1..] == ps[2..]; }
  }

  /** A line break adds no integers and keeps a line separated. */
  lemma BrokenLine(line: seq<Piece>)
    requires Separated(line) && line != [] && line[|line| - 1].Text?
    ensures Separated(Broken(line))
    ensures Values(Broken(line)) == Values(line)
    ensures Render(Broken(line)) == Render(line) + "\n"
  {
    var nl := [Text("\n")];
    SeparatedAppend(line, nl);
    ValuesAppend(line, nl);
    RenderAppend(line, nl);
    assert Values(nl) == [] by { assert nl[1..] == []; }
    assert Render(nl) == "\n" by { assert nl[1..] == []; }
  }

  /** A line that is separated and ends in literal text. */
  predicate WellEnded(line: seq<Piece>) {
    Separated(line) && line != [] && line[|line| - 1].Text?
  }

  /** Joining three broken lines and a last line keeps them separated. */
  lemma JoinSeparated(c: seq<Piece>, g: seq<Piece>, r: seq<Piece>, n: seq<Piece>)
    requires WellEnded(c) && WellEnded(g) && WellEnded(r) && Separated(n)
    ensures Separated(Broken(c) + Broken(g) + Broken(r) + n)
  {
    BrokenLine(c);
    BrokenLine(g);
    BrokenLine(r);
    var bc, bg, br := Broken(c), Broken(g), Broken(r);
    SeparatedAppend(bc, bg);
    SeparatedAppend(bc + bg, br);
    SeparatedAppend(bc + bg + br, n);
  }

  /** Joining lines concatenates their integers. */
  lemma JoinValues(c: seq<Piece>, g: seq<Piece>, r: seq<Piece>, n: seq<Piece>)
    requires WellEnded(c) && WellEnded(g) && WellEnded(r)
    ensures Values(Broken(c) + Broken(g) + Broken(r) + n) == Values(c) + Values(g) + Values(r) + Values(n)
  {
    BrokenLine(c);
    BrokenLine(g);
    BrokenLine(r);
    var bc, bg, br := Broken(c), Broken(g), Broken(r);
    ValuesAppend(bc, bg);
    ValuesAppend(bc + bg, br);
    ValuesAppend(bc + bg + br, n);
  }

  /** Joining lines concatenates their shapes. */
  lemma JoinShape(c: seq<Piece>, g: seq<Piece>, r: seq<Piece>, n: seq<Piece>)
    ensures Shape(Broken(c) + Broken(g) + Broken(r) + n)
      == Shape(Broken(c)) + Shape(Broken(g)) + Shape(Broken(r)) + Shape(n)
  {
    var bc, bg, br := Broken(c), Broken(g), Broken(r);
    ShapeAppend(bc, bg);
    ShapeAppend(bc + bg, br);
    ShapeAppend(bc + bg + br, n);
  }

  /** Joining lines joins their texts with line breaks. */
  lemma JoinRender(c: seq<Piece>, g: seq<Piece>, r: seq<Piece>, n: seq<Piece>)
    requires WellEnded(c) && WellEnded(g) && WellEnded(r)
    ensures Render(Broken(c) + Broken(g) + Broken(r) + n)
      == Render(c) + "\n" + Render(g) + "\n" + Render(r) + "\n" + Render(n)
  {
    BrokenLine(c);
    BrokenLine(g);
    BrokenLine(r);
    var bc, bg, br := Broken(c), Broken(g), Broken(r);
    RenderAppend(bc, bg);
    RenderAppend(bc + bg, br);
    RenderAppend(bc + bg + br, n);
    JoinLines(Render(c), Render(g), Render(r), Render(n), "\n");
  }

  lemma JoinLines(a: string, b: string, c: string, d: string, nl: string)
    ensures (a + nl) + (b + nl) + (c + nl) + d == a + nl + b + nl + c + nl + d
  {
  }

  /** A line with a field after each of its first two literals is separated when the later literals start with a non-digit. */
  lemma LineWellEnded(a: string, p: Piece, b: string, q: Piece, c: string)
    requires b != [] && !IsDigit(b[0]) && c != [] && !IsDigit(c[0])
    ensures WellEnded([Text(a), p, Text(b), q, Text(c)])
  {
  }

  lemma LinesWellEnded(s: Snapshot)
    ensures WellEnded(CpuLine(s)) && WellEnded(GpuLine(s)) && WellEnded(RamLine(s)) && Separated(NetLine(s))
  {
    LineWellEnded("CPU:", Percent(s.cpuUsage), "%  TEMP:", Number(s.cpuTemp), " C");
    LineWellEnded("GPU:", Percent(s.gpuUsage), "%  TEMP:", Number(s.gpuTemp), " C");
    LineWellEnded("RAM:", Number(s.ramUsed), " GB  AVL:", Number(s.ramAvail), " GB");
    LineWellEnded("TX:", Number(s.tx), "KB/s  RX:", Number(s.rx), "KB/s");
  }

  lemma LineShapes(s: Snapshot)
    ensures Shape(Broken(CpuLine(s))) == CpuSlots
    ensures Shape(Broken(GpuLine(s))) == GpuSlots
    ensures Shape(Broken(RamLine(s))) == RamSlots
    ensures Shape(NetLine(s)) == NetSlots
  {
    ShapeAt(Broken(CpuLine(s)));
    ShapeAt(Broken(GpuLine(s)));
    ShapeAt(Broken(RamLine(s)));
    ShapeAt(NetLine(s));
  }

  lemma LinesValues(s: Snapshot)
    ensures Values(CpuLine(s)) == [s.cpuUsage, s.cpuTemp]
    ensures Values(GpuLine(s)) == [s.gpuUsage, s.gpuTemp]
    ensures Values(RamLine(s)) == [s.ramUsed, s.ramAvail]
    ensures Values(NetLine(s)) == [s.tx, s.rx]
  {
    LineValues(CpuLine(s));
    LineValues(GpuLine(s));
    LineValues(RamLine(s));
    LineValues(NetLine(s));
  }

  /**
    The block carries every field faithfully: the reference reader recovers
    exactly the snapshot it was formatted from, so distinct snapshots never
    produce the same text.
  */
  lemma ParseFormat(s: Snapshot)
    ensures ParseDisplay(Format(s)) == Some(s)
  {
    LayoutFacts(s);
    ParseRender(Layout(s));
    ParseFields(Format(s), s);
  }

  lemma LayoutFacts(s: Snapshot)
    ensures Separated(Layout(s)) && Shape(Layout(s)) == DisplaySlots && Values(Layout(s)) == Fields(s)
  {
    LayoutSeparated(s);
    LayoutShape(s);
    LayoutValues(s);
  }

  lemma LayoutSeparated(s: Snapshot)
    ensures Separated(Layout(s))
  {
    LinesWellEnded(s);
    JoinSeparated(CpuLine(s), GpuLine(s), RamLine(s), NetLine(s));
  }

  lemma LayoutShape(s: Snapshot)
    ensures Shape(Layout(s)) == DisplaySlots
  {
    JoinShape(CpuLine(s), GpuLine(s), RamLine(s), NetLine(s));
    LineShapes(s);
  }

  lemma LayoutValues(s: Snapshot)
    ensures Values(Layout(s)) == Fields(s)
  {
    LinesWellEnded(s);
    JoinValues(CpuLine(s), GpuLine(s), RamLine(s), NetLine(s));
    LinesValues(s);
  }

  lemma ParseFields(text: string, s: Snapshot)
    requires Parse(DisplaySlots, text) == Some(Fields(s))
    ensures ParseDisplay(text) == Some(s)
  {
  }

  /** Printable ASCII: no control characters (so no line break) and one UTF-8 byte per character. */
  predicate Printable(t: string) {
    forall k :: 0 <= k < |t| ==> 0x20 <= t[k] as int < 0x7F
  }

  /*
    `CpuText` … `NetText` are the script's f-strings written out directly as
    text. They are the second, independent form of each line that
    `FormatLines` compares the piece lists `CpuLine` … `NetLine` against.
  */

  function CpuText(s: Snapshot): string {
    "CPU:" + PadLeft(IntStr(s.cpuUsage), 3) + "%  TEMP:" + IntStr(s.cpuTemp) + " C"
  }

  function GpuText(s: Snapshot): string {
    "GPU:" + PadLeft(IntStr(s.gpuUsage), 3) + "%  TEMP:" + IntStr(s.gpuTemp) + " C"
  }

  function RamText(s: Snapshot): string {
    "RAM:" + IntStr(s.ramUsed) + " GB  AVL:" + IntStr(s.ramAvail) + " GB"
  }

  function NetText(s: Snapshot): string {
    "TX:" + IntStr(s.tx) + "KB/s  RX:" + IntStr(s.rx) + "KB/s"
  }

  // `RenderCons`, `Assoc5`, `Line5`, `RenderLine5`, `Line5Display` and
  // `JoinLines` are proof steps only: they regroup concatenations so that
  // each rendering fact is proved once, generically, rather than on literals.

  lemma RenderCons(p: Piece, ps: seq<Piece>)
    ensures Render([p] + ps) == RenderPiece(p) + Render(ps)
  {
    assert ([p] + ps)[1..] == ps;
  }

  lemma Assoc5(a: string, x: string, b: string, y: string, c: string)
    ensures a + (x + (b + (y + c))) == a + x + b + y + c
  {
  }

  /** A five-piece line, built one piece at a time. */
  function Line5(a: string, p: Piece, b: string, q: Piece, c: string): seq<Piece> {
    [Text(a)] + ([p] + ([Text(b)] + ([q] + [Text(c)])))
  }

  lemma RenderLine5(a: string, p: Piece, b: string, q: Piece, c: string)
    ensures Render(Line5(a, p, b, q, c)) == a + (RenderPiece(p) + (b + (RenderPiece(q) + c)))
  {
    RenderCons(Text(c), []);
    RenderCons(q, [Text(c)]);
    RenderCons(Text(b), [q] + [Text(c)]);
    RenderCons(p, [Text(b)] + ([q] + [Text(c)]));
    RenderCons(Text(a), [p] + ([Text(b)] + ([q] + [Text(c)])));
  }

  lemma Line5Display(a: string, p: Piece, b: string, q: Piece, c: string)
    ensures Line5(a, p, b, q, c) == [Text(a), p, Text(b), q, Text(c)]
  {
  }

  lemma RenderLine(a: string, p: Piece, b: string, q: Piece, c: string)
    ensures Render([Text(a), p, Text(b), q, Text(c)])
      == a + RenderPiece(p) + b + RenderPiece(q) + c
  {
    RenderLine5(a, p, b, q, c);
    Line5Display(a, p, b, q, c);
    Assoc5(a, RenderPiece(p), b, RenderPiece(q), c);
  }

  lemma PrintableField(n: int, w: nat)
    ensures Printable(IntStr(n)) && Printable(PadLeft(IntStr(n), w))
  {
  }

  lemma PrintableJoin(a: string, b: string)
    requires Printable(a) && Printable(b)
    ensures Printable(a + b)
  {
  }

  /** A line of literal text around two numeric fields is printable. */
  lemma PrintableLine(a: string, x: string, b: string, y: string, c: string)
    requires Printable(a) && Printable(x) && Printable(b) && Printable(y) && Printable(c)
    ensures Printable(a + x + b + y + c)
  {
    PrintableJoin(a, x);
    PrintableJoin(a + x, b);
    PrintableJoin(a + x + b, y);
    PrintableJoin(a + x + b + y, c);
  }

  lemma RenderLines(s: Snapshot)
    ensures Render(CpuLine(s)) == CpuText(s)
    ensures Render(GpuLine(s)) == GpuText(s)
    ensures Render(RamLine(s)) == RamText(s)
    ensures Render(NetLine(s)) == NetText(s)
  {
    RenderLine("CPU:", Percent(s.cpuUsage), "%  TEMP:", Number(s.cpuTemp), " C");
    RenderLine("GPU:", Percent(s.gpuUsage), "%  TEMP:", Number(s.gpuTemp), " C");
    RenderLine("RAM:", Number(s.ramUsed), " GB  AVL:", Number(s.ramAvail), " GB");
    RenderLine("TX:", Number(s.tx), "KB/s  RX:", Number(s.rx), "KB/s");
  }

  lemma LiteralsPrintable()
    ensures Printable("CPU:") && Printable("GPU:") && Printable("%  TEMP:") && Printable(" C")
    ensures Printable("RAM:") && Printable(" GB  AVL:") && Printable(" GB")
    ensures Printable("TX:") && Printable("KB/s  RX:") && Printable("KB/s")
  {
  }

  lemma CpuPrintable(s: Snapshot)
    ensures Printable(CpuText(s))
  {
    PrintableField(s.cpuUsage, 3);
    PrintableField(s.cpuTemp, 3);
    LiteralsPrintable();
    PrintableLine("CPU:", PadLeft(IntStr(s.cpuUsage), 3), "%  TEMP:", IntStr(s.cpuTemp), " C");
  }

  lemma GpuPrintable(s: Snapshot)
    ensures Printable(GpuText(s))
  {
    PrintableField(s.gpuUsage, 3);
    PrintableField(s.gpuTemp, 3);
    LiteralsPrintable();
    PrintableLine("GPU:", PadLeft(IntStr(s.gpuUsage), 3), "%  TEMP:", IntStr(s.gpuTemp), " C");
  }

  lemma RamPrintable(s: Snapshot)
    ensures Printable(RamText(s))
  {
    PrintableField(s.ramUsed, 3);
    PrintableField(s.ramAvail, 3);
    LiteralsPrintable();
    PrintableLine("RAM:", IntStr(s.ramUsed), " GB  AVL:", IntStr(s.ramAvail), " GB");
  }

  lemma NetPrintable(s: Snapshot)
    ensures Printable(NetText(s))
  {
    PrintableField(s.tx, 3);
    PrintableField(s.rx, 3);
    LiteralsPrintable();
    PrintableLine("TX:", IntStr(s.tx), "KB/s  RX:", IntStr(s.rx), "KB/s");
  }

  /**
    The block is exactly four lines of printable ASCII separated by three
    line breaks, the last line without one: `CPU:` with the usage right-aligned
    in three columns and the temperature, `GPU:` likewise, `RAM:` used and
    available gibibytes, and `TX:`/`RX:` throughput.
  */
  lemma FormatLines(s: Snapshot)
    ensures Format(s) == CpuText(s) + "\n" + GpuText(s) + "\n" + RamText(s) + "\n" + NetText(s)
    ensures Printable(CpuText(s)) && Printable(GpuText(s)) && Printable(RamText(s)) && Printable(NetText(s))
  {
    CpuPrintable(s);
    GpuPrintable(s);
    RamPrintable(s);
    NetPrintable(s);
    RenderLines(s);
    LinesWellEnded(s);
    JoinRender(CpuLine(s), GpuLine(s), RamLine(s), NetLine(s));
  }

  lemma AsciiJoin(a: string, b: string)
    requires IsAscii(a) && IsAscii(b)
    ensures IsAscii(a + b)
  {
  }

  lemma PrintableAscii(t: string)
    requires Printable(t)
    ensures IsAscii(t)
  {
  }

  /** The block with its final line break is ASCII, so UTF-8 encodes it one byte per character. */
  lemma PayloadTextAscii(s: Snapshot)
    ensures IsAscii(Format(s) + "\n")
  {
    FormatLines(s);
    PrintableLinesAscii(Format(s), CpuText(s), GpuText(s), RamText(s), NetText(s));
  }

  lemma PrintableLinesAscii(text: string, a: string, b: string, c: string, d: string)
    requires text == a + "\n" + b + "\n" + c + "\n" + d
    requires Printable(a) && Printable(b) && Printable(c) && Printable(d)
    ensures IsAscii(text + "\n")
  {
    PrintableAscii(a);
    PrintableAscii(b);
    PrintableAscii(c);
    PrintableAscii(d);
    var nl := "\n";
    assert IsAscii(nl);
    AsciiJoin(a, nl);
    AsciiJoin(a + nl, b);
    AsciiJoin(a + nl + b, nl);
    AsciiJoin(a + nl + b + nl, c);
    AsciiJoin(a + nl + b + nl + c, nl);
    AsciiJoin(a + nl + b + nl + c + nl, d);
    AsciiJoin(a + nl + b + nl + c + nl + d, nl);
  }

  lemma CpuLineExample()
    ensures CpuText(Snapshot(42, 0, 97, 0, 0, 0, 0, 0)) == "CPU: 42%  TEMP:0 C"
  {
    assert NatStr(42) == "42";
    assert PadLeft("42", 3) == " 42";
    assert "CPU:" + " 42" + "%  TEMP:" + "0" + " C" == "CPU: 42%  TEMP:0 C";
  }

  /** Formatting is injective: different snapshots give different blocks. */
  lemma FormatInjective(s: Snapshot, s': Snapshot)
    requires s != s'
    ensures Format(s) != Format(s')
  {
    ParseFormat(s);
    ParseFormat(s');
  }
}
