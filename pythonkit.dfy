/** The matplotlib bridge of the Gray-Scott playground: the raw-valued colour, line and
    marker enums, the format strings `lineStyle` builds from them, and the argument guards
    and call sequence of the `plot` overloads. The pyplot calls themselves are foreign; each
    `plot` is modelled by the list of calls it makes, in order. */
module PythonKitSupport {
  import opened Wrappers

  // ---------------------------------------------------------------- raw-valued enums

  /** `MPLColor`: the raw value is the case name, except black, which is "k". */
  datatype MPLColor = Blue | Green | Red | Cyan | Magenta | Yellow | Black | White
  {
    function RawValue(): string
    {
      match this
      case Blue => "blue"
      case Green => "green"
      case Red => "red"
      case Cyan => "cyan"
      case Magenta => "magenta"
      case Yellow => "yellow"
      case Black => "k"
      case White => "white"
    }
  }

  /** `MPLLine`; `NoLine` is the case `none`, whose raw value is empty. */
  datatype MPLLine = NoLine | Solid | Dashed | DashDot | Dotted
  {
    function RawValue(): string
    {
      match this
      case NoLine => ""
      case Solid => "-"
      case Dashed => "--"
      case DashDot => "-."
      case Dotted => ":"
    }
  }

  /** `MPLMarker`; `NoMarker` is the case `none`, whose raw value is empty. Every other
      raw value is one character. */
  datatype MPLMarker =
    | NoMarker | Point | Pixel | Circle | TriangleDown | TriangleUp | TriangleLeft | TriangleRight
    | TriDown | TriUp | TriLeft | TriRight | Square | Pentagon | Hexagon1 | Hexagon2 | Octogon
    | Star | Plus | PlusFilled | X | XFilled | Diamond | DiamondThin | Vertical | Horizontal
  {
    function RawValue(): string
    {
      match this
      case NoMarker => ""
      case Point => "."
      case Pixel => ","
      case Circle => "o"
      case TriangleDown => "v"
      case TriangleUp => "^"
      case TriangleLeft => "<"
      case TriangleRight => ">"
      case TriDown => "1"
      case TriUp => "2"
      case TriLeft => "3"
      case TriRight => "4"
      case Square => "s"
      case Pentagon => "p"
      case Hexagon1 => "h"
      case Hexagon2 => "H"
      case Octogon => "8"
      case Star => "*"
      case Plus => "+"
      case PlusFilled => "P"
      case X => "x"
      case XFilled => "X"
      case Diamond => "D"
      case DiamondThin => "d"
      case Vertical => "|"
      case Horizontal => "_"
    }
  }

  /** The marker whose raw value is the one character c, if any. */
  function MarkerOf(c: char): (r: Option<MPLMarker>)
    ensures r.Some? ==> r.value.RawValue() == [c]
  {
    match c
    case '.' => Some(Point)
    case ',' => Some(Pixel)
    case 'o' => Some(Circle)
    case 'v' => Some(TriangleDown)
    case '^' => Some(TriangleUp)
    case '<' => Some(TriangleLeft)
    case '>' => Some(TriangleRight)
    case '1' => Some(TriDown)
    case '2' => Some(TriUp)
    case '3' => Some(TriLeft)
    case '4' => Some(TriRight)
    case 's' => Some(Square)
    case 'p' => Some(Pentagon)
    case 'h' => Some(Hexagon1)
    case 'H' => Some(Hexagon2)
    case '8' => Some(Octogon)
    case '*' => Some(Star)
    case '+' => Some(Plus)
    case 'P' => Some(PlusFilled)
    case 'x' => Some(X)
    case 'X' => Some(XFilled)
    case 'D' => Some(Diamond)
    case 'd' => Some(DiamondThin)
    case '|' => Some(Vertical)
    case '_' => Some(Horizontal)
    case _ => None
  }

  /** The line whose raw value is s, if any (`MPLLine(rawValue:)`). */
  function LineOf(s: string): (r: Option<MPLLine>)
    ensures r.Some? ==> r.value.RawValue() == s
  {
    if s == "" then Some(NoLine)
    else if s == "-" then Some(Solid)
    else if s == "--" then Some(Dashed)
    else if s == "-." then Some(DashDot)
    else if s == ":" then Some(Dotted)
    else None
  }

  /** Every marker but `none` is read back from its character, and no line's raw value
      starts with a marker character. */
  lemma RawValuesRoundTrip(l: MPLLine, m: MPLMarker)
    ensures m != NoMarker ==> |m.RawValue()| == 1 && MarkerOf(m.RawValue()[0]) == Some(m)
    ensures LineOf(l.RawValue()) == Some(l)
    ensures l != NoLine ==> MarkerOf(l.RawValue()[0]).None?
  {
    MarkerRoundTrip(m);
    if l != NoLine {
      assert l.RawValue()[0] in "-:";
    }
  }

  /** A marker other than `none` is one character, and that character reads back as it. */
  lemma MarkerRoundTrip(m: MPLMarker)
    ensures m != NoMarker ==> |m.RawValue()| == 1 && MarkerOf(m.RawValue()[0]) == Some(m)
  {
  }

  // ---------------------------------------------------------------- format strings

  /** `lineStyle(line:marker:)`, AS WRITTEN: the line's raw value, then the marker's. */
  function LineStyle(line: MPLLine, marker: MPLMarker): (r: string)
    ensures |r| == |line.RawValue()| + |marker.RawValue()|
    ensures r[..|line.RawValue()|] == line.RawValue() && r[|line.RawValue()|..] == marker.RawValue()
  {
    line.RawValue() + marker.RawValue()
  }

  /** The first character of a colour's raw value, the `first!` that every case survives. */
  function ColorLetter(color: MPLColor): (c: char)
    ensures |color.RawValue()| > 0 && c == color.RawValue()[0]
  {
    color.RawValue()[0]
  }

  /** The colour letters are the eight matplotlib colour codes, one per colour. */
  lemma ColorLettersDistinct(a: MPLColor, b: MPLColor)
    ensures ColorLetter(a) == ColorLetter(b) ==> a == b
    ensures ColorLetter(a) in "bgrcmykw"
  {
  }

  /** `lineStyle(line:marker:color:)`, AS WRITTEN: the colour letter, then the line, then the
      marker. */
  function LineStyleColored(line: MPLLine, marker: MPLMarker, color: MPLColor): (r: string)
    ensures |r| == 1 + |line.RawValue()| + |marker.RawValue()|
    ensures r[0] == ColorLetter(color) && r[1..] == LineStyle(line, marker)
  {
    [ColorLetter(color)] + line.RawValue() + marker.RawValue()
  }

  /** Line first, marker second makes two different requests one string: a solid line with
      point markers and a dash-dot line without markers are both "-.", which matplotlib
      reads as the dash-dot line style; with a colour the same holds after the letter. */
  lemma LineStyleCollision(color: MPLColor)
    ensures (Solid, Point) != (DashDot, NoMarker)
    ensures LineStyle(Solid, Point) == LineStyle(DashDot, NoMarker) == "-."
    ensures LineStyleColored(Solid, Point, color) == LineStyleColored(DashDot, NoMarker, color)
  {
    assert LineStyle(Solid, Point) == "-" + ".";
    assert LineStyleColored(Solid, Point, color)[1..] == LineStyleColored(DashDot, NoMarker, color)[1..];
  }

  /** The corrected `lineStyle(line:marker:)`: the marker's one character before the line,
      so the string names one (line, marker) pair. */
  function LineStyleFixed(line: MPLLine, marker: MPLMarker): (r: string)
    ensures ParseStyle(r) == Some((line, marker))
  {
    RawValuesRoundTrip(line, marker);
    var r := marker.RawValue() + line.RawValue();
    assert marker != NoMarker ==> r[0] == marker.RawValue()[0] && r[1..] == line.RawValue();
    r
  }

  /** The corrected `lineStyle(line:marker:color:)`: the colour letter, then the corrected
      style. */
  function LineStyleColoredFixed(line: MPLLine, marker: MPLMarker, color: MPLColor): (r: string)
    ensures |r| > 0 && r[0] == ColorLetter(color) && ParseStyle(r[1..]) == Some((line, marker))
  {
    var r := [ColorLetter(color)] + LineStyleFixed(line, marker);
    assert r[1..] == LineStyleFixed(line, marker);
    r
  }

  /** Reads a corrected format string back: an optional marker character, then a line raw
      value. */
  function ParseStyle(s: string): (r: Option<(MPLLine, MPLMarker)>)
    ensures r.Some? ==> s == r.value.1.RawValue() + r.value.0.RawValue()
  {
    if |s| > 0 && MarkerOf(s[0]).Some? then
      match LineOf(s[1..])
      case Some(l) => Some((l, MarkerOf(s[0]).value))
      case None => None
    else
      match LineOf(s)
      case Some(l) => Some((l, NoMarker))
      case None => None
  }

  /** Distinct requests give distinct corrected strings, with or without a colour. */
  lemma LineStyleFixedInjective(l1: MPLLine, m1: MPLMarker, c1: MPLColor, l2: MPLLine, m2: MPLMarker, c2: MPLColor)
    ensures LineStyleFixed(l1, m1) == LineStyleFixed(l2, m2) ==> l1 == l2 && m1 == m2
    ensures LineStyleColoredFixed(l1, m1, c1) == LineStyleColoredFixed(l2, m2, c2) ==> l1 == l2 && m1 == m2 && c1 == c2
  {
    var s1, s2 := LineStyleColoredFixed(l1, m1, c1), LineStyleColoredFixed(l2, m2, c2);
    if s1 == s2 {
      ColorLettersDistinct(c1, c2);
      assert s1[1..] == s2[1..];
    }
  }

  // ---------------------------------------------------------------- plot

  /** One pyplot call, with the arguments the playground passes. */
  datatype PlotCall =
    | Title(text: string)
    | XLabel(text: string)
    | YLabel(text: string)
    | Series(x: seq<real>, y: seq<real>, style: Option<string>)
    | Legend(labels: seq<string>)
    | Margins(margin: real)
    | Show

  /** The guards of `plot(xs:ys:)`: both lists non-empty, as many x arrays as y arrays,
      and each pair of one length. */
  predicate Plottable(xs: seq<seq<real>>, ys: seq<seq<real>>)
  {
    |xs| > 0 && |ys| > 0 && |xs| == |ys| && forall i :: 0 <= i < |xs| ==> |xs[i]| == |ys[i]|
  }

  /** The style series i is plotted with: `lineStyles[i]` when there is one. */
  function StyleAt(lineStyles: seq<string>, i: nat): (r: Option<string>)
    ensures r.Some? <==> i < |lineStyles|
    ensures r.Some? ==> r.value == lineStyles[i]
  {
    if i < |lineStyles| then Some(lineStyles[i]) else None
  }

  /** The plot calls for the first n series. */
  function SeriesCalls(xs: seq<seq<real>>, ys: seq<seq<real>>, lineStyles: seq<string>, n: nat): (r: seq<PlotCall>)
    requires n <= |xs| && n <= |ys|
    ensures |r| == n
  {
    if n == 0 then [] else SeriesCalls(xs, ys, lineStyles, n - 1) + [Series(xs[n - 1], ys[n - 1], StyleAt(lineStyles, n - 1))]
  }

  /** Series call i plots pair i with its style. */
  lemma {:induction false} SeriesCallAt(xs: seq<seq<real>>, ys: seq<seq<real>>, lineStyles: seq<string>, n: nat, i: nat)
    requires n <= |xs| && n <= |ys| && i < n
    ensures SeriesCalls(xs, ys, lineStyles, n)[i] == Series(xs[i], ys[i], StyleAt(lineStyles, i))
  {
    if i < n - 1 {
      SeriesCallAt(xs, ys, lineStyles, n - 1, i);
    }
  }

  /** The calls `plot(xs:ys:...)` makes: nothing when a guard fails; otherwise the title and
      axis labels, one plot per pair, the legend when one is given, the margins and the
      (deferred) show. */
  function PlotTrace(xs: seq<seq<real>>, ys: seq<seq<real>>, title: string, xAxisTitle: string, yAxisTitle: string,
                     lineStyles: seq<string>, legend: seq<string>): seq<PlotCall>
  {
    if !Plottable(xs, ys) then []
    else
      [Title(title), XLabel(xAxisTitle), YLabel(yAxisTitle)] + SeriesCalls(xs, ys, lineStyles, |xs|)
      + (if |legend| > 0 then [Legend(legend)] else []) + [Margins(0.1), Show]
  }

  /** The guards decide everything: `plot` calls pyplot exactly when they pass, and then
      it makes one plot call per pair, pair i with `lineStyles[i]` if there is one, and the
      legend call exactly when a legend is given. */
  lemma PlotTraceShape(xs: seq<seq<real>>, ys: seq<seq<real>>, title: string, xAxisTitle: string, yAxisTitle: string,
                       lineStyles: seq<string>, legend: seq<string>)
    ensures var t := PlotTrace(xs, ys, title, xAxisTitle, yAxisTitle, lineStyles, legend);
      && (t == [] <==> !Plottable(xs, ys))
      && (Plottable(xs, ys) ==>
            && |t| == 3 + |xs| + (if |legend| > 0 then 1 else 0) + 2
            && t[..3] == [Title(title), XLabel(xAxisTitle), YLabel(yAxisTitle)]
            && (forall i :: 0 <= i < |xs| ==> t[3 + i] == Series(xs[i], ys[i], StyleAt(lineStyles, i)))
            && t[|t| - 2..] == [Margins(0.1), Show])
      && (Legend(legend) in t <==> Plottable(xs, ys) && |legend| > 0)
  {
    var t := PlotTrace(xs, ys, title, xAxisTitle, yAxisTitle, lineStyles, legend);
    if Plottable(xs, ys) {
      var header := [Title(title), XLabel(xAxisTitle), YLabel(yAxisTitle)];
      var series := SeriesCalls(xs, ys, lineStyles, |xs|);
      var tail := (if |legend| > 0 then [Legend(legend)] else []) + [Margins(0.1), Show];
      assert t == header + series + tail;
      forall i | 0 <= i < |xs|
        ensures t[3 + i] == Series(xs[i], ys[i], StyleAt(lineStyles, i))
      {
        SeriesCallAt(xs, ys, lineStyles, |xs|, i);
      }
      forall j | 0 <= j < |series|
        ensures !series[j].Legend?
      {
        SeriesCallAt(xs, ys, lineStyles, |xs|, j);
      }
      assert Legend(legend) in t <==> Legend(legend) in tail;
    }
  }

  /** `plot(xs:ys:...)`: the guard loop (any mismatched pair returns early), then the series
      loop. */
  method PlotXs(xs: seq<seq<real>>, ys: seq<seq<real>>, title: string, xAxisTitle: string, yAxisTitle: string,
                lineStyles: seq<string>, legend: seq<string>) returns (calls: seq<PlotCall>)
    ensures calls == PlotTrace(xs, ys, title, xAxisTitle, yAxisTitle, lineStyles, legend)
  {
    calls := [];
    if |ys| == 0 || |xs| == 0 {
      return;
    }
    if |xs| != |ys| {
      return;
    }
    for index := 0 to |xs|
      invariant forall i :: 0 <= i < index ==> |xs[i]| == |ys[i]|
    {
      if |xs[index]| != |ys[index]| {
        return;
      }
    }
    var header := [Title(title), XLabel(xAxisTitle), YLabel(yAxisTitle)];
    calls := header;
    for index := 0 to |xs|
      invariant calls == header + SeriesCalls(xs, ys, lineStyles, index)
    {
      if index < |lineStyles| {
        calls := calls + [Series(xs[index], ys[index], Some(lineStyles[index]))];
      } else {
        calls := calls + [Series(xs[index], ys[index], None)];
      }
    }
    if |legend| > 0 {
      calls := calls + [Legend(legend)];
    }
    calls := calls + [Margins(0.1), Show];
  }

  /** n copies of x. */
  function Copies(x: seq<real>, n: nat): (r: seq<seq<real>>)
    ensures |r| == n && forall i :: 0 <= i < n ==> r[i] == x
  {
    seq(n, _ => x)
  }

  /** `plot(x:ys:...)`: its guards differ from `plot(xs:ys:)` in one case only. With a
      non-empty x it makes the calls of `plot(xs:ys:)` with x repeated once per y array;
      with an empty x it plots nothing, even where every y array is empty too. */
  method PlotX(x: seq<real>, ys: seq<seq<real>>, title: string, xAxisTitle: string, yAxisTitle: string,
               lineStyles: seq<string>, legend: seq<string>) returns (calls: seq<PlotCall>)
    ensures calls == if |x| == 0 then [] else PlotTrace(Copies(x, |ys|), ys, title, xAxisTitle, yAxisTitle, lineStyles, legend)
  {
    ghost var xs := Copies(x, |ys|);
    calls := [];
    if |ys| == 0 || |x| == 0 {
      return;
    }
    for index := 0 to |ys|
      invariant forall i :: 0 <= i < index ==> |xs[i]| == |ys[i]|
    {
      if |x| != |ys[index]| {
        return;
      }
    }
    var header := [Title(title), XLabel(xAxisTitle), YLabel(yAxisTitle)];
    calls := header;
    for index := 0 to |ys|
      invariant calls == header + SeriesCalls(xs, ys, lineStyles, index)
    {
      if index < |lineStyles| {
        calls := calls + [Series(x, ys[index], Some(lineStyles[index]))];
      } else {
        calls := calls + [Series(x, ys[index], None)];
      }
    }
    if |legend| > 0 {
      calls := calls + [Legend(legend)];
    }
    calls := calls + [Margins(0.1), Show];
  }

  /** `plot(x:y:...)`, AS WRITTEN: forwards to `plot(xs:ys:)` with one pair, without the
      legend. */
  method PlotXY(x: seq<real>, y: seq<real>, title: string, xAxisTitle: string, yAxisTitle: string,
                lineStyles: seq<string>, legend: seq<string>) returns (calls: seq<PlotCall>)
    ensures calls == PlotTrace([x], [y], title, xAxisTitle, yAxisTitle, lineStyles, [])
  {
    calls := PlotXs([x], [y], title, xAxisTitle, yAxisTitle, lineStyles, []);
  }

  /** The Doubles of the Ints of x (`x.map { Double($0) }`). */
  function ToDoubles(x: seq<int>): (r: seq<real>)
    ensures |r| == |x| && forall i :: 0 <= i < |x| ==> r[i] == x[i] as real
  {
    seq(|x|, i requires 0 <= i < |x| => x[i] as real)
  }

  /** `plot(x:[Int], y:...)`, AS WRITTEN: converts x and forwards without the legend. */
  method PlotIntXY(x: seq<int>, y: seq<real>, title: string, xAxisTitle: string, yAxisTitle: string,
                   lineStyles: seq<string>, legend: seq<string>) returns (calls: seq<PlotCall>)
    ensures calls == PlotTrace([ToDoubles(x)], [y], title, xAxisTitle, yAxisTitle, lineStyles, [])
  {
    var xx := ToDoubles(x);
    calls := PlotXs([xx], [y], title, xAxisTitle, yAxisTitle, lineStyles, []);
  }

  /** The single-pair overloads accept a legend and never show it: for a plottable pair
      and a non-empty legend, no legend call is made. */
  lemma LegendDropped(x: seq<real>, y: seq<real>, title: string, xAxisTitle: string, yAxisTitle: string,
                      lineStyles: seq<string>, legend: seq<string>)
    requires |x| == |y| && |legend| > 0
    ensures Plottable([x], [y])
    ensures forall c :: c in PlotTrace([x], [y], title, xAxisTitle, yAxisTitle, lineStyles, []) ==> !c.Legend?
  {
    var t := PlotTrace([x], [y], title, xAxisTitle, yAxisTitle, lineStyles, []);
    PlotTraceShape([x], [y], title, xAxisTitle, yAxisTitle, lineStyles, []);
    assert t == [Title(title), XLabel(xAxisTitle), YLabel(yAxisTitle), Series(x, y, StyleAt(lineStyles, 0)), Margins(0.1), Show];
  }

  /** The corrected `plot(x:y:...)`: the legend is forwarded. */
  method PlotXYFixed(x: seq<real>, y: seq<real>, title: string, xAxisTitle: string, yAxisTitle: string,
                     lineStyles: seq<string>, legend: seq<string>) returns (calls: seq<PlotCall>)
    ensures calls == PlotTrace([x], [y], title, xAxisTitle, yAxisTitle, lineStyles, legend)
    ensures Legend(legend) in calls <==> |x| == |y| && |legend| > 0
  {
    calls := PlotXs([x], [y], title, xAxisTitle, yAxisTitle, lineStyles, legend);
    PlotTraceShape([x], [y], title, xAxisTitle, yAxisTitle, lineStyles, legend);
    assert [x][0] == x && [y][0] == y;
    assert Plottable([x], [y]) <==> |x| == |y|;
  }

  /** The corrected `plot(x:[Int], y:...)`: the legend is forwarded. */
  method PlotIntXYFixed(x: seq<int>, y: seq<real>, title: string, xAxisTitle: string, yAxisTitle: string,
                        lineStyles: seq<string>, legend: seq<string>) returns (calls: seq<PlotCall>)
    ensures calls == PlotTrace([ToDoubles(x)], [y], title, xAxisTitle, yAxisTitle, lineStyles, legend)
    ensures Legend(legend) in calls <==> |x| == |y| && |legend| > 0
  {
    var xx := ToDoubles(x);
    calls := PlotXs([xx], [y], title, xAxisTitle, yAxisTitle, lineStyles, legend);
    PlotTraceShape([xx], [y], title, xAxisTitle, yAxisTitle, lineStyles, legend);
    assert [xx][0] == xx && [y][0] == y;
    assert Plottable([xx], [y]) <==> |x| == |y|;
  }
}
