/**
 * A small terminal: the character-by-character interpreter of exactly the sequences the
 * snapshot printer emits (ECMA-48 sections 8.3.21 CUP, 8.3.39 ED, 8.3.117 SGR; the private
 * mode 1049 and the title string).
 */
module Terminal {
  import opened Common
  import opened Decimal
  import opened Sgr

  /** Columns a character takes: 0 for a combining mark, 2 for a wide one. */
  type Width = char -> nat

  datatype Shape = Narrow | Wide | Spacer | LeadingSpacer

  datatype Glyph = Glyph(shape: Shape, c: char, marks: string, attrs: Attrs)

  const BLANK := Glyph(Narrow, ' ', "", DEFAULT_ATTRS)

  /** The parser: where in a control sequence or string the input stands. */
  datatype Mode =
    | Ground
    | Escape
    | Csi(private: bool, params: seq<Param>, subs: seq<nat>, number: Option<nat>)
    | Osc(text: string)
    | OscEscape(text: string)

  datatype Screen = Screen(
    alt: bool, title: string, rows: nat, cols: nat, cells: seq<seq<Glyph>>,
    row: nat, col: nat, wrapPending: bool, pen: Attrs, mode: Mode)

  ghost predicate WellFormed(t: Screen) {
    && t.row < t.rows && t.col < t.cols && |t.cells| == t.rows
    && (forall r :: 0 <= r < t.rows ==> |t.cells[r]| == t.cols)
  }

  function BlankRow(cols: nat): (row: seq<Glyph>)
    ensures |row| == cols && forall k :: 0 <= k < cols ==> row[k] == BLANK
  {
    seq(cols, _ => BLANK)
  }

  function BlankCells(rows: nat, cols: nat): (cells: seq<seq<Glyph>>)
    ensures |cells| == rows && forall r :: 0 <= r < rows ==> cells[r] == BlankRow(cols)
  {
    seq(rows, _ => BlankRow(cols))
  }

  function Fresh(rows: nat, cols: nat): Screen {
    Screen(false, "", rows, cols, BlankCells(rows, cols), 0, 0, false, DEFAULT_ATTRS, Ground)
  }

  // ------------------------------------------------------------------- printing

  ghost function Put(t: Screen, row: nat, col: nat, glyph: Glyph): (r: Screen)
    requires WellFormed(t) && row < t.rows && col < t.cols
    ensures WellFormed(r)
  {
    t.(cells := t.cells[row := t.cells[row][col := glyph]])
  }

  ghost function Advance(t: Screen, count: nat): (r: Screen)
    requires WellFormed(t)
    ensures WellFormed(r)
  {
    if t.col + count < t.cols then t.(col := t.col + count) else t.(col := t.cols - 1, wrapPending := true)
  }

  /** To the start of the next line, scrolling at the bottom. */
  ghost function NextLine(t: Screen): (r: Screen)
    requires WellFormed(t)
    ensures WellFormed(r) && r.col == 0
  {
    if t.row + 1 < t.rows then t.(row := t.row + 1, col := 0, wrapPending := false)
    else t.(cells := t.cells[1..] + [BlankRow(t.cols)], col := 0, wrapPending := false)
  }

  /** The column of the character that a combining mark joins. */
  ghost function MarkColumn(t: Screen): Option<nat>
    requires WellFormed(t)
  {
    if !t.wrapPending && t.col == 0 then None
    else
      var last := if t.wrapPending then t.col else t.col - 1;
      if t.cells[t.row][last].shape.Spacer? && last > 0 then Some(last - 1) else Some(last)
  }

  ghost function PrintMark(t: Screen, c: char): (r: Screen)
    requires WellFormed(t)
    ensures WellFormed(r)
  {
    match MarkColumn(t)
    case None => t
    case Some(col) =>
      var base := t.cells[t.row][col];
      Put(t, t.row, col, base.(marks := base.marks + [c]))
  }

  ghost function PrintWide(t: Screen, c: char): (r: Screen)
    requires WellFormed(t) && t.col + 1 < t.cols
    ensures WellFormed(r)
  {
    var main := Put(t, t.row, t.col, Glyph(Wide, c, "", t.pen));
    Advance(Put(main, t.row, t.col + 1, Glyph(Spacer, ' ', "", t.pen)), 2)
  }

  ghost function Print(width: Width, t: Screen, c: char): (r: Screen)
    requires WellFormed(t)
    ensures WellFormed(r)
  {
    if width(c) == 0 then PrintMark(t, c)
    else
      var at := if t.wrapPending then NextLine(t) else t;
      if width(c) == 1 then Advance(Put(at, at.row, at.col, Glyph(Narrow, c, "", at.pen)), 1)
      else if at.col + 1 < at.cols then PrintWide(at, c)
      else if at.cols < 2 then at
      else PrintWide(NextLine(Put(at, at.row, at.col, Glyph(LeadingSpacer, ' ', "", at.pen))), c)
  }

  // ---------------------------------------------------------- control sequences

  function NumberOr0(number: Option<nat>): nat {
    if number.Some? then number.value else 0
  }

  /** The parameter list once the final character has arrived. */
  function Finish(mode: Mode): seq<Param>
    requires mode.Csi?
  {
    mode.params + [mode.subs + [NumberOr0(mode.number)]]
  }

  /** A one-based cursor parameter, clamped to the screen; absent or 0 means 1. */
  function Coordinate(params: seq<Param>, index: nat, limit: nat): (at: nat)
    requires limit > 0
    ensures at < limit
  {
    var value := if index < |params| && params[index][0] > 0 then params[index][0] else 1;
    Min(value, limit) - 1
  }

  ghost function Dispatch(t: Screen, private: bool, params: seq<Param>, final: char): (r: Screen)
    requires WellFormed(t) && params != []
    ensures WellFormed(r) && r.mode == Ground
  {
    var done := t.(mode := Ground);
    if private then
      if params[0] == [1049] && final == 'h' && !t.alt then
        done.(alt := true, cells := BlankCells(t.rows, t.cols))
      else if params[0] == [1049] && final == 'l' then done.(alt := false)
      else done
    else if final == 'm' then done.(pen := ApplySgr(t.pen, params))
    else if final == 'H' then
      done.(row := Coordinate(params, 0, t.rows), col := Coordinate(params, 1, t.cols), wrapPending := false)
    else if final == 'J' && params[0] == [2] then
      done.(cells := BlankCells(t.rows, t.cols))
    else done
  }

  predicate IsParamChar(c: char) {
    IsDigit(c) || c == ':' || c == ';' || c == '?'
  }

  /** A parameter character inside a control sequence. */
  function Absorb(mode: Mode, c: char): (r: Mode)
    requires mode.Csi? && IsParamChar(c)
    ensures r.Csi?
  {
    if IsDigit(c) then mode.(number := Some(10 * NumberOr0(mode.number) + DigitValue(c)))
    else if c == ':' then mode.(subs := mode.subs + [NumberOr0(mode.number)], number := None)
    else if c == ';' then mode.(params := Finish(mode), subs := [], number := None)
    else mode.(private := true)
  }

  ghost function EndTitle(t: Screen, text: string): (r: Screen)
    requires WellFormed(t)
    ensures WellFormed(r)
  {
    if "0;" <= text then t.(title := text[2..], mode := Ground) else t.(mode := Ground)
  }

  /** One character of input. */
  ghost function Step(width: Width, t: Screen, c: char): (r: Screen)
    requires WellFormed(t)
    ensures WellFormed(r)
  {
    match t.mode
    case Ground => if c == '\U{1b}' then t.(mode := Escape) else if IsControl(c) then t else Print(width, t, c)
    case Escape =>
      if c == '[' then t.(mode := Csi(false, [], [], None))
      else if c == ']' then t.(mode := Osc(""))
      else t.(mode := Ground)
    case Csi(private, _, _, _) =>
      if IsParamChar(c) then t.(mode := Absorb(t.mode, c)) else Dispatch(t, private, Finish(t.mode), c)
    case Osc(text) =>
      if c == '\U{1b}' then t.(mode := OscEscape(text))
      else if c == '\U{07}' then EndTitle(t, text)
      else if IsControl(c) then t
      else t.(mode := Osc(text + [c]))
    case OscEscape(text) => if c == '\\' then EndTitle(t, text) else t.(mode := Ground)
  }

  ghost function Run(width: Width, t: Screen, s: string): (r: Screen)
    requires WellFormed(t)
    ensures WellFormed(r)
  {
    if s == "" then t else Step(width, Run(width, t, s[..|s| - 1]), s[|s| - 1])
  }

  lemma {:induction false} RunConcat(width: Width, t: Screen, a: string, b: string)
    requires WellFormed(t)
    ensures Run(width, t, a + b) == Run(width, Run(width, t, a), b)
  {
    if b == "" {
      assert a + b == a;
    } else {
      RunConcat(width, t, a, b[..|b| - 1]);
      assert (a + b)[..|a + b| - 1] == a + b[..|b| - 1];
    }
  }

  lemma RunChar(width: Width, t: Screen, c: char)
    requires WellFormed(t)
    ensures Run(width, t, [c]) == Step(width, t, c)
  {
    assert [c][..0] == "";
  }

  // --------------------------------------------- reading back what was printed

  ghost predicate ParamChars(s: string) {
    forall i :: 0 <= i < |s| ==> IsParamChar(s[i])
  }

  ghost function AbsorbAll(mode: Mode, s: string): (r: Mode)
    requires mode.Csi? && ParamChars(s)
    ensures r.Csi?
  {
    if s == "" then mode else Absorb(AbsorbAll(mode, s[..|s| - 1]), s[|s| - 1])
  }

  lemma {:induction false} AbsorbConcat(mode: Mode, a: string, b: string)
    requires mode.Csi? && ParamChars(a) && ParamChars(b)
    ensures AbsorbAll(mode, a + b) == AbsorbAll(AbsorbAll(mode, a), b)
  {
    if b == "" {
      assert a + b == a;
    } else {
      AbsorbConcat(mode, a, b[..|b| - 1]);
      assert (a + b)[..|a + b| - 1] == a + b[..|b| - 1];
    }
  }

  lemma AbsorbChar(mode: Mode, c: char)
    requires mode.Csi? && IsParamChar(c)
    ensures AbsorbAll(mode, [c]) == Absorb(mode, c)
  {
    assert [c][..0] == "";
  }

  /** Inside a control sequence the screen waits while the parser reads parameters. */
  lemma {:induction false} RunAbsorbs(width: Width, t: Screen, s: string)
    requires WellFormed(t) && t.mode.Csi? && ParamChars(s)
    ensures Run(width, t, s) == t.(mode := AbsorbAll(t.mode, s))
  {
    if s != "" {
      RunAbsorbs(width, t, s[..|s| - 1]);
    }
  }

  /** A number's decimal text is read as that number. */
  lemma {:induction false} ReadNumber(mode: Mode, n: nat)
    requires mode.Csi? && mode.number.None?
    ensures ParamChars(Text(n)) && AbsorbAll(mode, Text(n)) == mode.(number := Some(n))
  {
    if n < 10 {
      AbsorbChar(mode, Digit(n));
    } else {
      ReadNumber(mode, n / 10);
      AbsorbConcat(mode, Text(n / 10), [Digit(n % 10)]);
      AbsorbChar(mode.(number := Some(n / 10)), Digit(n % 10));
    }
  }

  lemma {:induction false} ReadParam(mode: Mode, param: Param)
    requires mode.Csi? && mode.number.None? && mode.subs == []
    ensures ParamChars(ParamText(param))
    ensures AbsorbAll(mode, ParamText(param))
         == mode.(subs := param[..|param| - 1], number := Some(param[|param| - 1]))
    decreases |param|
  {
    var init, last := param[..|param| - 1], param[|param| - 1];
    if |param| == 1 {
      ReadNumber(mode, last);
    } else {
      ReadParam(mode, init);
      assert init[..|init| - 1] + [init[|init| - 1]] == init;
      AbsorbConcat(mode, ParamText(init), ":");
      AbsorbChar(AbsorbAll(mode, ParamText(init)), ':');
      var next := mode.(subs := init, number := None);
      ReadNumber(next, last);
      AbsorbConcat(mode, ParamText(init) + ":", Text(last));
    }
  }

  lemma FinishParam(mode: Mode, param: Param)
    requires mode.Csi? && mode.number.None? && mode.subs == []
    ensures ParamChars(ParamText(param))
    ensures
      var r := AbsorbAll(mode, ParamText(param));
      r.private == mode.private && Finish(r) == mode.params + [param]
  {
    ReadParam(mode, param);
    assert param[..|param| - 1] + [param[|param| - 1]] == param;
  }

  lemma AbsorbSeparator(mode: Mode, text: string)
    requires mode.Csi? && ParamChars(text)
    ensures
      var r := AbsorbAll(mode, text);
      AbsorbAll(mode, text + ";") == Csi(r.private, Finish(r), [], None)
  {
    AbsorbConcat(mode, text, ";");
    AbsorbChar(AbsorbAll(mode, text), ';');
  }

  lemma ReadOneMore(mode: Mode, text: string, params: seq<Param>, param: Param)
    requires mode.Csi? && ParamChars(text)
    requires AbsorbAll(mode, text).private == mode.private && Finish(AbsorbAll(mode, text)) == params
    ensures ParamChars(text + ";" + ParamText(param))
    ensures
      var r := AbsorbAll(mode, text + ";" + ParamText(param));
      r.private == mode.private && Finish(r) == params + [param]
  {
    AbsorbSeparator(mode, text);
    FinishParam(Csi(mode.private, params, [], None), param);
    AbsorbConcat(mode, text + ";", ParamText(param));
  }

  /** A whole parameter list is read back as that list. */
  lemma {:induction false} ReadParams(mode: Mode, params: seq<Param>)
    requires mode.Csi? && mode.params == [] && mode.subs == [] && mode.number.None? && params != []
    ensures ParamChars(ParamsText(params))
    ensures
      var r := AbsorbAll(mode, ParamsText(params));
      r.private == mode.private && Finish(r) == params
    decreases |params|
  {
    var init, last := params[..|params| - 1], params[|params| - 1];
    if |params| == 1 {
      FinishParam(mode, last);
      assert [] + [last] == params;
    } else {
      ReadParams(mode, init);
      ReadOneMore(mode, ParamsText(init), init, last);
      assert init + [last] == params;
    }
  }

  lemma RunTwo(width: Width, t: Screen, a: char, b: char)
    requires WellFormed(t)
    ensures Run(width, t, [a, b]) == Step(width, Step(width, t, a), b)
  {
    assert [a, b][..1] == [a];
    RunChar(width, t, a);
  }

  lemma RunIntroducer(width: Width, t: Screen, private: bool)
    requires WellFormed(t) && t.mode == Ground
    ensures Run(width, t, "\U{1b}[" + if private then "?" else "") == t.(mode := Csi(private, [], [], None))
  {
    RunTwo(width, t, '\U{1b}', '[');
    var intro := t.(mode := Csi(false, [], [], None));
    RunConcat(width, t, "\U{1b}[", if private then "?" else "");
    if private {
      RunChar(width, intro, '?');
    }
  }

  /** Two stretches of input, one after the other. */
  lemma RunThen(width: Width, t: Screen, a: string, u: Screen, b: string)
    requires WellFormed(t) && Run(width, t, a) == u
    ensures WellFormed(u) && Run(width, t, a + b) == Run(width, u, b)
  {
    RunConcat(width, t, a, b);
  }

  /** The final character acts on the screen as it was before the sequence began. */
  lemma RunFinal(width: Width, t: Screen, mode: Mode, final: char)
    requires WellFormed(t) && mode.Csi? && !IsParamChar(final)
    ensures Run(width, t.(mode := mode), [final]) == Dispatch(t, mode.private, Finish(mode), final)
  {
    RunChar(width, t.(mode := mode), final);
  }

  /** A printed control sequence has exactly the effect of its parameters. */
  lemma RunCsi(width: Width, t: Screen, private: bool, params: seq<Param>, final: char)
    requires WellFormed(t) && t.mode == Ground && params != [] && !IsParamChar(final)
    ensures Run(width, t, CsiText(private, params, final)) == Dispatch(t, private, params, final)
  {
    var intro, body := "\U{1b}[" + (if private then "?" else ""), ParamsText(params);
    var start := Csi(private, [], [], None);
    RunIntroducer(width, t, private);
    ReadParams(start, params);
    RunAbsorbs(width, t.(mode := start), body);
    RunThen(width, t, intro, t.(mode := start), body);
    RunThen(width, t, intro + body, t.(mode := AbsorbAll(start, body)), [final]);
    RunFinal(width, t, AbsorbAll(start, body), final);
  }

  /** `CSI H` without parameters homes the cursor. */
  lemma RunHome(width: Width, t: Screen)
    requires WellFormed(t) && t.mode == Ground
    ensures Run(width, t, "\U{1b}[H") == t.(row := 0, col := 0, wrapPending := false)
  {
    RunTwo(width, t, '\U{1b}', '[');
    assert "\U{1b}[" + "H" == "\U{1b}[H";
    RunConcat(width, t, "\U{1b}[", "H");
    var intro := t.(mode := Csi(false, [], [], None));
    RunChar(width, intro, 'H');
    assert Finish(intro.mode)[0] == [0];
  }

  lemma {:induction false} RunTitleText(width: Width, t: Screen, text: string)
    requires WellFormed(t) && t.mode.Osc? && forall i :: 0 <= i < |text| ==> !IsControl(text[i])
    ensures Run(width, t, text) == t.(mode := Osc(t.mode.text + text))
  {
    if text == "" {
      assert t.mode.text + text == t.mode.text;
    } else {
      var init := text[..|text| - 1];
      RunTitleText(width, t, init);
      var u := t.(mode := Osc(t.mode.text + init));
      assert Run(width, t, text) == Step(width, u, text[|text| - 1]);
      TitleChar(width, u, text[|text| - 1]);
      assert t.mode.text + init + [text[|text| - 1]] == t.mode.text + text;
    }
  }

  lemma TitleChar(width: Width, t: Screen, c: char)
    requires WellFormed(t) && t.mode.Osc? && !IsControl(c)
    ensures Step(width, t, c) == t.(mode := Osc(t.mode.text + [c]))
  {
  }

  lemma RunTitleEnd(width: Width, t: Screen, title: string)
    requires WellFormed(t)
    ensures Run(width, t.(mode := Osc("0;" + title)), "\U{1b}\\") == t.(title := title, mode := Ground)
  {
    var text := "0;" + title;
    RunTwo(width, t.(mode := Osc(text)), '\U{1b}', '\\');
    assert text[2..] == title;
  }

  /** The title string sets the title. */
  lemma RunTitle(width: Width, t: Screen, title: string)
    requires WellFormed(t) && t.mode == Ground && forall i :: 0 <= i < |title| ==> !IsControl(title[i])
    ensures Run(width, t, "\U{1b}]" + ("0;" + title) + "\U{1b}\\") == t.(title := title)
  {
    var text, start := "0;" + title, t.(mode := Osc(""));
    RunTwo(width, t, '\U{1b}', ']');
    RunTitleText(width, start, text);
    assert "" + text == text;
    RunThen(width, t, "\U{1b}]", start, text);
    RunTitleEnd(width, t, title);
    RunThen(width, t, "\U{1b}]" + text, t.(mode := Osc(text)), "\U{1b}\\");
  }
}
