/**
 * Select Graphic Rendition: the attributes of a cell, the parameters `push_sgr` prints for
 * them (crates/daemon/src/terminal_model.rs), and what a terminal makes of those parameters
 * (ECMA-48 sections 5.4.2 and 8.3.117; ITU-T T.416 section 13.1.8 for the colour forms).
 */
module Sgr {
  import opened Common
  import opened Decimal

  type U16 = n: int | 0 <= n < 0x1_0000

  /** The emulator's named colours by number: 0-15 the palette, 256 and up the roles. */
  type NamedCode = n: int | 0 <= n < 16 || 256 <= n <= 268

  const FOREGROUND: NamedCode := 256
  const BACKGROUND: NamedCode := 257

  datatype Color = Named(code: NamedCode) | Indexed(index: Byte) | Rgb(r: Byte, g: Byte, b: Byte)

  datatype Flag =
    | Bold | Dim | Italic | Underline | DoubleUnderline | Undercurl | DottedUnderline | DashedUnderline
    | Inverse | Hidden | Strikeout

  predicate IsUnderline(flag: Flag) {
    flag.Underline? || flag.DoubleUnderline? || flag.Undercurl? || flag.DottedUnderline? || flag.DashedUnderline?
  }

  datatype Attrs = Attrs(foreground: Color, background: Color, flags: set<Flag>, underlineColor: Option<Color>)

  const DEFAULT_ATTRS := Attrs(Named(FOREGROUND), Named(BACKGROUND), {}, None)

  /** One parameter with its colon-separated sub-parameters. */
  type Param = p: seq<nat> | p != [] witness [0]

  // -------------------------------------------------------------- what is printed

  function AddWhen(params: seq<Param>, condition: bool, param: Param): (r: seq<Param>)
    ensures params <= r && |r| <= |params| + 1
  {
    if condition then params + [param] else params
  }

  function AddUnderline(params: seq<Param>, flags: set<Flag>): (r: seq<Param>)
    ensures params <= r && |r| <= |params| + 1
  {
    if Underline in flags then params + [[4]]
    else if DoubleUnderline in flags then params + [[4, 2]]
    else if Undercurl in flags then params + [[4, 3]]
    else if DottedUnderline in flags then params + [[4, 4]]
    else if DashedUnderline in flags then params + [[4, 5]]
    else params
  }

  function AddColor(params: seq<Param>, color: Color, extended: U16, foreground: bool): (r: seq<Param>)
    ensures params <= r && |r| <= |params| + 5
  {
    match color
    case Named(code) =>
      if code < 8 then params + [[(if foreground then 30 else 40) + code]]
      else if code < 16 then params + [[(if foreground then 90 else 100) + code - 8]]
      else params
    case Indexed(index) => params + [[extended]] + [[5]] + [[index]]
    case Rgb(r, g, b) => params + [[extended]] + [[2]] + [[r]] + [[g]] + [[b]]
  }

  function AddWeights(params: seq<Param>, flags: set<Flag>): (r: seq<Param>)
    ensures params <= r && |r| <= |params| + 3
  {
    AddWhen(AddWhen(AddWhen(params, Bold in flags, [1]), Dim in flags, [2]), Italic in flags, [3])
  }

  function AddEffects(params: seq<Param>, flags: set<Flag>): (r: seq<Param>)
    ensures params <= r && |r| <= |params| + 3
  {
    AddWhen(AddWhen(AddWhen(params, Inverse in flags, [7]), Hidden in flags, [8]), Strikeout in flags, [9])
  }

  function AddStyles(params: seq<Param>, flags: set<Flag>): (r: seq<Param>)
    ensures params <= r && |r| <= |params| + 7
  {
    AddEffects(AddUnderline(AddWeights(params, flags), flags), flags)
  }

  /**
   * The first parameter resets the pen. There are at most 23, so the 32-parameter limit of a
   * terminal's parser is never met.
   */
  function SgrParams(attrs: Attrs): (r: seq<Param>)
    ensures 1 <= |r| <= 23 && r[0] == [0]
  {
    var styled := AddStyles([[0]], attrs.flags);
    var colored := AddColor(AddColor(styled, attrs.foreground, 38, true), attrs.background, 48, false);
    if attrs.underlineColor.Some? then AddColor(colored, attrs.underlineColor.value, 58, false) else colored
  }

  function ParamText(param: Param): string {
    if |param| == 1 then Text(param[0])
    else ParamText(param[..|param| - 1]) + ":" + Text(param[|param| - 1])
  }

  function ParamsText(params: seq<Param>): string {
    if params == [] then ""
    else if |params| == 1 then ParamText(params[0])
    else ParamsText(params[..|params| - 1]) + ";" + ParamText(params[|params| - 1])
  }

  /** A control sequence: introducer, private marker, parameters, final character. */
  function CsiText(private: bool, params: seq<Param>, final: char): string {
    "\U{1b}[" + (if private then "?" else "") + ParamsText(params) + [final]
  }

  // ------------------------------------------------------------------- the printer

  function Pow10(n: nat): nat {
    if n == 0 then 1 else 10 * Pow10(n - 1)
  }

  /** `push_u16`: five digit slots are always enough. */
  method PushU16(out: string, value: U16) returns (r: string)
    ensures r == out + Text(value)
  {
    var digits := new char[5](_ => '0');
    var cursor := 5;
    var remaining: nat := value;
    assert Pow10(5) == 100000;
    while true
      invariant 0 <= cursor <= 5 && remaining < Pow10(cursor)
      invariant cursor < 5 ==> remaining > 0
      invariant Text(value) == Text(remaining) + digits[cursor..]
      decreases cursor
    {
      ghost var printed := digits[cursor..];
      cursor := cursor - 1;
      digits[cursor] := Digit(remaining % 10);
      assert digits[cursor..] == [Digit(remaining % 10)] + printed;
      remaining := remaining / 10;
      if remaining == 0 {
        break;
      }
    }
    r := out + digits[cursor..];
  }

  lemma ParamTextSnoc(param: Param, value: nat)
    ensures ParamText(param + [value]) == ParamText(param) + ":" + Text(value)
  {
    assert (param + [value])[..|param|] == param;
  }

  /** Separator and parameter, written behind what is already there. */
  lemma PushedText(start: string, params: seq<Param>, param: Param)
    ensures start + ParamsText(params) + (if params == [] then "" else ";") + ParamText(param)
         == start + ParamsText(params + [param])
  {
    assert (params + [param])[..|params|] == params;
    if params == [] {
      assert start + "" + "" == start;
    } else {
      var body, text := ParamsText(params), ParamText(param);
      assert start + body + ";" + text == start + (body + ";" + text);
    }
  }

  /** The output buffer and the `first` flag that `push_sgr` hands to its helpers. */
  class SgrWriter {
    var out: string
    var first: bool
    ghost const start: string
    ghost var params: seq<Param>

    ghost predicate Valid()
      reads this
    {
      out == start + ParamsText(params) && (first <==> params == [])
    }

    /** `push_sgr` opens the sequence on the buffer it was given. */
    constructor (before: string)
      ensures Valid() && start == before + "\U{1b}[" && params == []
    {
      out, start := before + "\U{1b}[", before + "\U{1b}[";
      first, params := true, [];
    }

    /** `push_sgr_param`. */
    method PushParam(value: U16)
      requires Valid()
      modifies this
      ensures Valid() && params == old(params) + [[value]]
    {
      PushedText(start, params, [value]);
      var opening := if first then out else out + ";";
      assert opening == start + ParamsText(params) + if params == [] then "" else ";";
      out := PushU16(opening, value);
      first, params := false, params + [[value]];
    }

    /** `push_sgr_subparams`. */
    method PushSubparams(values: seq<U16>)
      requires Valid() && values != []
      modifies this
      ensures Valid() && params == old(params) + [values]
    {
      PushedText(start, params, values);
      var opening := if first then out else out + ";";
      assert opening == start + ParamsText(params) + if params == [] then "" else ";";
      out := PushJoined(opening, values);
      first, params := false, params + [values];
    }

    /** A `push_sgr_param` behind a flag test. */
    method PushWhen(condition: bool, value: U16)
      requires Valid()
      modifies this
      ensures Valid() && params == AddWhen(old(params), condition, [value])
    {
      if condition {
        PushParam(value);
      }
    }

    method PushUnderline(flags: set<Flag>)
      requires Valid()
      modifies this
      ensures Valid() && params == AddUnderline(old(params), flags)
    {
      if Underline in flags {
        PushParam(4);
      } else if DoubleUnderline in flags {
        PushSubparams([4, 2]);
      } else if Undercurl in flags {
        PushSubparams([4, 3]);
      } else if DottedUnderline in flags {
        PushSubparams([4, 4]);
      } else if DashedUnderline in flags {
        PushSubparams([4, 5]);
      }
    }

    /** `push_color_param`. */
    method PushColor(color: Color, extended: U16, foreground: bool)
      requires Valid()
      modifies this
      ensures Valid() && params == AddColor(old(params), color, extended, foreground)
    {
      match color
      case Named(code) =>
        if foreground && code == FOREGROUND {
        } else if !foreground && code == BACKGROUND {
        } else if code < 8 {
          var base: U16 := if foreground then 30 else 40;
          PushParam(base + code);
        } else if code < 16 {
          var base: U16 := if foreground then 90 else 100;
          PushParam(base + code - 8);
        }
      case Indexed(index) =>
        PushParam(extended);
        PushParam(5);
        PushParam(index);
      case Rgb(red, green, blue) =>
        PushParam(extended);
        PushParam(2);
        PushParam(red);
        PushParam(green);
        PushParam(blue);
    }

    method PushStyles(flags: set<Flag>)
      requires Valid()
      modifies this
      ensures Valid() && params == AddStyles(old(params), flags)
    {
      PushWhen(Bold in flags, 1);
      PushWhen(Dim in flags, 2);
      PushWhen(Italic in flags, 3);
      PushUnderline(flags);
      PushWhen(Inverse in flags, 7);
      PushWhen(Hidden in flags, 8);
      PushWhen(Strikeout in flags, 9);
    }
  }

  /** The sub-parameter loop: colons between the values, none before the first. */
  method PushJoined(before: string, values: seq<U16>) returns (r: string)
    requires values != []
    ensures r == before + ParamText(values)
  {
    r := PushU16(before, values[0]);
    for index := 1 to |values|
      invariant r == before + ParamText(values[..index])
    {
      ParamTextSnoc(values[..index], values[index]);
      assert values[..index] + [values[index]] == values[..index + 1];
      r := r + ":";
      r := PushU16(r, values[index]);
    }
    assert values[..|values|] == values;
  }

  /** `push_sgr`. */
  method PushSgr(out: string, attrs: Attrs) returns (r: string)
    ensures r == out + CsiText(false, SgrParams(attrs), 'm')
  {
    var w := new SgrWriter(out);
    w.PushParam(0);
    assert w.params == [[0]];
    w.PushStyles(attrs.flags);
    w.PushColor(attrs.foreground, 38, true);
    w.PushColor(attrs.background, 48, false);
    if attrs.underlineColor.Some? {
      w.PushColor(attrs.underlineColor.value, 58, false);
    }
    r := w.out + "m";
    CsiShape(out, SgrParams(attrs), 'm');
  }

  lemma CsiShape(out: string, params: seq<Param>, final: char)
    ensures out + "\U{1b}[" + ParamsText(params) + [final] == out + CsiText(false, params, final)
  {
    var body := ParamsText(params);
    assert "\U{1b}[" + "" + body == "\U{1b}[" + body;
    assert out + "\U{1b}[" + body + [final] == out + ("\U{1b}[" + body + [final]);
  }

  // --------------------------------------------------------------- the interpreter

  /** The colour that follows a 38, 48 or 58, and how many parameters it takes. */
  function ReadColor(params: seq<Param>): Option<(Color, nat)> {
    if |params| >= 2 && params[0] == [5] && params[1][0] < 256 then
      Some((Indexed(params[1][0]), 2))
    else if |params| >= 4 && params[0] == [2] && params[1][0] < 256 && params[2][0] < 256 && params[3][0] < 256 then
      Some((Rgb(params[1][0], params[2][0], params[3][0]), 4))
    else None
  }

  function Plain(flags: set<Flag>): set<Flag> {
    set f | f in flags && !IsUnderline(f)
  }

  function WithUnderline(pen: Attrs, style: Flag): Attrs {
    pen.(flags := Plain(pen.flags) + {style})
  }

  function WithFlag(pen: Attrs, flag: Flag): Attrs {
    pen.(flags := pen.flags + {flag})
  }

  /** The effect of one parameter that takes no further ones. */
  function ApplyOne(pen: Attrs, param: Param): Attrs {
    var code := param[0];
    if code == 0 then DEFAULT_ATTRS
    else if code == 1 then WithFlag(pen, Bold)
    else if code == 2 then WithFlag(pen, Dim)
    else if code == 3 then WithFlag(pen, Italic)
    else if code == 4 then
      (if |param| == 1 || param[1] == 1 then WithUnderline(pen, Underline)
       else if param[1] == 2 then WithUnderline(pen, DoubleUnderline)
       else if param[1] == 3 then WithUnderline(pen, Undercurl)
       else if param[1] == 4 then WithUnderline(pen, DottedUnderline)
       else if param[1] == 5 then WithUnderline(pen, DashedUnderline)
       else pen.(flags := Plain(pen.flags)))
    else if code == 7 then WithFlag(pen, Inverse)
    else if code == 8 then WithFlag(pen, Hidden)
    else if code == 9 then WithFlag(pen, Strikeout)
    else if 30 <= code < 38 then pen.(foreground := Named(code - 30))
    else if 40 <= code < 48 then pen.(background := Named(code - 40))
    else if 90 <= code < 98 then pen.(foreground := Named(code - 90 + 8))
    else if 100 <= code < 108 then pen.(background := Named(code - 100 + 8))
    else pen
  }

  function WithColor(pen: Attrs, code: nat, color: Color): Attrs {
    if code == 38 then pen.(foreground := color)
    else if code == 48 then pen.(background := color)
    else pen.(underlineColor := Some(color))
  }

  /** SGR: the pen after the given parameters. */
  function ApplySgr(pen: Attrs, params: seq<Param>): Attrs
    decreases |params|
  {
    if params == [] then pen
    else
      var code := params[0][0];
      if code == 38 || code == 48 || code == 58 then
        (match ReadColor(params[1..])
         case Some((color, taken)) => ApplySgr(WithColor(pen, code, color), params[1 + taken..])
         case None => ApplySgr(pen, params[1..]))
      else ApplySgr(ApplyOne(pen, params[0]), params[1..])
  }

  // ------------------------------------------------------------------- the meaning

  /** The list does not break off inside a colour. */
  predicate Whole(params: seq<Param>)
    decreases |params|
  {
    if params == [] then true
    else if params[0][0] in {38, 48, 58} then
      ReadColor(params[1..]).Some? && Whole(params[1 + ReadColor(params[1..]).value.1..])
    else Whole(params[1..])
  }

  lemma {:induction false} ApplyAppend(pen: Attrs, params: seq<Param>, more: seq<Param>)
    requires Whole(params)
    ensures ApplySgr(pen, params + more) == ApplySgr(ApplySgr(pen, params), more)
    ensures Whole(more) ==> Whole(params + more)
    decreases |params|
  {
    if params == [] {
      assert params + more == more;
    } else {
      var all := params + more;
      assert all[1..] == params[1..] + more;
      if params[0][0] in {38, 48, 58} {
        var taken := ReadColor(params[1..]).value.1;
        assert ReadColor(all[1..]) == ReadColor(params[1..]);
        assert all[1 + taken..] == params[1 + taken..] + more;
        ApplyAppend(WithColor(pen, params[0][0], ReadColor(params[1..]).value.0), params[1 + taken..], more);
      } else {
        ApplyAppend(ApplyOne(pen, params[0]), params[1..], more);
      }
    }
  }

  lemma ApplySnoc(pen: Attrs, params: seq<Param>, param: Param)
    requires Whole(params) && param[0] !in {38, 48, 58}
    ensures ApplySgr(pen, params + [param]) == ApplyOne(ApplySgr(pen, params), param)
    ensures Whole(params + [param])
  {
    var one: seq<Param> := [param];
    assert one[1..] == [] && Whole(one[1..]) && Whole(one);
    ApplyAppend(pen, params, one);
  }

  /** What one colour does to the pen. */
  function Colored(pen: Attrs, color: Color, code: nat): Attrs {
    if !color.Named? then WithColor(pen, code, color)
    else if color.code >= 16 then pen
    else if code == 38 then pen.(foreground := color)
    else pen.(background := color)
  }

  /** 38, 48 or 58 followed by a complete indexed or RGB colour. */
  lemma ApplyExtended(pen: Attrs, params: seq<Param>, color: Color, code: U16, more: seq<Param>)
    requires Whole(params) && code in {38, 48, 58} && |more| > 1 && more[0] == [code]
    requires ReadColor(more[1..]) == Some((color, |more| - 1))
    ensures ApplySgr(pen, params + more) == WithColor(ApplySgr(pen, params), code, color)
    ensures Whole(params + more)
  {
    var rest := more[1 + (|more| - 1)..];
    assert rest == [] && Whole(rest) && Whole(more);
    ApplyAppend(pen, params, more);
  }

  lemma ApplyColor(pen: Attrs, params: seq<Param>, color: Color, code: U16)
    requires Whole(params) && code in {38, 48, 58}
    ensures ApplySgr(pen, AddColor(params, color, code, code == 38)) == Colored(ApplySgr(pen, params), color, code)
    ensures Whole(AddColor(params, color, code, code == 38))
  {
    match color
    case Named(named) =>
      if named < 8 {
        ApplySnoc(pen, params, [(if code == 38 then 30 else 40) + named]);
      } else if named < 16 {
        ApplySnoc(pen, params, [(if code == 38 then 90 else 100) + named - 8]);
      }
    case Indexed(index) =>
      var more: seq<Param> := [[code], [5], [index]];
      assert params + [[code]] + [[5]] + [[index]] == params + more;
      ApplyExtended(pen, params, color, code, more);
    case Rgb(r, g, b) =>
      var more: seq<Param> := [[code], [2], [r], [g], [b]];
      assert params + [[code]] + [[2]] + [[r]] + [[g]] + [[b]] == params + more;
      ApplyExtended(pen, params, color, code, more);
  }

  lemma ApplyWhen(pen: Attrs, params: seq<Param>, condition: bool, param: Param)
    requires Whole(params) && param[0] !in {38, 48, 58}
    ensures ApplySgr(pen, AddWhen(params, condition, param))
         == if condition then ApplyOne(ApplySgr(pen, params), param) else ApplySgr(pen, params)
    ensures Whole(AddWhen(params, condition, param))
  {
    if condition {
      ApplySnoc(pen, params, param);
    }
  }

  /** The one underline style that wins when a cell claims several. */
  function Winner(flags: set<Flag>): Option<Flag> {
    if Underline in flags then Some(Underline)
    else if DoubleUnderline in flags then Some(DoubleUnderline)
    else if Undercurl in flags then Some(Undercurl)
    else if DottedUnderline in flags then Some(DottedUnderline)
    else if DashedUnderline in flags then Some(DashedUnderline)
    else None
  }

  lemma ApplyUnderline(pen: Attrs, params: seq<Param>, flags: set<Flag>)
    requires Whole(params)
    ensures ApplySgr(pen, AddUnderline(params, flags))
         == PenLined(ApplySgr(pen, params), flags)
    ensures Whole(AddUnderline(params, flags))
  {
    if Underline in flags {
      ApplySnoc(pen, params, [4]);
    } else if DoubleUnderline in flags {
      ApplySnoc(pen, params, [4, 2]);
    } else if Undercurl in flags {
      ApplySnoc(pen, params, [4, 3]);
    } else if DottedUnderline in flags {
      ApplySnoc(pen, params, [4, 4]);
    } else if DashedUnderline in flags {
      ApplySnoc(pen, params, [4, 5]);
    }
  }

  /** The styles as a terminal ends up with them: all plain ones, and the winning underline. */
  function Styled(flags: set<Flag>): set<Flag> {
    set f | f in flags && (IsUnderline(f) ==> Winner(flags) == Some(f))
  }

  function PenWhen(pen: Attrs, condition: bool, flag: Flag): Attrs {
    if condition then WithFlag(pen, flag) else pen
  }

  function PenWeights(pen: Attrs, flags: set<Flag>): Attrs {
    PenWhen(PenWhen(PenWhen(pen, Bold in flags, Bold), Dim in flags, Dim), Italic in flags, Italic)
  }

  function PenEffects(pen: Attrs, flags: set<Flag>): Attrs {
    PenWhen(PenWhen(PenWhen(pen, Inverse in flags, Inverse), Hidden in flags, Hidden), Strikeout in flags, Strikeout)
  }

  function PenLined(pen: Attrs, flags: set<Flag>): Attrs {
    if Winner(flags).Some? then WithUnderline(pen, Winner(flags).value) else pen
  }

  function PenStyled(pen: Attrs, flags: set<Flag>): Attrs {
    PenEffects(PenLined(PenWeights(pen, flags), flags), flags)
  }

  lemma ApplyWeights(pen: Attrs, params: seq<Param>, flags: set<Flag>)
    requires Whole(params)
    ensures ApplySgr(pen, AddWeights(params, flags)) == PenWeights(ApplySgr(pen, params), flags)
    ensures Whole(AddWeights(params, flags))
  {
    ApplyWhen(pen, params, Bold in flags, [1]);
    var p := AddWhen(params, Bold in flags, [1]);
    ApplyWhen(pen, p, Dim in flags, [2]);
    p := AddWhen(p, Dim in flags, [2]);
    ApplyWhen(pen, p, Italic in flags, [3]);
  }

  lemma ApplyEffects(pen: Attrs, params: seq<Param>, flags: set<Flag>)
    requires Whole(params)
    ensures ApplySgr(pen, AddEffects(params, flags)) == PenEffects(ApplySgr(pen, params), flags)
    ensures Whole(AddEffects(params, flags))
  {
    ApplyWhen(pen, params, Inverse in flags, [7]);
    var p := AddWhen(params, Inverse in flags, [7]);
    ApplyWhen(pen, p, Hidden in flags, [8]);
    p := AddWhen(p, Hidden in flags, [8]);
    ApplyWhen(pen, p, Strikeout in flags, [9]);
  }

  lemma ApplyStyles(pen: Attrs, params: seq<Param>, flags: set<Flag>)
    requires Whole(params)
    ensures ApplySgr(pen, AddStyles(params, flags)) == PenStyled(ApplySgr(pen, params), flags)
    ensures Whole(AddStyles(params, flags))
  {
    ApplyWeights(pen, params, flags);
    ApplyUnderline(pen, AddWeights(params, flags), flags);
    ApplyEffects(pen, AddUnderline(AddWeights(params, flags), flags), flags);
  }

  lemma StyledFlags(flags: set<Flag>)
    ensures PenStyled(DEFAULT_ATTRS, flags) == DEFAULT_ATTRS.(flags := Styled(flags))
  {
    var got := PenStyled(DEFAULT_ATTRS, flags).flags;
    forall f: Flag ensures f in got <==> f in Styled(flags) {
      match f {
        case Bold =>
        case Dim =>
        case Italic =>
        case Inverse =>
        case Hidden =>
        case Strikeout =>
        case _ =>
      }
    }
    assert got == Styled(flags);
  }

  /** What a terminal shows for the attributes a cell claims. */
  function Shown(attrs: Attrs): Attrs {
    var styled := DEFAULT_ATTRS.(flags := Styled(attrs.flags));
    var colored := Colored(Colored(styled, attrs.foreground, 38), attrs.background, 48);
    if attrs.underlineColor.Some? then Colored(colored, attrs.underlineColor.value, 58) else colored
  }

  /** The printed parameters set any pen to `Shown`. */
  lemma SgrShows(pen: Attrs, attrs: Attrs)
    ensures ApplySgr(pen, SgrParams(attrs)) == Shown(attrs)
  {
    ApplySnoc(pen, [], [0]);
    assert [] + [[0]] == [[0]];
    ApplyStyles(pen, [[0]], attrs.flags);
    StyledFlags(attrs.flags);
    var p := AddStyles([[0]], attrs.flags);
    ApplyColor(pen, p, attrs.foreground, 38);
    p := AddColor(p, attrs.foreground, 38, true);
    ApplyColor(pen, p, attrs.background, 48);
    p := AddColor(p, attrs.background, 48, false);
    if attrs.underlineColor.Some? {
      ApplyColor(pen, p, attrs.underlineColor.value, 58);
    }
  }

  ghost predicate OneUnderline(flags: set<Flag>) {
    forall a, b :: a in flags && b in flags && IsUnderline(a) && IsUnderline(b) ==> a == b
  }

  /** Attributes that a terminal can hold: at most one underline style, no role colours but the defaults. */
  ghost predicate Displayable(attrs: Attrs) {
    && OneUnderline(attrs.flags)
    && (attrs.foreground.Named? ==> attrs.foreground.code < 16 || attrs.foreground.code == FOREGROUND)
    && (attrs.background.Named? ==> attrs.background.code < 16 || attrs.background.code == BACKGROUND)
    && (attrs.underlineColor.Some? ==> !attrs.underlineColor.value.Named?)
  }

  lemma StyledIsExact(flags: set<Flag>)
    ensures Styled(flags) == flags <==> OneUnderline(flags)
  {
    if Styled(flags) == flags {
      forall a, b | a in flags && b in flags && IsUnderline(a) && IsUnderline(b) ensures a == b {
        assert a in Styled(flags) && b in Styled(flags);
      }
    } else {
      var lost :| lost in flags && lost !in Styled(flags);
      assert Winner(flags).value in flags && Winner(flags).value != lost;
    }
  }

  /**
   * Whatever the pen was, the printed parameters set it to exactly these attributes when the
   * attributes are displayable, and never otherwise.
   */
  lemma SgrRoundTrip(pen: Attrs, attrs: Attrs)
    ensures ApplySgr(pen, SgrParams(attrs)) == attrs <==> Displayable(attrs)
  {
    SgrShows(pen, attrs);
    StyledIsExact(attrs.flags);
    assert Shown(attrs).flags == Styled(attrs.flags);
  }
}
