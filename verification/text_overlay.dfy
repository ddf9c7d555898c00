/** The overlay engine (`TextOverlay`): font loading with fallback, the geometry
    of one annotation (`add_text`) and the ordered application of a list of
    annotations (`add_multiple_texts`). Drawing produces `Draw` commands. */
module TextOverlay {
  import opened Base
  import opened Canvas
  import opened LineWrap
  import Fonts

  /** What font loading depends on: the module directory and the existing files
      (for `get_font_path`), `ImageFont.truetype`, which yields no font when it
      raises, and the font `ImageFont.load_default()` returns. */
  datatype FontEnv = FontEnv(
    moduleDir: string,
    files: set<string>,
    truetype: (string, int) -> Option<Font>,
    builtin: Font)

  /** `_get_font(font_name, font_size)`: never raises; any failure gives the built-in font. */
  function GetFont(env: FontEnv, name: string, size: int): (font: Font)
    ensures font == env.builtin || exists path :: path in env.files && env.truetype(path, size) == Some(font)
    ensures Fonts.GetFontPath(env.moduleDir, env.files, name).Failure? ==> font == env.builtin
    ensures var path := Fonts.GetFontPath(env.moduleDir, env.files, name);
      path.Success? && env.truetype(path.value, size).Some? ==> font == env.truetype(path.value, size).value
    ensures var path := Fonts.GetFontPath(env.moduleDir, env.files, name);
      path.Success? && env.truetype(path.value, size).None? ==> font == env.builtin
  {
    match Fonts.GetFontPath(env.moduleDir, env.files, name)
    case Failure(_) => env.builtin
    case Success(path) =>
      match env.truetype(path, size)
      case Some(f) => f
      case None => env.builtin
  }

  /** A name outside the allow-list loads the same font as the default name. */
  lemma UnknownFontLoadsDefault(env: FontEnv, name: string, size: int)
    requires name !in Fonts.AvailableFonts
    ensures GetFont(env, name, size) == GetFont(env, Fonts.DefaultFont, size)
  {
    Fonts.UnknownFontIsDefault(env.moduleDir, env.files, name);
  }

  /** An annotation dictionary; `None` stands for a key that is not present. */
  datatype Annotation = Annotation(
    text: Option<string>,
    width: Option<int>,
    height: Option<int>,
    x: Option<int>,
    y: Option<int>,
    fontSize: Option<int>,
    fontName: Option<string>,
    textColor: Option<Colour>,
    outlineColor: Option<Colour>,
    strokeWidth: Option<int>,
    padding: Option<int>)

  const DefaultFontSize: int := 40
  const DefaultFontName: string := "Arial.ttf"
  const DefaultTextColour: Colour := [255, 255, 255]
  const DefaultOutlineColour: Colour := [0, 0, 0]
  const DefaultStrokeWidth: int := 2
  const DefaultPadding: int := 20

  /** The `KeyError` raised for a required key that is missing. */
  datatype OverlayError = MissingKey(key: string)

  /** Vertical advance between lines: ascent, descent and a fifth of the size as gap. */
  function LineHeight(font: Font, fontSize: int): (h: int)
    ensures var gap := h - font.ascent - font.descent;
      5 * gap <= fontSize < 5 * gap + 5
  {
    font.ascent + font.descent + fontSize / 5
  }

  /** The drawing loop of `add_text`: one command per line, top to bottom, the
      current y advancing by `lineHeight` and each line centred across the box. */
  function DrawLines(lines: seq<string>, x: int, boxWidth: int, y: int, lineHeight: int,
                     width: string -> nat, style: Style): (cmds: seq<Draw>)
    ensures |cmds| == |lines|
    ensures forall i :: 0 <= i < |cmds| ==>
      && cmds[i].text == lines[i]
      && cmds[i].y == y + i * lineHeight
      && Centred(x, boxWidth, cmds[i].x, width(lines[i]))
      && cmds[i].style == style
    decreases |lines|
  {
    if |lines| == 0 then []
    else
      var lineX := x + (boxWidth - width(lines[0])) / 2;
      [Draw(lineX, y, lines[0], style)] + DrawLines(lines[1..], x, boxWidth, y + lineHeight, lineHeight, width, style)
  }

  /** `cmds` draws `lines` as one block centred vertically in the box at (x, y) of
      size w by h, line i lying i line heights below the block's top, and each line
      centred horizontally, all in `style`. */
  ghost predicate LaidOut(cmds: seq<Draw>, lines: seq<string>, x: int, y: int, w: int, h: int,
                          lineHeight: int, width: string -> nat, style: Style)
  {
    && |cmds| == |lines|
    && forall i :: 0 <= i < |cmds| ==>
      && cmds[i].text == lines[i]
      && Centred(y, h, cmds[i].y - i * lineHeight, |lines| * lineHeight)
      && Centred(x, w, cmds[i].x, width(lines[i]))
      && cmds[i].style == style
  }

  /** The optional keys of an annotation once their defaults are filled in. */
  datatype Settings = Settings(
    fontSize: int,
    fontName: string,
    textColor: Colour,
    outlineColor: Colour,
    strokeWidth: int,
    padding: int)

  /** The `annotation.get(key, default)` reads of `add_text`. */
  function SettingsOf(a: Annotation): Settings
  {
    Settings(
      GetOr(a.fontSize, DefaultFontSize),
      GetOr(a.fontName, DefaultFontName),
      GetOr(a.textColor, DefaultTextColour),
      GetOr(a.outlineColor, DefaultOutlineColour),
      GetOr(a.strokeWidth, DefaultStrokeWidth),
      GetOr(a.padding, DefaultPadding))
  }

  function FontOf(env: FontEnv, s: Settings): Font
  {
    GetFont(env, s.fontName, s.fontSize)
  }

  function StyleOf(s: Settings): Style
  {
    Style(s.textColor, s.strokeWidth, s.outlineColor)
  }

  /** The lines `add_text` wraps `text` into: the box width less the padding on both sides. */
  function BoxLines(env: FontEnv, text: string, width: int, s: Settings): seq<string>
  {
    Wrap(text, width - 2 * s.padding, FontOf(env, s))
  }

  /** The drawing part of `add_text` once every key has been read. */
  function DrawBox(env: FontEnv, text: string, w: int, h: int, x: int, y: int, s: Settings): (cmds: seq<Draw>)
    ensures LaidOut(cmds, BoxLines(env, text, w, s), x, y, w, h,
                    LineHeight(FontOf(env, s), s.fontSize), FontOf(env, s).width, StyleOf(s))
  {
    var font := FontOf(env, s);
    var lines := BoxLines(env, text, w, s);
    var lineHeight := LineHeight(font, s.fontSize);
    var top := y + (h - |lines| * lineHeight) / 2;
    var cmds := DrawLines(lines, x, w, top, lineHeight, font.width, StyleOf(s));
    assert forall i :: 0 <= i < |cmds| ==> cmds[i].y - i * lineHeight == top;
    cmds
  }

  /** `add_text(image, annotation)`. */
  function AddText(env: FontEnv, a: Annotation): (r: Result<seq<Draw>, OverlayError>)
    ensures r.Failure? <==> a.text.None? || a.width.None? || a.height.None? || a.x.None? || a.y.None?
    ensures a.text.None? ==> r == Failure(MissingKey("text"))
    ensures a.text.Some? && a.width.None? ==> r == Failure(MissingKey("width"))
    ensures a.text.Some? && a.width.Some? && a.height.None? ==> r == Failure(MissingKey("height"))
    ensures a.text.Some? && a.width.Some? && a.height.Some? && a.x.None? ==> r == Failure(MissingKey("x"))
    ensures a.text.Some? && a.width.Some? && a.height.Some? && a.x.Some? && a.y.None? ==> r == Failure(MissingKey("y"))
    ensures r.Success? ==>
      var s := SettingsOf(a);
      LaidOut(r.value, BoxLines(env, a.text.value, a.width.value, s), a.x.value, a.y.value,
              a.width.value, a.height.value, LineHeight(FontOf(env, s), s.fontSize), FontOf(env, s).width, StyleOf(s))
  {
    if a.text.None? then Failure(MissingKey("text"))
    else if a.width.None? then Failure(MissingKey("width"))
    else if a.height.None? then Failure(MissingKey("height"))
    else if a.x.None? then Failure(MissingKey("x"))
    else if a.y.None? then Failure(MissingKey("y"))
    else Success(DrawBox(env, a.text.value, a.width.value, a.height.value, a.x.value, a.y.value, SettingsOf(a)))
  }

  /** The optional keys behave exactly as if their documented defaults had been given. */
  lemma DefaultsApply(env: FontEnv, a: Annotation)
    ensures AddText(env, a) == AddText(env, a.(
      fontSize := Some(GetOr(a.fontSize, DefaultFontSize)),
      fontName := Some(GetOr(a.fontName, DefaultFontName)),
      textColor := Some(GetOr(a.textColor, DefaultTextColour)),
      outlineColor := Some(GetOr(a.outlineColor, DefaultOutlineColour)),
      strokeWidth := Some(GetOr(a.strokeWidth, DefaultStrokeWidth)),
      padding := Some(GetOr(a.padding, DefaultPadding))))
  {
  }

  /** `add_multiple_texts(image, annotations)`: the annotations are applied in list
      order and the first failure is re-raised, so that nothing is produced. */
  function AddMultipleTexts(env: FontEnv, anns: seq<Annotation>): (r: Result<seq<Draw>, OverlayError>)
    ensures r.Success? <==> forall i :: 0 <= i < |anns| ==> AddText(env, anns[i]).Success?
    ensures r.Failure? ==>
      exists k ::
        && 0 <= k < |anns|
        && AddText(env, anns[k]) == Failure(r.error)
        && forall j :: 0 <= j < k ==> AddText(env, anns[j]).Success?
  {
    ChainMap((a: Annotation) => AddText(env, a), anns)
  }

  /** A single annotation is drawn exactly as `add_text` draws it. */
  lemma AddMultipleSingle(env: FontEnv, a: Annotation)
    ensures AddMultipleTexts(env, [a]) == AddText(env, a)
  {
    var step := (a: Annotation) => AddText(env, a);
    assert [a][1..] == [];
    assert ChainMap(step, [a]) == Chain(AddText(env, a), Success([]));
    if AddText(env, a).Success? {
      assert AddText(env, a).value + [] == AddText(env, a).value;
    }
  }

  /** Applying `a ++ b` is applying `a` and then `b`: the draws of `a` come first. */
  lemma AddMultipleAppend(env: FontEnv, a: seq<Annotation>, b: seq<Annotation>)
    ensures AddMultipleTexts(env, a + b) == Chain(AddMultipleTexts(env, a), AddMultipleTexts(env, b))
  {
    ChainMapAppend((x: Annotation) => AddText(env, x), a, b);
  }
}
