/**
 * The captcha picture as an ordered log of GD drawing commands instead of
 * pixels, the rendering settings read from the configuration, and the layout
 * every rendered log has: one background fill, then noise lines, then `*`
 * marks, then the code's glyphs, each element inside its stated ranges.
 */
module Render {
  import opened Php

  datatype Rgb = Rgb(red: int, green: int, blue: int)

  /** Every channel of `c` was drawn from `[lo, hi]`. */
  predicate Channels(c: Rgb, lo: int, hi: int) {
    lo <= c.red <= hi && lo <= c.green <= hi && lo <= c.blue <= hi
  }

  /**
   * One GD call on the canvas. A glyph's pixel position is a float expression
   * of its slot and jitter; the model keeps the slot and the jitter instead.
   */
  datatype Draw =
    | FilledRectangle(x1: int, y1: int, x2: int, y2: int, color: Rgb)              // imagefilledrectangle
    | Line(x1: int, y1: int, x2: int, y2: int, color: Rgb)                         // imageline
    | Chars(font: int, x: int, y: int, text: string, color: Rgb)                   // imagestring
    | TtfText(size: int, angle: int, slot: int, jitter: int, color: Rgb, fontFile: string, text: string) // imagettftext

  /** A true-colour canvas of the given size and what has been drawn on it. */
  datatype Image = Image(width: int, height: int, log: seq<Draw>)

  /** The configuration entries the renderer reads, with their PHP types checked. */
  datatype Settings = Settings(
    width: int, height: int, font: string, fontsize: int,
    codelen: int, noiseLines: int, noisePoints: int)

  const DefaultNoiseLines := 6
  const DefaultNoisePoints := 100

  /** How often a `for ($i = 0; $i < $n; $i++)` loop runs. */
  function Times(n: int): nat {
    if n < 0 then 0 else n
  }

  // ---------------------------------------------------------------------------
  // Reading the configuration

  function IntEntry(config: Assoc<Val>, key: string): Option<int> {
    var v: Option<Val> := Get(config, key);
    match v
    case Some(Int(n)) => Some(n)
    case _ => None
  }

  /** `$config[$key] ?? $default`: a missing or null entry falls back to the default. */
  function CountEntry(config: Assoc<Val>, key: string, default: int): (r: Option<int>)
    ensures Get(config, key).None? || Get(config, key) == Some(Null) ==> r == Some(default)
    ensures forall n :: Get(config, key) == Some(Int(n)) ==> r == Some(n)
  {
    var v: Option<Val> := Get(config, key);
    match v
    case None => Some(default)
    case Some(Null) => Some(default)
    case Some(Int(n)) => Some(n)
    case Some(Str(_)) => None
  }

  /** PHP's and GD's `INT_MAX`. */
  const IntMax := 0x7fff_ffff

  const WidthError := ValueError("imagecreatetruecolor(): Argument #1 ($width) must be greater than 0")
  const HeightError := ValueError("imagecreatetruecolor(): Argument #2 ($height) must be greater than 0")

  /**
   * The checks `createImage` makes before drawing: the font entry is a string
   * naming an existing file, the other entries have their types, and each
   * side of the canvas lies strictly between 0 and `INT_MAX`
   * (`imagecreatetruecolor` raises a ValueError otherwise, the width first).
   */
  function Prepare(config: Assoc<Val>, files: set<string>): (r: Result<Settings, Exception>)
    ensures r.Success? ==>
      && Get(config, "font") == Some(Str(r.value.font)) && r.value.font in files
      && 0 < r.value.width < IntMax && 0 < r.value.height < IntMax
      && IntEntry(config, "width") == Some(r.value.width)
      && IntEntry(config, "height") == Some(r.value.height)
      && IntEntry(config, "codelen") == Some(r.value.codelen)
      && IntEntry(config, "fontsize") == Some(r.value.fontsize)
      && CountEntry(config, "noise_lines", DefaultNoiseLines) == Some(r.value.noiseLines)
      && CountEntry(config, "noise_points", DefaultNoisePoints) == Some(r.value.noisePoints)
    ensures forall f :: Get(config, "font") == Some(Str(f)) && f !in files ==>
      r == Failure(RuntimeException("CAPTCHA font file not found: " + f))
    ensures !Get(config, "font").Some? || !Get(config, "font").value.Str? ==> r == Failure(TypeError("font"))
  {
    var v: Option<Val> := Get(config, "font");
    match v
    case Some(Str(font)) =>
      if font !in files then Failure(RuntimeException("CAPTCHA font file not found: " + font))
      else Canvas(config, font)
    case _ => Failure(TypeError("font"))
  }

  /**
   * `imagecreatetruecolor($width, $height)`'s argument checks, then the
   * remaining entries: both type errors before either ValueError, the width's first.
   */
  function Canvas(config: Assoc<Val>, font: string): (r: Result<Settings, Exception>)
    ensures r.Success? ==>
      && r.value.font == font
      && 0 < r.value.width < IntMax && 0 < r.value.height < IntMax
      && IntEntry(config, "width") == Some(r.value.width)
      && IntEntry(config, "height") == Some(r.value.height)
      && IntEntry(config, "codelen") == Some(r.value.codelen)
      && IntEntry(config, "fontsize") == Some(r.value.fontsize)
      && CountEntry(config, "noise_lines", DefaultNoiseLines) == Some(r.value.noiseLines)
      && CountEntry(config, "noise_points", DefaultNoisePoints) == Some(r.value.noisePoints)
    ensures IntEntry(config, "width").None? ==> r == Failure(TypeError("width"))
    ensures IntEntry(config, "width").Some? && IntEntry(config, "height").None? ==> r == Failure(TypeError("height"))
    ensures IntEntry(config, "width").Some? && IntEntry(config, "height").Some? ==>
      && (!(0 < IntEntry(config, "width").value < IntMax) ==> r == Failure(WidthError))
      && (0 < IntEntry(config, "width").value < IntMax && !(0 < IntEntry(config, "height").value < IntMax) ==> r == Failure(HeightError))
  {
    var width, height := IntEntry(config, "width"), IntEntry(config, "height");
    if width.None? then Failure(TypeError("width"))
    else if height.None? then Failure(TypeError("height"))
    else if !(0 < width.value < IntMax) then Failure(WidthError)
    else if !(0 < height.value < IntMax) then Failure(HeightError)
    else Counts(config, font, width.value, height.value)
  }

  /** The entries read while drawing: the noise counts (with their defaults), `codelen` and `fontsize`. */
  function Counts(config: Assoc<Val>, font: string, width: int, height: int): (r: Result<Settings, Exception>)
    ensures r.Success? ==>
      && r.value.font == font && r.value.width == width && r.value.height == height
      && IntEntry(config, "codelen") == Some(r.value.codelen)
      && IntEntry(config, "fontsize") == Some(r.value.fontsize)
      && CountEntry(config, "noise_lines", DefaultNoiseLines) == Some(r.value.noiseLines)
      && CountEntry(config, "noise_points", DefaultNoisePoints) == Some(r.value.noisePoints)
  {
    var lines, points := CountEntry(config, "noise_lines", DefaultNoiseLines), CountEntry(config, "noise_points", DefaultNoisePoints);
    var codelen, fontsize := IntEntry(config, "codelen"), IntEntry(config, "fontsize");
    if lines.None? then Failure(TypeError("noise_lines"))
    else if points.None? then Failure(TypeError("noise_points"))
    else if codelen.None? then Failure(TypeError("codelen"))
    else if fontsize.None? then Failure(TypeError("fontsize"))
    else Success(Settings(width, height, font, fontsize.value, codelen.value, lines.value, points.value))
  }

  /** With a published font and integer sides, a side outside (0, INT_MAX) is a ValueError, the width's first. */
  lemma PrepareRejectsSize(config: Assoc<Val>, files: set<string>, font: string, w: int, h: int)
    requires Get(config, "font") == Some(Str(font)) && font in files
    requires IntEntry(config, "width") == Some(w) && IntEntry(config, "height") == Some(h)
    ensures !(0 < w < IntMax) ==> Prepare(config, files) == Failure(WidthError)
    ensures 0 < w < IntMax && !(0 < h < IntMax) ==> Prepare(config, files) == Failure(HeightError)
  {
    assert Prepare(config, files) == Canvas(config, font);
  }

  /**
   * Whether GD's `gdImageCreateTrueColor` refuses the canvas and
   * `imagecreatetruecolor` returns false: its checks `overflow2(sx, sy)`,
   * `overflow2(sizeof(int *), sy)` and `overflow2(sizeof(int), sx)` on a
   * 64-bit build, each failing when the first factor exceeds `INT_MAX`
   * divided by the second.
   */
  predicate GdRefuses(width: int, height: int)
    requires width > 0 && height > 0
  {
    width > IntMax / height || 8 > IntMax / height || 4 > IntMax / width
  }

  /**
   * GD refuses exactly the canvases of more than `INT_MAX` pixels, more than
   * `INT_MAX / 8` rows or more than `INT_MAX / 4` columns.
   */
  lemma GdRefusesMeaning(width: int, height: int)
    requires 0 < width && 0 < height
    ensures GdRefuses(width, height) <==> width * height > IntMax || height > IntMax / 8 || width > IntMax / 4
  {
    DivBound(width, height);
    DivBound(8, height);
    DivBound(4, width);
  }

  /** `a > INT_MAX / b` is GD's way of asking whether `a * b` exceeds `INT_MAX`. */
  lemma DivBound(a: int, b: int)
    requires 0 < a && 0 < b
    ensures a > IntMax / b <==> a * b > IntMax
  {
    var q := IntMax / b;
    assert IntMax == q * b + IntMax % b;
    if a > q {
      assert a * b >= (q + 1) * b;
    } else {
      assert a * b <= q * b;
    }
  }

  /** The converse: a record whose entries are all well typed, with a published font and sides in (0, INT_MAX), is accepted as it reads. */
  lemma PrepareAccepts(config: Assoc<Val>, files: set<string>, st: Settings)
    requires Get(config, "font") == Some(Str(st.font)) && st.font in files
    requires Get(config, "width") == Some(Int(st.width)) && 0 < st.width < IntMax
    requires Get(config, "height") == Some(Int(st.height)) && 0 < st.height < IntMax
    requires Get(config, "codelen") == Some(Int(st.codelen))
    requires Get(config, "fontsize") == Some(Int(st.fontsize))
    requires Get(config, "noise_lines") == Some(Int(st.noiseLines))
    requires Get(config, "noise_points") == Some(Int(st.noisePoints))
    ensures Prepare(config, files) == Success(st)
  {
    IntEntryOf(config, "width", st.width);
    IntEntryOf(config, "height", st.height);
    IntEntryOf(config, "codelen", st.codelen);
    IntEntryOf(config, "fontsize", st.fontsize);
    CountEntryOf(config, "noise_lines", DefaultNoiseLines, st.noiseLines);
    CountEntryOf(config, "noise_points", DefaultNoisePoints, st.noisePoints);
    CanvasAccepts(config, st);
    assert Prepare(config, files) == Canvas(config, st.font);
  }

  lemma CanvasAccepts(config: Assoc<Val>, st: Settings)
    requires IntEntry(config, "width") == Some(st.width) && 0 < st.width < IntMax
    requires IntEntry(config, "height") == Some(st.height) && 0 < st.height < IntMax
    requires IntEntry(config, "codelen") == Some(st.codelen)
    requires IntEntry(config, "fontsize") == Some(st.fontsize)
    requires CountEntry(config, "noise_lines", DefaultNoiseLines) == Some(st.noiseLines)
    requires CountEntry(config, "noise_points", DefaultNoisePoints) == Some(st.noisePoints)
    ensures Canvas(config, st.font) == Success(st)
  {
    assert Canvas(config, st.font) == Counts(config, st.font, st.width, st.height);
  }

  lemma IntEntryOf(config: Assoc<Val>, key: string, n: int)
    requires Get(config, key) == Some(Int(n))
    ensures IntEntry(config, key) == Some(n)
  {
  }

  lemma CountEntryOf(config: Assoc<Val>, key: string, default: int, n: int)
    requires Get(config, key) == Some(Int(n))
    ensures CountEntry(config, key, default) == Some(n)
  {
  }

  // ---------------------------------------------------------------------------
  // The elements of a rendered picture

  /** `imagefilledrectangle($img, 0, 0, width, height, light colour)`. */
  predicate IsBackground(d: Draw, st: Settings) {
    d == FilledRectangle(0, 0, st.width, st.height, d.color) && Channels(d.color, 220, 255)
  }

  /** A dark line between two points of the canvas (bounds included). */
  predicate IsNoiseLine(d: Draw, st: Settings) {
    && d.Line?
    && 0 <= d.x1 <= st.width && 0 <= d.y1 <= st.height
    && 0 <= d.x2 <= st.width && 0 <= d.y2 <= st.height
    && Channels(d.color, 0, 50)
  }

  /** A light `*` in one of GD's built-in fonts 1 to 5 at a point of the canvas. */
  predicate IsNoiseMark(d: Draw, st: Settings) {
    && d.Chars?
    && 1 <= d.font <= 5 && 0 <= d.x <= st.width && 0 <= d.y <= st.height
    && d.text == "*"
    && Channels(d.color, 200, 255)
  }

  /** `$code[$i]`: one character, or "" past the end (PHP 8 warns and reads ""). */
  function CharAt(code: string, i: int): (r: string)
    requires 0 <= i
    ensures i < |code| ==> r == [code[i]]
    ensures i >= |code| ==> r == ""
  {
    if i < |code| then [code[i]] else ""
  }

  /** The glyph for slot `i` of the code: a mid-dark, rotated, jittered character. */
  predicate IsGlyph(d: Draw, st: Settings, code: string) {
    && d.TtfText?
    && 0 <= d.slot < st.codelen
    && d.size == st.fontsize && d.fontFile == st.font
    && -30 <= d.angle <= 30 && 1 <= d.jitter <= 5
    && Channels(d.color, 0, 156)
    && d.text == CharAt(code, d.slot)
  }

  function SlotOf(d: Draw): int {
    if d.TtfText? then d.slot else -1
  }

  /** Glyphs drawn left to right: every one valid, slots strictly increasing. */
  predicate GlyphRun(s: seq<Draw>, st: Settings, code: string) {
    && (forall j :: 0 <= j < |s| ==> IsGlyph(s[j], st, code))
    && (forall p, q :: 0 <= p < q < |s| ==> SlotOf(s[p]) < SlotOf(s[q]))
  }

  /**
   * The layout of a rendered log, with `a` and `b` the first mark and the
   * first glyph: background at 0, lines in [1, a), marks in [a, b), glyphs
   * from b on, and no more lines or marks than the configured counts.
   */
  predicate Layout(log: seq<Draw>, st: Settings, code: string, a: int, b: int) {
    && 1 <= a <= b <= |log|
    && IsBackground(log[0], st)
    && a - 1 <= Times(st.noiseLines) && (forall j :: 1 <= j < a ==> IsNoiseLine(log[j], st))
    && b - a <= Times(st.noisePoints) && (forall j :: a <= j < b ==> IsNoiseMark(log[j], st))
    && GlyphRun(log[b..], st, code)
  }

  // ---------------------------------------------------------------------------
  // What follows from the layout

  /** A glyph for the next slot extends a run of glyphs for the slots before it. */
  lemma GlyphRunSnoc(s: seq<Draw>, g: Draw, st: Settings, code: string, i: int)
    requires GlyphRun(s, st, code) && forall j :: 0 <= j < |s| ==> SlotOf(s[j]) < i
    requires IsGlyph(g, st, code) && SlotOf(g) == i
    ensures GlyphRun(s + [g], st, code)
    ensures forall j :: 0 <= j < |s + [g]| ==> SlotOf((s + [g])[j]) < i + 1
  {
    var t := s + [g];
    assert forall j :: 0 <= j < |s| ==> t[j] == s[j];
    assert t[|s|] == g;
  }

  /** Strictly increasing slots below `n` number at most `n`. */
  lemma {:induction false} SlotsBelow(s: seq<Draw>, n: int)
    requires forall j :: 0 <= j < |s| ==> 0 <= SlotOf(s[j]) < n
    requires forall p, q :: 0 <= p < q < |s| ==> SlotOf(s[p]) < SlotOf(s[q])
    ensures |s| <= Times(n)
    decreases |s|
  {
    if |s| > 0 {
      var last := |s| - 1;
      var init := s[..last];
      assert forall j :: 0 <= j < |init| ==> init[j] == s[j];
      forall j | 0 <= j < |init|
        ensures 0 <= SlotOf(init[j]) < SlotOf(s[last])
      {
        assert SlotOf(s[j]) < SlotOf(s[last]);
      }
      SlotsBelow(init, SlotOf(s[last]));
    }
  }

  /** A picture shows at most `codelen` glyphs, never two for the same slot. */
  lemma GlyphRunBound(s: seq<Draw>, st: Settings, code: string)
    requires GlyphRun(s, st, code)
    ensures |s| <= Times(st.codelen)
  {
    SlotsBelow(s, st.codelen);
  }

  /** The size of a rendered log: 1 + at most noise_lines + noise_points + codelen. */
  lemma LayoutSize(log: seq<Draw>, st: Settings, code: string, a: int, b: int)
    requires Layout(log, st, code, a, b)
    ensures |log| <= 1 + Times(st.noiseLines) + Times(st.noisePoints) + Times(st.codelen)
  {
    GlyphRunBound(log[b..], st, code);
  }

  /**
   * The four phases of `createImage` in turn, each extending the log of the
   * one before, give a log with the layout; `|lines|` and `|marks|` are
   * where the marks and the glyphs begin.
   */
  lemma LayoutOfPhases(init: seq<Draw>, lines: seq<Draw>, marks: seq<Draw>, log: seq<Draw>, st: Settings, code: string)
    requires |init| == 1 && IsBackground(init[0], st)
    requires init <= lines && |lines| <= |init| + Times(st.noiseLines)
    requires forall j :: |init| <= j < |lines| ==> IsNoiseLine(lines[j], st)
    requires lines <= marks && |marks| <= |lines| + Times(st.noisePoints)
    requires forall j :: |lines| <= j < |marks| ==> IsNoiseMark(marks[j], st)
    requires marks <= log && GlyphRun(log[|marks|..], st, code)
    ensures Layout(log, st, code, |lines|, |marks|)
  {
    forall j | 1 <= j < |lines|
      ensures IsNoiseLine(log[j], st)
    {
      assert log[j] == marks[j] == lines[j];
    }
    forall j | |lines| <= j < |marks|
      ensures IsNoiseMark(log[j], st)
    {
      assert log[j] == marks[j];
    }
    assert log[0] == init[0];
  }

  /** The painting order: background, lines, marks, text. */
  function Layer(d: Draw): int {
    match d
    case FilledRectangle(_, _, _, _, _) => 0
    case Line(_, _, _, _, _) => 1
    case Chars(_, _, _, _, _) => 2
    case TtfText(_, _, _, _, _, _, _) => 3
  }

  lemma LayoutOrder(log: seq<Draw>, st: Settings, code: string, a: int, b: int)
    requires Layout(log, st, code, a, b)
    ensures Layer(log[0]) == 0
    ensures forall i, j :: 0 <= i < j < |log| ==> Layer(log[i]) <= Layer(log[j])
  {
    forall j | b <= j < |log|
      ensures log[j].TtfText?
    {
      assert log[b..][j - b] == log[j];
    }
  }

  /**
   * When the code is at least `codelen` long, every glyph in the picture
   * draws exactly the code's character for its slot, and no slot twice.
   */
  lemma GlyphsShowCode(log: seq<Draw>, st: Settings, code: string, a: int, b: int)
    requires Layout(log, st, code, a, b)
    requires st.codelen <= |code|
    ensures forall j :: b <= j < |log| ==> log[j].TtfText? && 0 <= log[j].slot < |code| && log[j].text == [code[log[j].slot]]
    ensures forall i, j :: b <= i < j < |log| ==> log[i].slot != log[j].slot
  {
    var g := log[b..];
    forall j | b <= j < |log|
      ensures log[j] == g[j - b]
    {
    }
  }

  // ---------------------------------------------------------------------------
  // Colour allocation

  /**
   * The outcome of every `imagecolorallocate` call of one picture: the
   * background's, and that of round `i` of the line, mark and glyph loops.
   * GD's palette state is not modelled, so the outcomes are given.
   */
  datatype Allocator = Allocator(background: bool, line: int -> bool, mark: int -> bool, glyph: int -> bool)

  /** The rounds `0 <= i < n` of a loop whose colour is allocated, in loop order. */
  function Allocated(ok: int -> bool, n: int): (r: seq<int>)
    ensures |r| <= Times(n)
    decreases Times(n)
  {
    if n <= 0 then [] else Allocated(ok, n - 1) + if ok(n - 1) then [n - 1] else []
  }

  /** `Allocated` lists, in increasing order, exactly the rounds below `n` whose colour is allocated. */
  lemma {:induction false} AllocatedRounds(ok: int -> bool, n: int)
    ensures forall j :: 0 <= j < |Allocated(ok, n)| ==> 0 <= Allocated(ok, n)[j] < n && ok(Allocated(ok, n)[j])
    ensures forall p, q :: 0 <= p < q < |Allocated(ok, n)| ==> Allocated(ok, n)[p] < Allocated(ok, n)[q]
    ensures forall i :: 0 <= i < n ==> (ok(i) <==> i in Allocated(ok, n))
    decreases Times(n)
  {
    if n > 0 {
      AllocatedRounds(ok, n - 1);
      var r, s := Allocated(ok, n - 1), Allocated(ok, n);
      assert s == r + if ok(n - 1) then [n - 1] else [];
      assert forall j :: 0 <= j < |r| ==> s[j] == r[j];
    }
  }

  /** The glyphs `s` are drawn for exactly the slots `rounds`, in that order. */
  predicate DrawsSlots(s: seq<Draw>, rounds: seq<int>) {
    |s| == |rounds| && forall j :: 0 <= j < |s| ==> SlotOf(s[j]) == rounds[j]
  }

  /** A glyph for slot `i` extends glyphs drawn for `rounds` to `rounds + [i]`. */
  lemma DrawsSlotsSnoc(s: seq<Draw>, g: Draw, rounds: seq<int>, i: int)
    requires DrawsSlots(s, rounds) && SlotOf(g) == i
    ensures DrawsSlots(s + [g], rounds + [i])
  {
    var t, u := s + [g], rounds + [i];
    assert forall j :: 0 <= j < |s| ==> t[j] == s[j] && u[j] == rounds[j];
  }

  /** Slot `i` appears in the glyphs exactly when its colour was allocated. */
  lemma SlotDrawnIff(s: seq<Draw>, ok: int -> bool, n: int, i: int)
    requires DrawsSlots(s, Allocated(ok, n)) && 0 <= i < n
    ensures ok(i) <==> exists j :: 0 <= j < |s| && SlotOf(s[j]) == i
  {
    var r := Allocated(ok, n);
    AllocatedRounds(ok, n);
    if ok(i) {
      var j :| 0 <= j < |r| && r[j] == i;
      assert SlotOf(s[j]) == i;
    }
  }

  /**
   * A finished picture: the layout, with a line for exactly the allocated
   * rounds of the line loop, a mark for those of the mark loop and a glyph for
   * those of the glyph loop.
   */
  predicate Rendered(log: seq<Draw>, st: Settings, code: string, alloc: Allocator, a: int, b: int) {
    && Layout(log, st, code, a, b)
    && a == 1 + |Allocated(alloc.line, st.noiseLines)|
    && b - a == |Allocated(alloc.mark, st.noisePoints)|
    && DrawsSlots(log[b..], Allocated(alloc.glyph, st.codelen))
  }
}
