/**
 * The captcha service (`OneBit\Captcha\Services\Captcha`): a small state
 * machine over the code, the identifier, the configuration and the canvas,
 * talking to the application cache.
 *
 * Issuance (`makeCode`) is specified by the predicate `Issued` on snapshots of
 * the three fields; rendering (`createImage` and its helpers) by the predicate
 * `Rendered` of `Render`; verification (`check`) by the function `Verdict` on
 * the cache contents.
 */
module Service {
  import opened Php
  import opened Base64
  import opened Runtime
  import opened Store
  import opened Render

  /** The fields `makeCode` reads and writes. */
  datatype State = State(code: string, uniqid: string, config: Assoc<Val>)

  /** What `getAttr` returns: the keys `code`, `uniq` and `data`. */
  datatype Attr = Attr(code: string, uniq: string, data: string)

  function StrEntry(config: Assoc<Val>, key: string): Option<string> {
    var v: Option<Val> := Get(config, key);
    match v
    case Some(Str(s)) => Some(s)
    case _ => None
  }

  /** `$this->config['cachetime']`: a missing entry reads as null. */
  function CacheTime(config: Assoc<Val>): Val {
    var v: Option<Val> := Get(config, "cachetime");
    if v.Some? then v.value else Null
  }

  /** What `mt_rand(0, -1)` throws when the alphabet is empty. */
  const EmptyRange := ValueError("mt_rand(): Argument #2 ($max) must be greater than or equal to argument #1 ($min)")

  /** The exception `makeCode` raises from state `s`, if any. */
  function IssueError(s: State): Option<Exception> {
    if !Empty(s.code) then None
    else if StrEntry(s.config, "charset").None? then Some(TypeError("charset"))
    else if IntEntry(s.config, "codelen").None? then Some(TypeError("codelen"))
    else if IntEntry(s.config, "codelen").value > 0 && StrEntry(s.config, "charset").value == "" then Some(EmptyRange)
    else None
  }

  /** An identifier that is empty in PHP's sense is replaced by a fresh digest. */
  predicate FreshOrKept(before: string, after: string) {
    if Empty(before) then IsMd5Hex(after) else after == before
  }

  /** `code` is `prefix` followed by `n` characters drawn from `charset`. */
  predicate Drawn(prefix: string, charset: string, n: int, code: string) {
    && |code| == |prefix| + Times(n)
    && code[..|prefix|] == prefix
    && forall j :: |prefix| <= j < |code| ==> code[j] in charset
  }

  /**
   * A successful `makeCode` from `s` to `t`: the identifier is kept or made;
   * an empty code (including "0") gets `codelen` characters of `charset`
   * appended; any other code is kept and `codelen` becomes its length.
   */
  predicate Issued(s: State, t: State) {
    && IssueError(s).None?
    && FreshOrKept(s.uniqid, t.uniqid)
    && if Empty(s.code) then
         t.config == s.config
         && Drawn(s.code, StrEntry(s.config, "charset").value, IntEntry(s.config, "codelen").value, t.code)
       else
         t.code == s.code && t.config == Assign(s.config, "codelen", Int(|s.code|))
  }

  /**
   * `check`'s answer for the cache contents `entries`: the identifier is not
   * empty and holds a string equal to `c` after `strtolower` on both.
   */
  predicate Verdict(entries: map<string, CacheVal>, c: string, u: string) {
    !Empty(u) && u in entries && entries[u].Text? && CaseEqual(entries[u].s, c)
  }

  /** What `getImageData` throws when `ob_get_clean()` returns false. */
  const CaptureError := RuntimeException("Failed to capture image data")

  /**
   * The exception `createImage` raises before any bytes are captured, if any,
   * in its order: the configuration checks, GD's refusal of the canvas, the
   * background colour, then the slot width `width / codelen`.
   */
  function RenderError(config: Assoc<Val>, files: set<string>, alloc: Allocator): Option<Exception> {
    var prep := Prepare(config, files);
    if prep.Failure? then Some(prep.error)
    else if GdRefuses(prep.value.width, prep.value.height) then Some(PropertyTypeError("img"))
    else if !alloc.background then Some(RuntimeException("Failed to allocate background color"))
    else if prep.value.codelen == 0 then Some(DivisionByZeroError)
    else None
  }

  class Captcha {
    var code: string
    var uniqid: string
    var config: Assoc<Val>
    var img: Option<Image>
    const cache: Cache

    /** `new Captcha()`: the configuration is the application's `1bitcaptcha` record. */
    constructor(appConfig: Assoc<Val>, store: Cache)
      ensures code == "" && uniqid == "" && config == appConfig && img == None && cache == store
    {
      code := "";
      uniqid := "";
      config := appConfig;
      img := None;
      cache := store;
    }

    function Snapshot(): State
      reads this
    {
      State(code, uniqid, config)
    }

    function GetCode(): string
      reads this
    {
      code
    }

    function GetUniqid(): string
      reads this
    {
      uniqid
    }

    method WithCode(c: string)
      modifies this`code
      ensures code == c
    {
      code := c;
    }

    method WithUniqid(u: string)
      modifies this`uniqid
      ensures uniqid == u
    {
      uniqid := u;
    }

    /** Every supplied key takes the supplied value (see `MergeGet`). */
    method WithConfig(overrides: Assoc<Val>)
      modifies this`config
      ensures config == Merge(old(config), overrides)
    {
      config := Merge(config, overrides);
    }

    /**
     * `makeCode`: on success the fields move as `Issued` says and the cache
     * maps the identifier to the code; on an exception the identifier has
     * already been made, and nothing else has changed.
     */
    method MakeCode() returns (err: Option<Exception>)
      modifies this`code, this`uniqid, this`config, cache
      ensures err == IssueError(old(Snapshot()))
      ensures FreshOrKept(old(uniqid), uniqid)
      ensures err.None? ==> Issued(old(Snapshot()), Snapshot())
      ensures err.None? ==> cache.entries == old(cache.entries)[uniqid := Text(code)]
      ensures err.None? ==> cache.ttl == old(cache.ttl)[uniqid := CacheTime(config)]
      ensures err.Some? ==> code == old(code) && config == old(config)
      ensures err.Some? ==> cache.entries == old(cache.entries) && cache.ttl == old(cache.ttl)
    {
      ghost var s := Snapshot();
      if Empty(uniqid) {
        uniqid := FreshUniqid();
      }
      if Empty(code) {
        var cs := StrEntry(config, "charset");
        if cs.None? {
          return Some(TypeError("charset"));
        }
        var charset := cs.value;
        var length := |charset| - 1;
        var n := IntEntry(config, "codelen");
        if n.None? {
          return Some(TypeError("codelen"));
        }
        var i := 0;
        while i < n.value
          invariant 0 <= i <= Times(n.value)
          invariant length < 0 ==> i == 0
          invariant |code| == |s.code| + i
          invariant code[..|s.code|] == s.code
          invariant forall j :: |s.code| <= j < |code| ==> code[j] in charset
          invariant config == s.config && FreshOrKept(s.uniqid, uniqid)
          invariant cache.entries == old(cache.entries) && cache.ttl == old(cache.ttl)
        {
          if length < 0 {
            return Some(EmptyRange);
          }
          var k := MtRand(0, length);
          code := code + [charset[k]];
          i := i + 1;
        }
      } else {
        config := Assign(config, "codelen", Int(|code|));
      }
      cache.Put(uniqid, code, CacheTime(config));
      err := None;
    }

    // -------------------------------------------------------------------------
    // The rendering pipeline

    /**
     * `initializeImage`: GD refuses an oversized canvas, and assigning the
     * resulting `false` to the `object` property raises a TypeError; otherwise
     * a canvas of the configured size, filled with a light colour when the
     * background colour is allocated.
     */
    method InitializeImage(st: Settings, background: bool) returns (err: Option<Exception>)
      requires 0 < st.width < IntMax && 0 < st.height < IntMax
      modifies this`img
      ensures GdRefuses(st.width, st.height) ==> err == Some(PropertyTypeError("img")) && img == old(img)
      ensures !GdRefuses(st.width, st.height) ==> img.Some? && img.value.width == st.width && img.value.height == st.height
      ensures !GdRefuses(st.width, st.height) && background ==> err.None? && |img.value.log| == 1 && IsBackground(img.value.log[0], st)
      ensures !GdRefuses(st.width, st.height) && !background ==>
        err == Some(RuntimeException("Failed to allocate background color")) && img.value.log == []
    {
      if GdRefuses(st.width, st.height) {
        return Some(PropertyTypeError("img"));
      }
      img := Some(Image(st.width, st.height, []));
      var red := MtRand(220, 255);
      var green := MtRand(220, 255);
      var blue := MtRand(220, 255);
      if !background {
        return Some(RuntimeException("Failed to allocate background color"));
      }
      img := Some(Image(st.width, st.height, [FilledRectangle(0, 0, st.width, st.height, Rgb(red, green, blue))]));
      err := None;
    }

    /** `addNoiseLines`: one dark line for each round whose colour is allocated. */
    method AddNoiseLines(st: Settings, ok: int -> bool)
      requires img.Some? && st.width > 0 && st.height > 0
      modifies this`img
      ensures img.Some? && img.value.width == old(img.value.width) && img.value.height == old(img.value.height)
      ensures old(img.value.log) <= img.value.log
      ensures |img.value.log| == |old(img.value.log)| + |Allocated(ok, st.noiseLines)|
      ensures forall j :: |old(img.value.log)| <= j < |img.value.log| ==> IsNoiseLine(img.value.log[j], st)
    {
      ghost var start := img.value.log;
      var i := 0;
      while i < st.noiseLines
        invariant 0 <= i <= Times(st.noiseLines)
        invariant img.Some? && img.value.width == old(img.value.width) && img.value.height == old(img.value.height)
        invariant start <= img.value.log && |img.value.log| == |start| + |Allocated(ok, i)|
        invariant forall j :: |start| <= j < |img.value.log| ==> IsNoiseLine(img.value.log[j], st)
      {
        var red := MtRand(0, 50);
        var green := MtRand(0, 50);
        var blue := MtRand(0, 50);
        if ok(i) {
          var x1 := MtRand(0, st.width);
          var y1 := MtRand(0, st.height);
          var x2 := MtRand(0, st.width);
          var y2 := MtRand(0, st.height);
          img := Some(img.value.(log := img.value.log + [Line(x1, y1, x2, y2, Rgb(red, green, blue))]));
        }
        assert Allocated(ok, i + 1) == Allocated(ok, i) + if ok(i) then [i] else [];
        i := i + 1;
      }
    }

    /** `addNoisePoints`: one light `*` for each round whose colour is allocated. */
    method AddNoisePoints(st: Settings, ok: int -> bool)
      requires img.Some? && st.width > 0 && st.height > 0
      modifies this`img
      ensures img.Some? && img.value.width == old(img.value.width) && img.value.height == old(img.value.height)
      ensures old(img.value.log) <= img.value.log
      ensures |img.value.log| == |old(img.value.log)| + |Allocated(ok, st.noisePoints)|
      ensures forall j :: |old(img.value.log)| <= j < |img.value.log| ==> IsNoiseMark(img.value.log[j], st)
    {
      ghost var start := img.value.log;
      var i := 0;
      while i < st.noisePoints
        invariant 0 <= i <= Times(st.noisePoints)
        invariant img.Some? && img.value.width == old(img.value.width) && img.value.height == old(img.value.height)
        invariant start <= img.value.log && |img.value.log| == |start| + |Allocated(ok, i)|
        invariant forall j :: |start| <= j < |img.value.log| ==> IsNoiseMark(img.value.log[j], st)
      {
        var red := MtRand(200, 255);
        var green := MtRand(200, 255);
        var blue := MtRand(200, 255);
        if ok(i) {
          var font := MtRand(1, 5);
          var x := MtRand(0, st.width);
          var y := MtRand(0, st.height);
          img := Some(img.value.(log := img.value.log + [Chars(font, x, y, "*", Rgb(red, green, blue))]));
        }
        assert Allocated(ok, i + 1) == Allocated(ok, i) + if ok(i) then [i] else [];
        i := i + 1;
      }
    }

    /**
     * `renderText`: the slot width `width / codelen` divides by zero when
     * `codelen` is 0; otherwise one glyph for each slot whose colour is
     * allocated, slot `i` showing `$code[$i]`.
     */
    method RenderText(st: Settings, ok: int -> bool) returns (err: Option<Exception>)
      requires img.Some?
      modifies this`img
      ensures err.Some? <==> st.codelen == 0
      ensures err.Some? ==> err == Some(DivisionByZeroError) && img == old(img)
      ensures img.Some? && img.value.width == old(img.value.width) && img.value.height == old(img.value.height)
      ensures old(img.value.log) <= img.value.log
      ensures GlyphRun(img.value.log[|old(img.value.log)|..], st, code)
      ensures err.None? ==> DrawsSlots(img.value.log[|old(img.value.log)|..], Allocated(ok, st.codelen))
    {
      if st.codelen == 0 {
        return Some(DivisionByZeroError);
      }
      ghost var start := img.value.log;
      ghost var glyphs: seq<Draw> := [];
      var i := 0;
      while i < st.codelen
        invariant 0 <= i <= Times(st.codelen)
        invariant img.Some? && img.value.width == old(img.value.width) && img.value.height == old(img.value.height)
        invariant img.value.log == start + glyphs
        invariant GlyphRun(glyphs, st, code)
        invariant forall j :: 0 <= j < |glyphs| ==> SlotOf(glyphs[j]) < i
        invariant DrawsSlots(glyphs, Allocated(ok, i))
      {
        var red := MtRand(0, 156);
        var green := MtRand(0, 156);
        var blue := MtRand(0, 156);
        assert Allocated(ok, i + 1) == Allocated(ok, i) + if ok(i) then [i] else [];
        if ok(i) {
          var jitter := MtRand(1, 5);
          var angle := MtRand(-30, 30);
          var glyph := TtfText(st.fontsize, angle, i, jitter, Rgb(red, green, blue), st.font, CharAt(code, i));
          GlyphRunSnoc(glyphs, glyph, st, code, i);
          DrawsSlotsSnoc(glyphs, glyph, Allocated(ok, i), i);
          glyphs := glyphs + [glyph];
          img := Some(img.value.(log := img.value.log + [glyph]));
        }
        i := i + 1;
      }
      assert img.value.log[|start|..] == glyphs;
      err := None;
    }

    /** `getImageData`: the PNG bytes of the canvas, base64-encoded. */
    method GetImageData() returns (r: Result<string, Exception>, ghost png: seq<uint8>)
      requires img.Some?
      ensures r.Success? ==> r.value == Encode(png)
      ensures r.Failure? ==> r.error == CaptureError
    {
      var data := CapturePng();
      if data.None? {
        png := [];
        return Failure(CaptureError), png;
      }
      png := data.value;
      r := Success(Encode(data.value));
    }

    /**
     * `createImage`: the configuration checks come first, so a missing font
     * aborts before any canvas exists; then GD's refusal of an oversized
     * canvas, the background colour and the slot width, in that order. A
     * finished picture is `Render.Rendered` by the allocator's outcomes, with
     * its noise marks starting at `a` and its glyphs at `b`; after a clean
     * drawing only capturing the bytes can still fail.
     */
    method CreateImage(files: set<string>, alloc: Allocator) returns (r: Result<string, Exception>, ghost png: seq<uint8>, ghost a: int, ghost b: int)
      modifies this`img
      ensures Prepare(config, files).Failure? ==> r == Failure(Prepare(config, files).error) && img == old(img)
      ensures Prepare(config, files).Success? ==>
        var st := Prepare(config, files).value;
        && (GdRefuses(st.width, st.height) ==> r == Failure(PropertyTypeError("img")) && img == old(img))
        && (!GdRefuses(st.width, st.height) ==> img.Some? && img.value.width == st.width && img.value.height == st.height)
        && (!GdRefuses(st.width, st.height) && !alloc.background ==>
              r == Failure(RuntimeException("Failed to allocate background color")))
        && (!GdRefuses(st.width, st.height) && alloc.background && st.codelen == 0 ==> r == Failure(DivisionByZeroError))
        && (!GdRefuses(st.width, st.height) && alloc.background && st.codelen != 0 ==>
              r.Success? || r == Failure(CaptureError))
        && (r.Success? ==> Rendered(img.value.log, st, code, alloc, a, b) && r.value == Encode(png))
      ensures RenderError(config, files, alloc).Some? ==> r == Failure(RenderError(config, files, alloc).value)
      ensures RenderError(config, files, alloc).None? ==> r.Success? || r == Failure(CaptureError)
    {
      png, a, b := [], 0, 0;
      var prep := Prepare(config, files);
      if prep.Failure? {
        return Failure(prep.error), png, a, b;
      }
      var st := prep.value;
      var err := InitializeImage(st, alloc.background);
      if err.Some? {
        return Failure(err.value), png, a, b;
      }
      ghost var init := img.value.log;
      AddNoiseLines(st, alloc.line);
      ghost var lines := img.value.log;
      AddNoisePoints(st, alloc.mark);
      ghost var marks := img.value.log;
      err := RenderText(st, alloc.glyph);
      if err.Some? {
        return Failure(err.value), png, a, b;
      }
      LayoutOfPhases(init, lines, marks, img.value.log, st, code);
      a, b := |lines|, |marks|;
      r, png := GetImageData();
    }

    /** `getData`: the picture as a `data:image/png;base64,` URI; it fails exactly as `createImage` does. */
    method GetData(files: set<string>, alloc: Allocator) returns (r: Result<string, Exception>, ghost png: seq<uint8>, ghost a: int, ghost b: int)
      modifies this`img
      ensures Prepare(config, files).Failure? ==> r == Failure(Prepare(config, files).error)
      ensures r.Success? ==> Prepare(config, files).Success? && img.Some?
      ensures r.Success? ==> Rendered(img.value.log, Prepare(config, files).value, code, alloc, a, b)
      ensures r.Success? ==> r.value == PngDataUri(png)
      ensures RenderError(config, files, alloc).Some? ==> r == Failure(RenderError(config, files, alloc).value)
      ensures RenderError(config, files, alloc).None? ==> r.Success? || r == Failure(CaptureError)
    {
      var image;
      image, png, a, b := CreateImage(files, alloc);
      if image.Failure? {
        return Failure(image.error), png, a, b;
      }
      r := Success(PngDataPrefix + image.value);
    }

    /** `getAttr`: the code and identifier as `getCode`/`getUniqid` return them, and the picture. */
    method GetAttr(files: set<string>, alloc: Allocator) returns (r: Result<Attr, Exception>, ghost png: seq<uint8>)
      modifies this`img
      ensures Prepare(config, files).Failure? ==> r == Failure(Prepare(config, files).error)
      ensures r.Success? ==> r.value == Attr(GetCode(), GetUniqid(), PngDataUri(png))
      ensures r.Success? ==> Prepare(config, files).Success? && img.Some?
      ensures r.Success? ==> exists a, b :: Rendered(img.value.log, Prepare(config, files).value, code, alloc, a, b)
      ensures RenderError(config, files, alloc).Some? ==> r == Failure(RenderError(config, files, alloc).value)
      ensures RenderError(config, files, alloc).None? ==> r.Success? || r == Failure(CaptureError)
    {
      var data;
      ghost var a, b;
      data, png, a, b := GetData(files, alloc);
      if data.Failure? {
        return Failure(data.error), png;
      }
      r := Success(Attr(code, uniqid, data.value));
    }

    /** `check`: an empty identifier is refused untouched; any other is pulled, then compared. */
    method Check(c: string, u: string) returns (ok: bool)
      modifies cache
      ensures ok == Verdict(old(cache.entries), c, u)
      ensures Empty(u) ==> cache.entries == old(cache.entries) && cache.ttl == old(cache.ttl)
      ensures !Empty(u) ==> cache.entries == old(cache.entries) - {u} && cache.ttl == old(cache.ttl) - {u}
    {
      if Empty(u) {
        return false;
      }
      var v := cache.Pull(u);
      ok := v.Some? && v.value.Text? && CaseEqual(v.value.s, c);
    }
  }

  // ---------------------------------------------------------------------------
  // Issuance

  /** After issuance the identifier is never empty, so `check` will look it up. */
  lemma IssuedId(s: State, t: State)
    requires FreshOrKept(s.uniqid, t.uniqid)
    ensures !Empty(t.uniqid)
    ensures !Empty(s.uniqid) ==> t.uniqid == s.uniqid
  {
    if Empty(s.uniqid) {
      Md5HexNotEmpty(t.uniqid);
    }
  }

  /**
   * Unless the code was the string "0", issuance leaves the code exactly
   * `codelen` long (a non-negative `codelen` when the code is generated), and
   * no configuration entry other than `codelen` changes.
   */
  lemma IssuedCodeLength(s: State, t: State)
    requires Issued(s, t) && s.code != "0"
    requires !Empty(s.code) || IntEntry(s.config, "codelen").value >= 0
    ensures IntEntry(t.config, "codelen") == Some(|t.code|)
    ensures forall k :: k != "codelen" ==> Get(t.config, k) == Get(s.config, k)
  {
    if !Empty(s.code) {
      assert Get(t.config, "codelen") == Some(Int(|s.code|));
    }
  }

  /** A generated code consists of characters of the configured alphabet. */
  lemma GeneratedFromCharset(s: State, t: State)
    requires Issued(s, t) && s.code == ""
    ensures |t.code| == Times(IntEntry(s.config, "codelen").value)
    ensures forall j :: 0 <= j < |t.code| ==> t.code[j] in StrEntry(s.config, "charset").value
  {
  }

  /**
   * The "0" quirk: `empty("0")` holds, so the preset code "0" takes the
   * generation branch and the loop appends to it, leaving `codelen + 1`
   * characters that start with '0', while `codelen` is not updated.
   */
  lemma PresetZeroQuirk(s: State, t: State, n: int)
    requires Issued(s, t) && s.code == "0"
    requires IntEntry(s.config, "codelen") == Some(n) && n >= 0
    ensures |t.code| == n + 1 && t.code[0] == '0'
    ensures IntEntry(t.config, "codelen") == Some(n)
  {
    assert Empty(s.code);
    assert t.config == s.config;
    var charset := StrEntry(s.config, "charset").value;
    assert Drawn(s.code, charset, n, t.code);
    assert t.code[..1] == "0";
    assert t.code[0] == t.code[..1][0];
  }

  /**
   * A second `makeCode` keeps both the code and the identifier when the first
   * left a non-empty code; the configuration reads the same as well unless the
   * first call hit the "0" quirk.
   */
  lemma IssueTwice(s: State, t: State, u: State)
    requires Issued(s, t) && Issued(t, u) && !Empty(t.code)
    ensures u.code == t.code && u.uniqid == t.uniqid
    ensures IntEntry(t.config, "codelen") == Some(|t.code|) ==> forall k :: Get(u.config, k) == Get(t.config, k)
  {
    IssuedId(s, t);
    if IntEntry(t.config, "codelen") == Some(|t.code|) {
      forall k
        ensures Get(u.config, k) == Get(t.config, k)
      {
        if k == "codelen" {
          var v: Option<Val> := Get(t.config, "codelen");
          assert v == Some(Int(|t.code|)) by {
            match v
            case Some(Int(_)) =>
            case _ =>
          }
        }
      }
    }
  }

  /**
   * What `IssueTwice` rules out: an alphabet holding '0' can generate the
   * code "0", which `empty` then treats as unset, so the next `makeCode`
   * appends to it instead of keeping it.
   */
  lemma IssueTwiceZero(s: State, t: State, u: State)
    requires s.code == "" && StrEntry(s.config, "charset") == Some("0") && IntEntry(s.config, "codelen") == Some(1)
    requires Issued(s, t) && Issued(t, u)
    ensures t.code == "0" && Empty(t.code)
    ensures |u.code| == 2 && u.code != t.code
  {
    GeneratedFromCharset(s, t);
    assert t.code[0] in "0";
    assert t.code == "0";
    assert t.config == s.config;
    PresetZeroQuirk(t, u, 1);
  }

  // ---------------------------------------------------------------------------
  // Verification

  /** `check`'s answer against an independent statement of ASCII case-insensitivity. */
  lemma VerdictMeaning(entries: map<string, CacheVal>, c: string, u: string)
    ensures Verdict(entries, c, u) <==>
      && !Empty(u) && u in entries && entries[u].Text?
      && |entries[u].s| == |c|
      && forall i :: 0 <= i < |c| ==> SameUpToCase(entries[u].s[i], c[i])
  {
    if u in entries && entries[u].Text? {
      CaseEqualIff(entries[u].s, c);
    }
  }

  /** Consumption: once `check` has pulled an identifier, every later check of it fails. */
  lemma SecondCheckFails(entries: map<string, CacheVal>, u: string, c: string)
    ensures !Verdict(entries - {u}, c, u)
  {
  }

  /**
   * What was issued verifies once: right after `makeCode` stored the code,
   * any spelling of it that differs only in ASCII case is accepted, and once
   * that check has consumed the entry the same answer is refused.
   */
  lemma IssuedCodeVerifiesOnce(s: State, t: State, entries: map<string, CacheVal>, answer: string)
    requires Issued(s, t) && CaseEqual(answer, t.code)
    ensures Verdict(entries[t.uniqid := Text(t.code)], answer, t.uniqid)
    ensures !Verdict(entries[t.uniqid := Text(t.code)] - {t.uniqid}, answer, t.uniqid)
  {
    IssuedId(s, t);
  }

  /** The examples the package's own tests use: "TEST123" is accepted as "test123", "WRONG" is not. */
  lemma CheckExamples()
    ensures Verdict(map["test-unique-id-123" := Text("TEST123")], "test123", "test-unique-id-123")
    ensures !Verdict(map["test-unique-id-123" := Text("TEST123")], "WRONG", "test-unique-id-123")
    ensures !Verdict(map["0" := Text("TEST123")], "TEST123", "0")
    ensures !Verdict(map["id" := Other], "TEST123", "id")
  {
    var e := map["test-unique-id-123" := Text("TEST123")];
    VerdictMeaning(e, "test123", "test-unique-id-123");
    VerdictMeaning(e, "WRONG", "test-unique-id-123");
  }
}
