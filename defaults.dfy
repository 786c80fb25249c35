/**
 * What the default configuration record means for the service: codes issued
 * under it, the override of the helper test's custom configuration, and the
 * rendering settings it yields.
 */
module DefaultBehaviour {
  import opened Php
  import opened Config
  import opened Render
  import opened Service

  /** The entries `makeCode` reads, as the defaults give them. */
  lemma DefaultIssueEntries(publicDir: string)
    ensures StrEntry(Defaults(publicDir), "charset") == Some(DefaultCharset)
    ensures IntEntry(Defaults(publicDir), "codelen") == Some(4)
  {
    DefaultNumbers(publicDir);
    DefaultStrings(publicDir);
    IssueEntriesOf(Defaults(publicDir));
  }

  lemma IssueEntriesOf(config: Assoc<Val>)
    requires Get(config, "charset") == Some(Str(DefaultCharset)) && Get(config, "codelen") == Some(Int(4))
    ensures StrEntry(config, "charset") == Some(DefaultCharset) && IntEntry(config, "codelen") == Some(4)
  {
  }

  /** Entries like the defaults' let `makeCode` generate an empty code without an exception. */
  lemma IssueSucceeds(config: Assoc<Val>, code: string, uniqid: string, n: int)
    requires Empty(code) && StrEntry(config, "charset") == Some(DefaultCharset) && IntEntry(config, "codelen") == Some(n)
    ensures IssueError(State(code, uniqid, config)).None?
  {
    DefaultCharsetShape();
  }

  /**
   * A code generated under the defaults has four characters of the default
   * alphabet, so it is never empty in PHP's sense and holds no look-alike, and
   * `codelen` (still 4) equals its length.
   */
  lemma DefaultCode(publicDir: string, s: State, t: State)
    requires s.config == Defaults(publicDir) && s.code == ""
    requires Issued(s, t)
    ensures |t.code| == 4 && !Empty(t.code)
    ensures forall j :: 0 <= j < |t.code| ==> t.code[j] in DefaultCharset && IsAlnum(t.code[j]) && t.code[j] !in Ambiguous
    ensures IntEntry(t.config, "codelen") == Some(|t.code|)
  {
    DefaultIssueEntries(publicDir);
    DefaultCharsetShape();
    forall j | 0 <= j < |t.code|
      ensures IsAlnum(t.code[j]) && t.code[j] !in Ambiguous
    {
      var k :| 0 <= k < |DefaultCharset| && DefaultCharset[k] == t.code[j];
    }
  }

  const CustomOverrides: Assoc<Val> := [("width", Int(200)), ("height", Int(80)), ("fontsize", Int(25)), ("codelen", Int(6))]

  lemma CustomOverridesKeys()
    ensures UniqueKeys(CustomOverrides)
    ensures Keys(CustomOverrides) == ["width", "height", "fontsize", "codelen"]
    ensures "charset" !in Keys(CustomOverrides)
    ensures Get(CustomOverrides, "codelen") == Some(Int(6))
    ensures Get(CustomOverrides, "width") == Some(Int(200))
    ensures Get(CustomOverrides, "height") == Some(Int(80))
  {
    var o := CustomOverrides;
    assert Keys(o)[0] == "width" && Keys(o)[1] == "height" && Keys(o)[2] == "fontsize" && Keys(o)[3] == "codelen";
    GetAt(o, 0);
    GetAt(o, 1);
    GetAt(o, 3);
  }

  /** An integer override is what the merged record reads. */
  lemma OverriddenInt(base: Assoc<Val>, overrides: Assoc<Val>, key: string, n: int)
    requires UniqueKeys(overrides) && Get(overrides, key) == Some(Int(n))
    ensures IntEntry(Merge(base, overrides), key) == Some(n)
  {
    MergeGet(base, overrides, key);
  }

  /** Overrides of `codelen`, `width` and `height` that leave the alphabet alone, merged over `base`. */
  lemma CustomEntries(base: Assoc<Val>, overrides: Assoc<Val>)
    requires Get(base, "charset") == Some(Str(DefaultCharset))
    requires UniqueKeys(overrides) && "charset" !in Keys(overrides)
    requires Get(overrides, "codelen") == Some(Int(6))
    requires Get(overrides, "width") == Some(Int(200)) && Get(overrides, "height") == Some(Int(80))
    ensures IntEntry(Merge(base, overrides), "codelen") == Some(6)
    ensures IntEntry(Merge(base, overrides), "width") == Some(200)
    ensures IntEntry(Merge(base, overrides), "height") == Some(80)
    ensures StrEntry(Merge(base, overrides), "charset") == Some(DefaultCharset)
  {
    OverriddenInt(base, overrides, "codelen", 6);
    OverriddenInt(base, overrides, "width", 200);
    OverriddenInt(base, overrides, "height", 80);
    MergeGet(base, overrides, "charset");
  }

  /** The configuration `captcha(['width' => 200, 'height' => 80, 'fontsize' => 25, 'codelen' => 6])` issues under. */
  lemma CustomConfig(publicDir: string)
    ensures IntEntry(Merge(Defaults(publicDir), CustomOverrides), "codelen") == Some(6)
    ensures IntEntry(Merge(Defaults(publicDir), CustomOverrides), "width") == Some(200)
    ensures IntEntry(Merge(Defaults(publicDir), CustomOverrides), "height") == Some(80)
    ensures StrEntry(Merge(Defaults(publicDir), CustomOverrides), "charset") == Some(DefaultCharset)
  {
    DefaultStrings(publicDir);
    CustomOverridesOver(Defaults(publicDir));
  }

  lemma CustomOverridesOver(base: Assoc<Val>)
    requires Get(base, "charset") == Some(Str(DefaultCharset))
    ensures IntEntry(Merge(base, CustomOverrides), "codelen") == Some(6)
    ensures IntEntry(Merge(base, CustomOverrides), "width") == Some(200)
    ensures IntEntry(Merge(base, CustomOverrides), "height") == Some(80)
    ensures StrEntry(Merge(base, CustomOverrides), "charset") == Some(DefaultCharset)
  {
    CustomOverridesKeys();
    CustomEntries(base, CustomOverrides);
  }

  /** Under that configuration the code has six characters of the default alphabet. */
  lemma CustomConfigCode(publicDir: string, s: State, t: State)
    requires s.config == Merge(Defaults(publicDir), CustomOverrides) && s.code == ""
    requires Issued(s, t)
    ensures |t.code| == 6
    ensures forall j :: 0 <= j < |t.code| ==> t.code[j] in DefaultCharset
  {
    CustomConfig(publicDir);
    GeneratedFromCharset(s, t);
  }

  /** The font of the defaults, once it is published under the public directory. */
  function DefaultFont(publicDir: string): string {
    PublicPath(publicDir, FontAsset)
  }

  /**
   * Rendering under the defaults: with the font published, a 130 x 50 canvas,
   * font size 20, four slots, 6 noise lines and 100 marks; without it, the
   * "font file not found" exception.
   */
  lemma DefaultSettings(publicDir: string, files: set<string>)
    ensures DefaultFont(publicDir) in files ==>
      Prepare(Defaults(publicDir), files) == Success(Settings(130, 50, DefaultFont(publicDir), 20, 4, 6, 100))
    ensures DefaultFont(publicDir) !in files ==>
      Prepare(Defaults(publicDir), files) == Failure(RuntimeException("CAPTCHA font file not found: " + DefaultFont(publicDir)))
  {
    DefaultNumbers(publicDir);
    DefaultStrings(publicDir);
    if DefaultFont(publicDir) in files {
      PrepareAccepts(Defaults(publicDir), files, Settings(130, 50, DefaultFont(publicDir), 20, 4, 6, 100));
    }
  }

  /**
   * The default record passes every check `createImage` makes before capturing,
   * once the font is published and the background colour is allocated, so only
   * the capture itself can still fail.
   */
  lemma DefaultRenders(publicDir: string, files: set<string>, alloc: Allocator)
    requires DefaultFont(publicDir) in files
    ensures alloc.background ==> RenderError(Defaults(publicDir), files, alloc) == None
    ensures !alloc.background ==>
      RenderError(Defaults(publicDir), files, alloc) == Some(RuntimeException("Failed to allocate background color"))
  {
    DefaultSettings(publicDir, files);
    assert !GdRefuses(130, 50);
  }

  /** A picture rendered under the defaults has at most 1 + 6 + 100 + 4 elements. */
  lemma DefaultPictureSize(publicDir: string, log: seq<Draw>, code: string, a: int, b: int)
    requires Layout(log, Settings(130, 50, DefaultFont(publicDir), 20, 4, 6, 100), code, a, b)
    ensures |log| <= 111
  {
    LayoutSize(log, Settings(130, 50, DefaultFont(publicDir), 20, 4, 6, 100), code, a, b);
  }
}
