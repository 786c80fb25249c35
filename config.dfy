/**
 * The package's default configuration record (`config/1bitcaptcha.php`): a
 * literal PHP array of nine entries. The font entry is
 * `public_path('vendor/1bitcaptcha/font/icon.ttf')`, a path the host
 * application resolves; it is a parameter here.
 */
module Config {
  import opened Php

  /** The default alphabet: letters and digits without the look-alikes. */
  const DefaultCharset := "abcdefghkmnprstuvwxyzABCDEFGHKMNPRSTUVWXYZ23456789"

  const FontAsset := "vendor/1bitcaptcha/font/icon.ttf"

  /** `public_path($path)`: the public directory of the host, then the path. */
  function PublicPath(publicDir: string, path: string): string {
    publicDir + "/" + path
  }

  /** The nine keys, in the order the file lists them. */
  const ConfigKeys := ["charset", "codelen", "width", "height", "font", "fontsize", "cachetime", "noise_lines", "noise_points"]

  function Defaults(publicDir: string): Assoc<Val> {
    [ ("charset", Str(DefaultCharset)),
      ("codelen", Int(4)),
      ("width", Int(130)),
      ("height", Int(50)),
      ("font", Str(PublicPath(publicDir, FontAsset))),
      ("fontsize", Int(20)),
      ("cachetime", Int(300)),
      ("noise_lines", Int(6)),
      ("noise_points", Int(100)) ]
  }

  /** The record holds exactly the nine keys, each once, in the file's order. */
  lemma DefaultKeys(publicDir: string)
    ensures Keys(Defaults(publicDir)) == ConfigKeys
    ensures UniqueKeys(Defaults(publicDir))
  {
    var d := Defaults(publicDir);
    assert forall i :: 0 <= i < |d| ==> Keys(d)[i] == ConfigKeys[i];
    ConfigKeysDistinct();
    assert forall i :: 0 <= i < |d| ==> d[i].0 == ConfigKeys[i];
  }

  /** The nine names differ: all but `charset` and `codelen` by length, those two by their second letter. */
  lemma ConfigKeysDistinct()
    ensures forall i, j :: 0 <= i < j < |ConfigKeys| ==> ConfigKeys[i] != ConfigKeys[j]
  {
    var lengths := [7, 7, 5, 6, 4, 8, 9, 11, 12];
    assert forall i :: 0 <= i < |ConfigKeys| ==> |ConfigKeys[i]| == lengths[i];
    assert ConfigKeys[0][1] != ConfigKeys[1][1];
  }

  /** The numeric defaults: a positive code length and canvas, as rendering needs. */
  lemma DefaultNumbers(publicDir: string)
    ensures var d := Defaults(publicDir);
      && Get(d, "codelen") == Some(Int(4))
      && Get(d, "width") == Some(Int(130))
      && Get(d, "height") == Some(Int(50))
      && Get(d, "fontsize") == Some(Int(20))
      && Get(d, "cachetime") == Some(Int(300))
      && Get(d, "noise_lines") == Some(Int(6))
      && Get(d, "noise_points") == Some(Int(100))
  {
    var d := Defaults(publicDir);
    DefaultKeys(publicDir);
    GetAt(d, 1);
    GetAt(d, 2);
    GetAt(d, 3);
    GetAt(d, 5);
    GetAt(d, 6);
    GetAt(d, 7);
    GetAt(d, 8);
  }

  lemma DefaultStrings(publicDir: string)
    ensures var d := Defaults(publicDir);
      && Get(d, "charset") == Some(Str(DefaultCharset))
      && Get(d, "font") == Some(Str(PublicPath(publicDir, FontAsset)))
  {
    DefaultKeys(publicDir);
    GetAt(Defaults(publicDir), 4);
  }

  // ---------------------------------------------------------------------------
  // The default alphabet

  const LowerBlock := "abcdefghkmnprstuvwxyz"
  const UpperBlock := "ABCDEFGHKMNPRSTUVWXYZ"
  const DigitBlock := "23456789"

  predicate Increasing(s: string) {
    forall i :: 0 <= i < |s| - 1 ==> s[i] < s[i + 1]
  }

  predicate Distinct(s: string) {
    forall i, j :: 0 <= i < j < |s| ==> s[i] != s[j]
  }

  lemma {:induction false} IncreasingIsDistinct(s: string)
    requires Increasing(s)
    ensures forall i, j :: 0 <= i < j < |s| ==> s[i] < s[j]
    decreases |s|
  {
    if |s| > 1 {
      IncreasingIsDistinct(s[1..]);
      forall j | 1 <= j < |s|
        ensures s[0] < s[j]
      {
        assert s[1..][j - 1] == s[j];
        if j > 1 {
          assert s[1..][0] < s[1..][j - 1];
        }
      }
    }
  }

  predicate Within(s: string, lo: char, hi: char) {
    forall i :: 0 <= i < |s| ==> lo <= s[i] <= hi
  }

  predicate AvoidsAll(s: string, bad: string) {
    forall i :: 0 <= i < |s| ==> s[i] !in bad
  }

  /** Joining two distinct strings that share no character keeps them distinct. */
  lemma ConcatDistinct(x: string, y: string)
    requires Distinct(x) && Distinct(y)
    requires forall i, j :: 0 <= i < |x| && 0 <= j < |y| ==> x[i] != y[j]
    ensures Distinct(x + y)
  {
    var s := x + y;
    forall i, j | 0 <= i < j < |s|
      ensures s[i] != s[j]
    {
      if j < |x| {
        assert s[i] == x[i] && s[j] == x[j];
      } else if i >= |x| {
        assert s[i] == y[i - |x|] && s[j] == y[j - |x|];
      } else {
        assert s[i] == x[i] && s[j] == y[j - |x|];
      }
    }
  }

  lemma {:induction false} ConcatWithin(x: string, y: string, lo: char, hi: char)
    requires Within(x, lo, hi) && Within(y, lo, hi)
    ensures Within(x + y, lo, hi)
  {
    forall i | 0 <= i < |x + y|
      ensures lo <= (x + y)[i] <= hi
    {
      if i < |x| {
        assert (x + y)[i] == x[i];
      } else {
        assert (x + y)[i] == y[i - |x|];
      }
    }
  }

  lemma CharsetSplit()
    ensures DefaultCharset == LowerBlock + UpperBlock + DigitBlock
  {
  }

  lemma LowerBlockOrdered()
    ensures Increasing(LowerBlock)
  {
  }

  lemma LowerBlockRange()
    ensures Within(LowerBlock, 'a', 'z')
  {
  }

  lemma LowerBlockClear()
    ensures AvoidsAll(LowerBlock, Ambiguous)
  {
  }

  lemma UpperBlockOrdered()
    ensures Increasing(UpperBlock)
  {
  }

  lemma UpperBlockRange()
    ensures Within(UpperBlock, 'A', 'Z')
  {
  }

  lemma UpperBlockClear()
    ensures AvoidsAll(UpperBlock, Ambiguous)
  {
  }

  lemma DigitBlockOrdered()
    ensures Increasing(DigitBlock)
  {
  }

  lemma DigitBlockRange()
    ensures Within(DigitBlock, '2', '9')
  {
  }

  lemma DigitBlockClear()
    ensures AvoidsAll(DigitBlock, Ambiguous)
  {
  }

  predicate IsAlnum(c: char) {
    'a' <= c <= 'z' || 'A' <= c <= 'Z' || '0' <= c <= '9'
  }

  /** The look-alike characters the default alphabet avoids. */
  const Ambiguous := "ijloqIJLOQ01"

  /**
   * The default alphabet has 50 distinct characters, all letters or the digits
   * 2 to 9, none of them a look-alike; in particular it is non-empty, so the
   * draw range `[0, strlen - 1]` of code generation is never empty.
   */
  lemma DefaultCharsetShape()
    ensures |DefaultCharset| == 50
    ensures Distinct(DefaultCharset)
    ensures forall i :: 0 <= i < |DefaultCharset| ==> IsAlnum(DefaultCharset[i])
    ensures AvoidsAll(DefaultCharset, Ambiguous)
  {
    CharsetSplit();
    LowerBlockOrdered();
    LowerBlockRange();
    LowerBlockClear();
    UpperBlockOrdered();
    UpperBlockRange();
    UpperBlockClear();
    DigitBlockOrdered();
    DigitBlockRange();
    DigitBlockClear();
    IncreasingIsDistinct(LowerBlock);
    IncreasingIsDistinct(UpperBlock);
    IncreasingIsDistinct(DigitBlock);
    var lu := LowerBlock + UpperBlock;
    ConcatDistinct(LowerBlock, UpperBlock);
    ConcatWithin(LowerBlock, UpperBlock, 'A', 'z');
    ConcatDistinct(lu, DigitBlock);
    var s := DefaultCharset;
    forall i | 0 <= i < |s|
      ensures IsAlnum(s[i]) && s[i] !in Ambiguous
    {
      if i < |LowerBlock| {
        assert s[i] == LowerBlock[i];
      } else if i < |lu| {
        assert s[i] == UpperBlock[i - |LowerBlock|];
      } else {
        assert s[i] == DigitBlock[i - |lu|];
      }
    }
  }
}
