/**
 * The parts of the PHP runtime whose results the model cannot predict:
 * `mt_rand`, the `md5(uniqid(...))` identifier and the PNG bytes captured
 * from `imagepng`. Each is a nondeterministic choice constrained only by what
 * PHP documents about it. (GD's colour allocation is `Render.Allocator`.)
 */
module Runtime {
  import opened Php
  import opened Base64

  /** `mt_rand($min, $max)`: some integer in the range, both ends included. */
  method MtRand(lo: int, hi: int) returns (r: int)
    requires lo <= hi
    ensures lo <= r <= hi
  {
    r :| lo <= r <= hi;
  }

  const HexDigits := "0123456789abcdef"

  /** What `md5()` returns: 32 lower-case hexadecimal digits. */
  predicate IsMd5Hex(s: string) {
    |s| == 32 && forall i :: 0 <= i < |s| ==> s[i] in HexDigits
  }

  /** An md5 digest is never empty in PHP's sense (not "" and not "0"). */
  lemma Md5HexNotEmpty(s: string)
    requires IsMd5Hex(s)
    ensures !Empty(s)
  {
  }

  /** `md5(uniqid('captcha') . mt_rand(10000, 99999))`. */
  method FreshUniqid() returns (id: string)
    ensures IsMd5Hex(id)
  {
    var w := seq(32, _ => 'a');
    assert IsMd5Hex(w);
    id :| IsMd5Hex(id);
  }

  /** The bytes `ob_get_clean()` captures after `imagepng`, or None when it fails. */
  method CapturePng() returns (data: Option<seq<uint8>>) {
    var bytes: seq<uint8> := *;
    if * {
      data := Some(bytes);
    } else {
      data := None;
    }
  }
}
