/**
 * The fragments of PHP's runtime that the captcha service relies on:
 * `empty()` on strings, `strtolower`, `trim`, and arrays with string keys
 * (ordered dictionaries) together with `$a[$k] = $v` and `array_merge`.
 *
 * PHP strings are byte strings; here a `string` is a sequence of characters,
 * each standing for one byte.
 */
module Php {

  datatype Option<T> = None | Some(value: T)

  datatype Result<T, E> = Success(value: T) | Failure(error: E)

  /** The exceptions the captcha service can raise or let through. */
  datatype Exception =
    | RuntimeException(message: string)
    | ValueError(message: string)
    | TypeError(key: string)        // a configuration entry of the wrong type under strict_types
    | PropertyTypeError(property: string) // a value of the wrong type assigned to a typed property
    | DivisionByZeroError

  /** The PHP values that appear in the captcha configuration. */
  datatype Val = Null | Int(i: int) | Str(s: string)

  // ---------------------------------------------------------------------------
  // empty()

  /** PHP's `empty()` on a string: true for "" and, notoriously, for "0". */
  predicate Empty(s: string) {
    s == "" || s == "0"
  }

  // ---------------------------------------------------------------------------
  // strtolower (ASCII only, as in PHP 8.2 and later)

  predicate IsUpper(c: char) {
    'A' <= c <= 'Z'
  }

  function LowerChar(c: char): char {
    if IsUpper(c) then (c as int + 32) as char else c
  }

  /** Same length, no upper-case letter left, each byte the same letter up to case. */
  function ToLower(s: string): (r: string)
    ensures |r| == |s|
    ensures forall i :: 0 <= i < |r| ==> !IsUpper(r[i]) && SameUpToCase(s[i], r[i])
  {
    seq(|s|, i requires 0 <= i < |s| => LowerChar(s[i]))
  }

  /** The comparison `strtolower($a) === strtolower($b)`. */
  predicate CaseEqual(a: string, b: string) {
    ToLower(a) == ToLower(b)
  }

  /** Independent reference: two bytes are the same letter up to ASCII case. */
  predicate SameUpToCase(x: char, y: char) {
    x == y || (IsUpper(x) && y as int == x as int + 32) || (IsUpper(y) && x as int == y as int + 32)
  }

  lemma LowerCharSame(x: char, y: char)
    ensures LowerChar(x) == LowerChar(y) <==> SameUpToCase(x, y)
  {
  }

  /** `strtolower` equality is exactly position-wise equality up to ASCII case. */
  lemma CaseEqualIff(a: string, b: string)
    ensures CaseEqual(a, b) <==> (|a| == |b| && forall i :: 0 <= i < |a| ==> SameUpToCase(a[i], b[i]))
  {
    if CaseEqual(a, b) {
      forall i | 0 <= i < |a|
        ensures SameUpToCase(a[i], b[i])
      {
        assert ToLower(a)[i] == ToLower(b)[i];
        LowerCharSame(a[i], b[i]);
      }
    }
    if |a| == |b| && forall i :: 0 <= i < |a| ==> SameUpToCase(a[i], b[i]) {
      forall i | 0 <= i < |a|
        ensures ToLower(a)[i] == ToLower(b)[i]
      {
        LowerCharSame(a[i], b[i]);
      }
    }
  }

  /** Lower-casing twice is lower-casing once. */
  lemma ToLowerIdempotent(s: string)
    ensures ToLower(ToLower(s)) == ToLower(s)
  {
  }

  /** `CaseEqual` is an equivalence relation. */
  lemma CaseEqualEquivalence(a: string, b: string, c: string)
    ensures CaseEqual(a, a)
    ensures CaseEqual(a, b) ==> CaseEqual(b, a)
    ensures CaseEqual(a, b) && CaseEqual(b, c) ==> CaseEqual(a, c)
  {
  }

  // ---------------------------------------------------------------------------
  // trim()

  /** The characters PHP's `trim` strips by default: " \t\n\r\0\x0B". */
  predicate IsTrimChar(c: char) {
    c == ' ' || c == '\t' || c == '\n' || c == '\r' || c as int == 0 || c as int == 11
  }

  function TrimLeft(s: string): (r: string)
    ensures |r| <= |s| && r == s[|s| - |r|..]
    ensures forall i :: 0 <= i < |s| - |r| ==> IsTrimChar(s[i])
    ensures |r| > 0 ==> !IsTrimChar(r[0])
    decreases |s|
  {
    if |s| > 0 && IsTrimChar(s[0]) then TrimLeft(s[1..]) else s
  }

  function TrimRight(s: string): (r: string)
    ensures |r| <= |s| && r == s[..|r|]
    ensures forall i :: |r| <= i < |s| ==> IsTrimChar(s[i])
    ensures |r| > 0 ==> !IsTrimChar(r[|r| - 1])
    decreases |s|
  {
    if |s| > 0 && IsTrimChar(s[|s| - 1]) then TrimRight(s[..|s| - 1]) else s
  }

  /** `trim`: the contracts of `TrimLeft` and `TrimRight` say what each end loses. */
  function Trim(s: string): string {
    TrimRight(TrimLeft(s))
  }

  /**
   * When a string neither starts with a trimmable character nor has one
   * before its single trailing space, `trim` removes just that space.
   */
  lemma {:induction false} TrimDropsTrailingSpace(s: string)
    requires |s| >= 2 && s[|s| - 1] == ' '
    requires !IsTrimChar(s[0]) && !IsTrimChar(s[|s| - 2])
    ensures Trim(s) == s[..|s| - 1]
  {
    assert TrimLeft(s) == s;
    var t := s[..|s| - 1];
    assert TrimRight(s) == TrimRight(t);
    assert TrimRight(t) == t;
  }

  // ---------------------------------------------------------------------------
  // Arrays with string keys

  /**
   * A PHP array with string keys: an ordered list of key/value pairs. Every
   * array PHP builds has distinct keys (`UniqueKeys`).
   */
  type Assoc<V> = seq<(string, V)>

  function Keys<V>(a: Assoc<V>): (ks: seq<string>)
    ensures |ks| == |a|
    ensures forall i :: 0 <= i < |a| ==> ks[i] == a[i].0
  {
    if |a| == 0 then [] else [a[0].0] + Keys(a[1..])
  }

  predicate UniqueKeys<V>(a: Assoc<V>) {
    forall i, j :: 0 <= i < j < |a| ==> a[i].0 != a[j].0
  }

  /** `$a[$k]`: the value stored under `k`, if any. */
  function Get<V>(a: Assoc<V>, k: string): (r: Option<V>)
    ensures r.Some? <==> k in Keys(a)
  {
    if |a| == 0 then None else if a[0].0 == k then Some(a[0].1) else Get(a[1..], k)
  }

  /** With distinct keys, `$a[$k]` reads the entry stored at the key's position. */
  lemma {:induction false} GetAt<V>(a: Assoc<V>, i: int)
    requires UniqueKeys(a) && 0 <= i < |a|
    ensures Get(a, a[i].0) == Some(a[i].1)
  {
    if i > 0 {
      assert a[0].0 != a[i].0;
      assert a[1..][i - 1] == a[i];
      GetAt(a[1..], i - 1);
    }
  }

  /** `$a[$k] = $v`: the key now maps to `v`, every other key keeps its value. */
  function Assign<V>(a: Assoc<V>, k: string, v: V): (r: Assoc<V>)
    ensures Get(r, k) == Some(v)
    ensures forall k' :: k' != k ==> Get(r, k') == Get(a, k')
  {
    if |a| == 0 then [(k, v)]
    else if a[0].0 == k then [(k, v)] + a[1..]
    else [a[0]] + Assign(a[1..], k, v)
  }

  /** An existing key keeps its position; a new key is appended at the end. */
  lemma {:induction false} AssignKeys<V>(a: Assoc<V>, k: string, v: V)
    ensures Keys(Assign(a, k, v)) == if k in Keys(a) then Keys(a) else Keys(a) + [k]
  {
    if |a| > 0 && a[0].0 != k {
      AssignKeys(a[1..], k, v);
      assert Assign(a, k, v) == [a[0]] + Assign(a[1..], k, v);
      assert Keys(Assign(a, k, v))[1..] == Keys(Assign(a[1..], k, v));
    }
  }

  lemma AssignUnique<V>(a: Assoc<V>, k: string, v: V)
    requires UniqueKeys(a)
    ensures UniqueKeys(Assign(a, k, v))
  {
    AssignKeys(a, k, v);
    var r := Assign(a, k, v);
    forall i, j | 0 <= i < j < |r|
      ensures r[i].0 != r[j].0
    {
      assert r[i].0 == Keys(r)[i] && r[j].0 == Keys(r)[j];
      if j < |a| {
        assert Keys(r)[i] == a[i].0 && Keys(r)[j] == a[j].0;
      } else {
        assert Keys(r)[i] == Keys(a)[i] && Keys(r)[j] == k && k !in Keys(a);
      }
    }
  }

  /**
   * `array_merge($a, $b)` for string keys: every key of `b` takes its value
   * from `b`, in order; keys of `a` keep their positions, new keys are appended.
   */
  function Merge<V>(a: Assoc<V>, b: Assoc<V>): (r: Assoc<V>)
    decreases |b|
  {
    if |b| == 0 then a else Merge(Assign(a, b[0].0, b[0].1), b[1..])
  }

  /** The override property of `array_merge`. */
  lemma {:induction false} MergeGet<V>(a: Assoc<V>, b: Assoc<V>, k: string)
    requires UniqueKeys(b)
    ensures Get(Merge(a, b), k) == if k in Keys(b) then Get(b, k) else Get(a, k)
    decreases |b|
  {
    if |b| > 0 {
      MergeGet(Assign(a, b[0].0, b[0].1), b[1..], k);
      if k == b[0].0 {
        assert k !in Keys(b[1..]);
      }
    }
  }

  /** The keys of `array_merge($a, $b)`: those of `a` first, in order, then only keys of `b`. */
  lemma {:induction false} MergeKeys<V>(a: Assoc<V>, b: Assoc<V>)
    ensures Keys(a) <= Keys(Merge(a, b))
    ensures forall k :: k in Keys(Merge(a, b)) <==> k in Keys(a) || k in Keys(b)
    decreases |b|
  {
    if |b| > 0 {
      var a' := Assign(a, b[0].0, b[0].1);
      AssignKeys(a, b[0].0, b[0].1);
      MergeKeys(a', b[1..]);
      assert Keys(b) == [b[0].0] + Keys(b[1..]);
    }
  }

  lemma {:induction false} MergeUnique<V>(a: Assoc<V>, b: Assoc<V>)
    requires UniqueKeys(a)
    ensures UniqueKeys(Merge(a, b))
    decreases |b|
  {
    if |b| > 0 {
      AssignUnique(a, b[0].0, b[0].1);
      MergeUnique(Assign(a, b[0].0, b[0].1), b[1..]);
    }
  }
}
