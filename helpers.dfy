/**
 * The global helpers of `src/helpers.php`. `app('1bitcaptcha')` is a
 * singleton, so every helper receives the one shared service object.
 */
module Helpers {
  import opened Php
  import opened Base64
  import opened Store
  import opened Render
  import opened Service

  /**
   * `captcha($config)`: merge a non-empty override, issue a code, return the
   * attributes; `alloc` gives the outcome of each colour allocation. The
   * service is a singleton, so a merge, an identifier and a stored code
   * outlive a failure that comes after them.
   */
  method IssueCaptcha(svc: Captcha, config: Assoc<Val>, files: set<string>, alloc: Allocator)
    returns (r: Result<Attr, Exception>, ghost before: State, ghost png: seq<uint8>)
    modifies svc, svc.cache
    ensures before == State(old(svc.code), old(svc.uniqid), if |config| > 0 then Merge(old(svc.config), config) else old(svc.config))
    ensures IssueError(before).Some? ==> r == Failure(IssueError(before).value)
    ensures IssueError(before).None? && RenderError(svc.config, files, alloc).Some? ==>
      r == Failure(RenderError(svc.config, files, alloc).value)
    ensures IssueError(before).None? && RenderError(svc.config, files, alloc).None? ==> r.Success? || r == Failure(CaptureError)
    ensures IssueError(before).None? ==> Issued(before, svc.Snapshot())
    ensures IssueError(before).None? ==> svc.cache.entries == old(svc.cache.entries)[svc.uniqid := Text(svc.code)]
    ensures IssueError(before).None? ==> svc.cache.ttl == old(svc.cache.ttl)[svc.uniqid := CacheTime(svc.config)]
    ensures IssueError(before).Some? ==>
      && svc.code == before.code && svc.config == before.config && FreshOrKept(before.uniqid, svc.uniqid)
      && svc.img == old(svc.img)
      && svc.cache.entries == old(svc.cache.entries) && svc.cache.ttl == old(svc.cache.ttl)
    ensures r.Success? ==> r.value == Attr(svc.code, svc.uniqid, PngDataUri(png))
    ensures r.Success? ==> Prepare(svc.config, files).Success? && svc.img.Some?
    ensures r.Success? ==> exists a, b :: Rendered(svc.img.value.log, Prepare(svc.config, files).value, svc.code, alloc, a, b)
  {
    png := [];
    if |config| > 0 {
      svc.WithConfig(config);
    }
    before := svc.Snapshot();
    var err := svc.MakeCode();
    if err.Some? {
      return Failure(err.value), before, png;
    }
    r, png := svc.GetAttr(files, alloc);
  }

  /** `captcha_check($code, $uniqid)`: exactly the service's `check`. */
  method CaptchaCheck(svc: Captcha, code: string, uniqid: string) returns (ok: bool)
    modifies svc.cache
    ensures ok == Verdict(old(svc.cache.entries), code, uniqid)
    ensures Empty(uniqid) ==> svc.cache.entries == old(svc.cache.entries) && svc.cache.ttl == old(svc.cache.ttl)
    ensures !Empty(uniqid) ==> svc.cache.entries == old(svc.cache.entries) - {uniqid} && svc.cache.ttl == old(svc.cache.ttl) - {uniqid}
  {
    ok := svc.Check(code, uniqid);
  }

  // ---------------------------------------------------------------------------
  // captcha_img

  const DefaultImgId := "captcha-img"

  /** `$attributes['id'] = $id ?? 'captcha-img'; $attributes['src'] = $data;` */
  function ImgAttributes(id: Option<string>, attributes: Assoc<string>, src: string): Assoc<string> {
    Assign(Assign(attributes, "id", if id.Some? then id.value else DefaultImgId), "src", src)
  }

  /** One attribute as the loop writes it: `key="value" `, with no escaping. */
  function Pair(kv: (string, string)): (r: string)
    ensures |r| >= 4 && r[|r| - 2] == '"' && r[|r| - 1] == ' '
    ensures r[0] == if |kv.0| > 0 then kv.0[0] else '='
  {
    kv.0 + "=\"" + kv.1 + "\" "
  }

  /** The attribute string after the loop has visited every entry in order. */
  function AttributeText(attrs: Assoc<string>): (s: string)
    ensures |attrs| > 0 ==> |s| >= 4 && s[|s| - 2] == '"' && s[|s| - 1] == ' ' && s[0] == Pair(attrs[0])[0]
  {
    if |attrs| == 0 then "" else AttributeText(attrs[..|attrs| - 1]) + Pair(attrs[|attrs| - 1])
  }

  const HiddenPrefix := "<input type=\"hidden\" name=\"captcha_uniq\" value=\""

  function ImgHtml(attrs: Assoc<string>, uniq: string): string {
    "<img " + Trim(AttributeText(attrs)) + ">" + HiddenPrefix + uniq + "\">"
  }

  /** The string building of `captcha_img`, once the captcha has been issued. */
  method BuildImgHtml(id: Option<string>, attributes: Assoc<string>, data: string, uniq: string) returns (html: string)
    ensures html == ImgHtml(ImgAttributes(id, attributes, data), uniq)
  {
    var attrs := Assign(attributes, "id", if id.Some? then id.value else DefaultImgId);
    attrs := Assign(attrs, "src", data);
    var s := "";
    var i := 0;
    while i < |attrs|
      invariant 0 <= i <= |attrs|
      invariant s == AttributeText(attrs[..i])
    {
      AttributeTextSnoc(attrs, i);
      s := s + Pair(attrs[i]);
      i := i + 1;
    }
    assert attrs[..i] == attrs;
    html := "<img " + Trim(s) + ">";
    html := html + HiddenPrefix + uniq + "\">";
  }

  /** One more round of the loop appends the next pair. */
  lemma AttributeTextSnoc(attrs: Assoc<string>, i: int)
    requires 0 <= i < |attrs|
    ensures AttributeText(attrs[..i + 1]) == AttributeText(attrs[..i]) + Pair(attrs[i])
  {
    var p := attrs[..i + 1];
    assert p[..|p| - 1] == attrs[..i];
    assert p[|p| - 1] == attrs[i];
  }

  /**
   * `captcha_img($id, $attributes)`: issue with the configuration as it stands
   * (as `captcha()` does), then build the tags around the issued attributes.
   */
  method CaptchaImg(svc: Captcha, files: set<string>, alloc: Allocator, id: Option<string>, attributes: Assoc<string>)
    returns (r: Result<string, Exception>, ghost before: State, ghost png: seq<uint8>, ghost attr: Attr)
    modifies svc, svc.cache
    ensures before == State(old(svc.code), old(svc.uniqid), old(svc.config))
    ensures IssueError(before).Some? ==> r == Failure(IssueError(before).value)
    ensures IssueError(before).None? && RenderError(svc.config, files, alloc).Some? ==>
      r == Failure(RenderError(svc.config, files, alloc).value)
    ensures IssueError(before).None? && RenderError(svc.config, files, alloc).None? ==> r.Success? || r == Failure(CaptureError)
    ensures IssueError(before).None? ==> Issued(before, svc.Snapshot())
    ensures IssueError(before).None? ==> svc.cache.entries == old(svc.cache.entries)[svc.uniqid := Text(svc.code)]
    ensures IssueError(before).None? ==> svc.cache.ttl == old(svc.cache.ttl)[svc.uniqid := CacheTime(svc.config)]
    ensures IssueError(before).Some? ==>
      && svc.code == before.code && svc.config == before.config && FreshOrKept(before.uniqid, svc.uniqid)
      && svc.img == old(svc.img)
      && svc.cache.entries == old(svc.cache.entries) && svc.cache.ttl == old(svc.cache.ttl)
    ensures r.Success? ==> attr == Attr(svc.code, svc.uniqid, PngDataUri(png))
    ensures r.Success? ==> r.value == ImgHtml(ImgAttributes(id, attributes, attr.data), attr.uniq)
    ensures r.Success? ==> Prepare(svc.config, files).Success? && svc.img.Some?
    ensures r.Success? ==> exists a, b :: Rendered(svc.img.value.log, Prepare(svc.config, files).value, svc.code, alloc, a, b)
  {
    attr := Attr("", "", "");
    var issued;
    issued, before, png := IssueCaptcha(svc, [], files, alloc);
    if issued.Failure? {
      return Failure(issued.error), before, png, attr;
    }
    var captcha := issued.value;
    attr := captcha;
    var html := BuildImgHtml(id, attributes, captcha.data, captcha.uniq);
    r := Success(html);
  }

  // ---------------------------------------------------------------------------
  // What the tags contain

  /**
   * `id` is the given id (by default "captcha-img") and `src` the data URI,
   * whatever the caller passed under those keys; every other attribute is kept.
   */
  lemma ImgAttributesValues(id: Option<string>, attributes: Assoc<string>, src: string)
    ensures Get(ImgAttributes(id, attributes, src), "id") == Some(if id.Some? then id.value else DefaultImgId)
    ensures Get(ImgAttributes(id, attributes, src), "src") == Some(src)
    ensures forall k :: k != "id" && k != "src" ==> Get(ImgAttributes(id, attributes, src), k) == Get(attributes, k)
  {
  }

  /** Caller keys keep their order; `id` and `src` keep their places or are appended, in that order. */
  lemma ImgAttributesKeys(id: Option<string>, attributes: Assoc<string>, src: string)
    ensures var withId := if "id" in Keys(attributes) then Keys(attributes) else Keys(attributes) + ["id"];
      Keys(ImgAttributes(id, attributes, src)) == if "src" in withId then withId else withId + ["src"]
    ensures UniqueKeys(attributes) ==> UniqueKeys(ImgAttributes(id, attributes, src))
  {
    var v := if id.Some? then id.value else DefaultImgId;
    AssignKeys(attributes, "id", v);
    AssignKeys(Assign(attributes, "id", v), "src", src);
    if UniqueKeys(attributes) {
      AssignUnique(attributes, "id", v);
      AssignUnique(Assign(attributes, "id", v), "src", src);
    }
  }

  /** The attribute string is the attributes' pairs in order, read from the front. */
  lemma {:induction false} AttributeTextAppend(x: Assoc<string>, y: Assoc<string>)
    ensures AttributeText(x + y) == AttributeText(x) + AttributeText(y)
    decreases |y|
  {
    if |y| > 0 {
      var y' := y[..|y| - 1];
      assert (x + y)[..|x + y| - 1] == x + y';
      AttributeTextAppend(x, y');
    } else {
      assert x + y == x;
    }
  }

  lemma {:induction false} AttributeTextFront(attrs: Assoc<string>)
    requires |attrs| > 0
    ensures AttributeText(attrs) == Pair(attrs[0]) + AttributeText(attrs[1..])
    decreases |attrs|
  {
    var n := |attrs|;
    var init, rest := attrs[..n - 1], attrs[1..];
    if n == 1 {
      assert init == [] && rest == [];
    } else {
      AttributeTextFront(init);
      assert rest[..|rest| - 1] == init[1..];
      assert rest[|rest| - 1] == attrs[n - 1];
      assert init[0] == attrs[0];
    }
  }

  /**
   * `trim` removes exactly the one trailing space, provided the first key does
   * not itself start with a character `trim` strips.
   */
  lemma TrimmedAttributes(attrs: Assoc<string>)
    requires |attrs| > 0
    requires |attrs[0].0| == 0 || !IsTrimChar(attrs[0].0[0])
    ensures Trim(AttributeText(attrs)) + " " == AttributeText(attrs)
  {
    var s := AttributeText(attrs);
    TrimDropsTrailingSpace(s);
    assert s[..|s| - 1] + " " == s;
  }

  /** The markup is `<img …>` immediately followed by the hidden input carrying the identifier. */
  lemma ImgHtmlShape(attrs: Assoc<string>, uniq: string)
    requires |attrs| > 0
    requires |attrs[0].0| == 0 || !IsTrimChar(attrs[0].0[0])
    ensures ImgHtml(attrs, uniq) == "<img " + AttributeText(attrs)[..|AttributeText(attrs)| - 1] + ">" + HiddenPrefix + uniq + "\">"
  {
    TrimmedAttributes(attrs);
    var s := AttributeText(attrs);
    assert s[..|s| - 1] == Trim(s);
  }

  lemma DefaultAttributes(data: string)
    ensures ImgAttributes(None, [], data) == [("id", DefaultImgId), ("src", data)]
  {
    var a1: Assoc<string> := Assign([], "id", DefaultImgId);
    assert a1 == [("id", DefaultImgId)];
    assert a1[0].0 != "src" by {
      assert a1[0].0[0] != "src"[0];
    }
    assert a1[1..] == [];
    assert Assign(a1[1..], "src", data) == [("src", data)];
  }

  lemma TwoPairs(x: (string, string), y: (string, string))
    ensures AttributeText([x, y]) == Pair(x) + Pair(y)
  {
    assert [x][..0] == [];
    assert AttributeText([x]) == Pair(x);
    assert [x, y][..1] == [x];
    assert AttributeText([x, y]) == AttributeText([x]) + Pair(y);
  }

  /** The attribute string of the default call: `id="captcha-img" src="…"` and one space. */
  lemma DefaultAttributeText(data: string)
    ensures AttributeText(ImgAttributes(None, [], data)) == "id=\"captcha-img\" src=\"" + data + "\"" + " "
  {
    DefaultAttributes(data);
    TwoPairs(("id", DefaultImgId), ("src", data));
    assert Pair(("id", DefaultImgId)) == "id=\"captcha-img\" ";
  }

  lemma TrimOneSpace(core: string)
    requires |core| > 0 && !IsTrimChar(core[0]) && !IsTrimChar(core[|core| - 1])
    ensures Trim(core + " ") == core
  {
    var s := core + " ";
    assert s[..|s| - 1] == core;
    assert s[0] == core[0] && s[|s| - 2] == core[|core| - 1];
    TrimDropsTrailingSpace(s);
  }

  /** Regrouping a string built around `data` from literal pieces. */
  lemma Regroup(p: string, q: string, pq: string, data: string, r: string, s: string, rs: string)
    requires p + q == pq && r + s == rs
    ensures p + (q + data + r) + s == pq + data + rs
  {
    assert p + (q + data + r) + s == (p + q) + data + (r + s);
  }

  /** The default call `captcha_img()`: `<img id="captcha-img" src="…"><input …>`. */
  lemma DefaultImgHtml(data: string, uniq: string)
    ensures ImgHtml(ImgAttributes(None, [], data), uniq)
      == "<img " + "id=\"captcha-img\" src=\"" + data + "\">" + HiddenPrefix + uniq + "\">"
  {
    var core := "id=\"captcha-img\" src=\"" + data + "\"";
    DefaultAttributeText(data);
    TrimOneSpace(core);
    Regroup("<img ", "id=\"captcha-img\" src=\"", "<img " + "id=\"captcha-img\" src=\"", data, "\"", ">", "\">");
  }
}
