/**
 * `Request`: an outgoing HTTP request description whose headers and data are
 * accumulated in place, with `:key` placeholders in the URL filled from the
 * string data.
 */
module RequestModel {
  import opened PhpStrings
  import opened PhpArrays

  const TYPE_GET := 0
  const TYPE_POST := 1
  const TYPE_PUT := 2
  const TYPE_DELETE := 3

  /** The URL after substituting every string data value for its `:key` placeholder, key by key. */
  function ParsedUrl(url: string, data: seq<Entry>): string
  {
    if |data| == 0 then url
    else
      var prev := ParsedUrl(url, data[..|data| - 1]);
      var e := data[|data| - 1];
      if e.val.Str? then StrReplace(":" + KeyString(e.key), e.val.s, prev) else prev
  }

  /** Data without string values leaves the URL as it is. */
  lemma {:induction false} ParsedUrlNoStrings(url: string, data: seq<Entry>)
    requires forall i :: 0 <= i < |data| ==> !data[i].val.Str?
    ensures ParsedUrl(url, data) == url
    decreases |data|
  {
    if |data| > 0 {
      ParsedUrlNoStrings(url, data[..|data| - 1]);
    }
  }

  /** A URL without ':' has no placeholder to fill. */
  lemma {:induction false} ParsedUrlNoColon(url: string, data: seq<Entry>)
    requires ':' !in url
    ensures ParsedUrl(url, data) == url
    decreases |data|
  {
    if |data| > 0 {
      ParsedUrlNoColon(url, data[..|data| - 1]);
      var e := data[|data| - 1];
      if e.val.Str? {
        NoColonNoPlaceholder(":" + KeyString(e.key), url);
      }
    }
  }

  lemma {:induction false} NoColonNoPlaceholder(search: string, s: string)
    requires |search| > 0 && search[0] == ':' && ':' !in s
    ensures !Contains(search, s)
    decreases |s|
  {
    if |s| > 0 {
      assert s[0] != ':';
      NoColonNoPlaceholder(search, s[1..]);
    }
  }

  /**
   * A URL holding one `:key` placeholder, with no other ':' before or after
   * it, gets the value in its place and is otherwise unchanged.
   */
  lemma ParsedUrlPlaceholder(pre: string, key: Key, v: string, post: string, url: string)
    requires ':' !in pre && ':' !in post
    requires url == pre + ":" + KeyString(key) + post
    ensures ParsedUrl(url, [Entry(key, Str(v))]) == pre + v + post
  {
    var search := ":" + KeyString(key);
    var data := [Entry(key, Str(v))];
    assert data[..0] == [];
    assert ParsedUrl(url, data) == StrReplace(search, v, url);
    assert !Contains(search, pre + search[..|search| - 1]) by {
      if Contains(search, pre + search[..|search| - 1]) {
        ContainsAfterColonFree(search, pre, search[..|search| - 1]);
        ContainsLength(search, search[..|search| - 1]);
      }
    }
    assert url == pre + search + post;
    StrReplaceFirst(search, v, pre, post);
    NoColonNoPlaceholder(search, post);
  }

  class Request {
    var address: string
    var url: string
    var requestType: int
    var headers: seq<Entry>
    var data: seq<Entry>
    var timeout: int
    var userAgent: string

    /** A new request keeps its URL and type; no headers, no data, a 10 s timeout. */
    constructor (url: string, requestType: int)
      ensures this.url == url && this.requestType == requestType
      ensures address == "" && headers == [] && data == [] && timeout == 10 && userAgent == ""
    {
      this.url := url;
      this.requestType := requestType;
      address := "";
      headers := [];
      data := [];
      timeout := 10;
      userAgent := "";
    }

    method SetAddress(address: string)
      modifies this`address
      ensures this.address == address
    {
      this.address := address;
    }

    /** `getParsedUrl()`: each data key in order, string values only. */
    method GetParsedUrl() returns (r: string)
      ensures r == ParsedUrl(url, data)
    {
      r := url;
      var i := 0;
      while i < |data|
        invariant 0 <= i <= |data|
        invariant r == ParsedUrl(url, data[..i])
      {
        var e := data[i];
        if e.val.Str? {
          r := StrReplace(":" + KeyString(e.key), e.val.s, r);
        }
        i := i + 1;
        assert data[..i][..i - 1] == data[..i - 1];
      }
      assert data[..i] == data;
    }

    /** `addHeader($header)`: appended after the earlier headers. */
    method AddHeader(header: Value)
      modifies this`headers
      ensures headers == Append(old(headers), header)
      ensures Values(headers) == Values(old(headers)) + [header]
    {
      headers := Append(headers, header);
    }

    method SetHeaders(headers: seq<Entry>)
      modifies this`headers
      ensures this.headers == headers
    {
      this.headers := headers;
    }

    method SetData(data: seq<Entry>)
      modifies this`data
      ensures this.data == data
    {
      this.data := data;
    }

    /** `addData($k, $v)`: one key written, the others kept. */
    method AddData(k: string, v: string)
      modifies this`data
      ensures data == Set(old(data), ToKey(k), Str(v))
    {
      data := Set(data, ToKey(k), Str(v));
    }

    /** `addDataInt($k, $v)`. */
    method AddDataInt(k: string, v: int)
      modifies this`data
      ensures data == Set(old(data), ToKey(k), Int(v))
    {
      data := Set(data, ToKey(k), Int(v));
    }

    method SetTimeout(timeout: int)
      modifies this`timeout
      ensures this.timeout == timeout
    {
      this.timeout := timeout;
    }

    method SetUserAgent(userAgent: string)
      modifies this`userAgent
      ensures this.userAgent == userAgent
    {
      this.userAgent := userAgent;
    }

    /** `jsonSerialize()`: exactly the keys host, url, timeout, type and data. */
    method JsonSerialize() returns (r: seq<Entry>)
      ensures Keys(r) == [StrKey("host"), StrKey("url"), StrKey("timeout"), StrKey("type"), StrKey("data")]
      ensures Values(r) == [Str(address), Str(url), Int(timeout), Int(requestType), Arr(data)]
    {
      r := [Entry(StrKey("host"), Str(address)), Entry(StrKey("url"), Str(url)),
            Entry(StrKey("timeout"), Int(timeout)), Entry(StrKey("type"), Int(requestType)),
            Entry(StrKey("data"), Arr(data))];
    }
  }
}
