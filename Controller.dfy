/**
 * `TNC23Controller`: JSON responses for Nextcloud controllers and the check
 * that a public page is only served to clients asking for JSON.  The
 * request's Accept header and the session's logged-in flag are parameters.
 */
module Controller {
  import opened Wrappers
  import opened PhpStrings
  import opened PhpArrays

  const STATUS_OK: int := 200
  const STATUS_NOT_FOUND: int := 404

  /** A `DataResponse`: the payload array and the HTTP status. */
  datatype Response = Response(data: seq<Entry>, status: int)

  /** The exceptions `publicPageJsonLimited` throws. */
  datatype AccessError = NotLoggedIn | JsonNotRequested

  /** The media types that count as a JSON request. */
  const JsonTypes: seq<string> := [Json, "application/ld+json", "application/activity+json"]

  /** The plain JSON media type. */
  const Json: string := "application/json"

  /** `trimHeader($header)`: trimmed, then cut before the first ';'. */
  function TrimHeader(header: string): (r: string)
    ensures r <= Trim(header, Whitespace)
    ensures ';' !in r
    ensures ';' !in Trim(header, Whitespace) ==> r == Trim(header, Whitespace)
  {
    SplitFirst(';', Trim(header, Whitespace)).0
  }

  /** The Accept header's entries, each passed through `trimHeader`. */
  function Accepts(accept: string): (r: seq<string>)
    ensures |r| == |Explode(',', accept)|
    ensures forall i :: 0 <= i < |r| ==> r[i] == TrimHeader(Explode(',', accept)[i])
  {
    var parts := Explode(',', accept);
    seq(|parts|, i requires 0 <= i < |parts| => TrimHeader(parts[i]))
  }

  /** Some entry of the list is loosely one of the needles (`in_array` without the strict flag). */
  function AnyWithin(accepts: seq<string>, needles: seq<string>): (r: bool)
    ensures r <==> exists i :: 0 <= i < |accepts| && LooselyIn(accepts[i], needles)
  {
    if |accepts| == 0 then false
    else if LooselyIn(accepts[0], needles) then true
    else
      var r := AnyWithin(accepts[1..], needles);
      assert forall i :: 1 <= i < |accepts| ==> accepts[i] == accepts[1..][i - 1];
      r
  }

  /** `areWithinAcceptHeader($needles)`. */
  function AreWithinAcceptHeader(accept: string, needles: seq<string>): bool
  {
    AnyWithin(Accepts(accept), needles)
  }

  /** `jsonRequested()`. */
  predicate JsonRequested(accept: string)
  {
    AreWithinAcceptHeader(accept, JsonTypes)
  }

  /** `publicPageJsonLimited()`: passes exactly when JSON is asked for. */
  function PublicPageJsonLimited(accept: string, loggedIn: bool): (r: Result<(), AccessError>)
    ensures r.Success? <==> JsonRequested(accept)
    ensures r == Failure(NotLoggedIn) <==> !JsonRequested(accept) && !loggedIn
    ensures r == Failure(JsonNotRequested) <==> !JsonRequested(accept) && loggedIn
  {
    if !JsonRequested(accept) then
      if !loggedIn then Failure(NotLoggedIn) else Failure(JsonNotRequested)
    else Success(())
  }

  lemma AcceptsJoin(a: string, b: string)
    ensures Accepts(a + "," + b) == Accepts(a) + Accepts(b)
  {
    var whole := a + "," + b;
    assert Explode(',', whole) == Explode(',', a) + Explode(',', b) by {
      assert whole == a + [','] + b;
      ExplodeJoin(',', a, b);
    }
    AcceptsOfParts(whole, a, b);
  }

  /** The entries of a header whose parts are those of `a` then those of `b`. */
  lemma AcceptsOfParts(whole: string, a: string, b: string)
    requires Explode(',', whole) == Explode(',', a) + Explode(',', b)
    ensures Accepts(whole) == Accepts(a) + Accepts(b)
  {
    var pa, pb := Explode(',', a), Explode(',', b);
    var w, l, r := Accepts(whole), Accepts(a), Accepts(b);
    assert |w| == |l + r|;
    forall i | 0 <= i < |w|
      ensures w[i] == (l + r)[i]
    {
      assert w[i] == TrimHeader((pa + pb)[i]);
      if i < |pa| {
        assert (pa + pb)[i] == pa[i] && (l + r)[i] == l[i];
      } else {
        assert (pa + pb)[i] == pb[i - |pa|] && (l + r)[i] == r[i - |pa|];
      }
    }
  }

  /** An Accept header with two comma-separated halves matches when either half does. */
  lemma AcceptJoin(a: string, b: string, needles: seq<string>)
    ensures AreWithinAcceptHeader(a + "," + b, needles)
        <==> AreWithinAcceptHeader(a, needles) || AreWithinAcceptHeader(b, needles)
  {
    AcceptsJoin(a, b);
    AnyWithinAppend(Accepts(a), Accepts(b), needles);
  }

  lemma {:induction false} AnyWithinAppend(l: seq<string>, r: seq<string>, needles: seq<string>)
    ensures AnyWithin(l + r, needles) == (AnyWithin(l, needles) || AnyWithin(r, needles))
    decreases |l|
  {
    if |l| > 0 {
      assert (l + r)[0] == l[0];
      assert (l + r)[1..] == l[1..] + r;
      AnyWithinAppend(l[1..], r, needles);
    } else {
      assert l + r == r;
    }
  }

  /** An entry without blanks or parameters reads as itself. */
  lemma TrimHeaderBare(m: string)
    requires forall c :: c in m ==> c !in Whitespace && c != ';'
    ensures TrimHeader(m) == m
  {
    TrimNothing(m, Whitespace);
  }

  /** A media type given with parameters reads as the media type. */
  lemma TrimHeaderParams(m: string, params: string)
    requires forall c :: c in m ==> c !in Whitespace && c != ';'
    requires |m| > 0
    ensures TrimHeader(m + ";" + params) == m
  {
    var s := m + ";" + params;
    assert s[0] == m[0];
    assert TrimLeft(s, Whitespace) == s;
    var t := Trim(s, Whitespace);
    assert t == s[..|t|];
    assert s[|m|] == ';';
    assert |t| > |m|;
    assert t == m + [';'] + t[|m| + 1..];
    IndexOfAfter(m, ';', t[|m| + 1..]);
  }

  /** An entry without blanks, parameters or commas is read as a single entry, as written. */
  lemma AcceptsBare(m: string)
    requires forall c :: c in m ==> c !in Whitespace && c != ';' && c != ','
    ensures Accepts(m) == [m]
  {
    TrimHeaderBare(m);
    assert IndexOf(m, ',').None?;
  }

  /** The entry contains no blank, ';' or ','. */
  predicate Bare(m: string)
  {
    |m| == 0 || (m[0] !in Whitespace && m[0] != ';' && m[0] != ',' && Bare(m[1..]))
  }

  lemma {:induction false} BareChars(m: string)
    requires Bare(m)
    ensures forall c :: c in m ==> c !in Whitespace && c != ';' && c != ','
    decreases |m|
  {
    if |m| > 0 {
      BareChars(m[1..]);
      assert forall c :: c in m ==> c == m[0] || c in m[1..];
    }
  }

  /** Listing a needle as a whole entry anywhere in the header is a match. */
  lemma NeedleAmongOthers(before: string, t: string, after: string, needles: seq<string>)
    requires Bare(t) && t in needles
    ensures AreWithinAcceptHeader(before + "," + t + "," + after, needles)
  {
    BareChars(t);
    AcceptsBare(t);
    LooseEqualsReflexive(t);
    var rest := t + "," + after;
    assert AreWithinAcceptHeader(rest, needles) by {
      assert Accepts(t)[0] == t;
      AcceptJoin(t, after, needles);
    }
    assert before + "," + t + "," + after == before + "," + rest by {
      AppendAssoc(before + ",", t + ",", after);
      AppendAssoc(before + ",", t, ",");
    }
    AcceptJoin(before, rest, needles);
  }

  /** Lower-case letters, '/', '+', '.' and '-': what media type names are written with here. */
  predicate MediaChars(m: string)
  {
    |m| == 0 || ((('a' <= m[0] <= 'z') || m[0] == '/' || m[0] == '+' || m[0] == '.' || m[0] == '-') && MediaChars(m[1..]))
  }

  lemma {:induction false} MediaCharsBare(m: string)
    requires MediaChars(m)
    ensures Bare(m)
    decreases |m|
  {
    if |m| > 0 {
      MediaCharsBare(m[1..]);
    }
  }

  lemma JsonBare()
    ensures Bare(Json)
  {
    assert MediaChars("application/json");
    MediaCharsBare(Json);
  }

  /** `application/json` listed anywhere in the Accept header makes a JSON request. */
  lemma JsonAmongOthers(before: string, after: string)
    ensures JsonRequested(before + "," + Json + "," + after)
  {
    JsonBare();
    NeedleAmongOthers(before, Json, after, JsonTypes);
  }

  /** Against needles that are not numeric strings, the loose match is the exact one. */
  lemma AnyWithinExact(accepts: seq<string>, needles: seq<string>)
    requires forall k :: 0 <= k < |needles| ==> NumericValue(needles[k]).None?
    ensures AnyWithin(accepts, needles) <==> exists i :: 0 <= i < |accepts| && accepts[i] in needles
  {
    forall i | 0 <= i < |accepts|
      ensures LooselyIn(accepts[i], needles) <==> accepts[i] in needles
    {
      forall k | 0 <= k < |needles|
        ensures LooseEquals(needles[k], accepts[i]) <==> needles[k] == accepts[i]
      {
        LooseEqualsNonNumeric(needles[k], accepts[i]);
      }
    }
  }

  /** A JSON request is one whose Accept header lists one of the JSON types exactly. */
  lemma JsonRequestedExact(accept: string)
    ensures JsonRequested(accept) <==> exists i :: 0 <= i < |Accepts(accept)| && Accepts(accept)[i] in JsonTypes
  {
    JsonTypesNotNumeric(JsonTypes);
    AnyWithinExact(Accepts(accept), JsonTypes);
  }

  /** None of the JSON media types is a numeric string. */
  lemma JsonTypesNotNumeric(types: seq<string>)
    requires types == JsonTypes
    ensures forall k :: 0 <= k < |types| ==> NumericValue(types[k]).None?
  {
    forall k | 0 <= k < |types|
      ensures NumericValue(types[k]).None?
    {
      assert types[k][0] == 'a' by {
        assert k == 0 || k == 1 || k == 2;
      }
      LetterNotNumeric(types[k]);
    }
  }

  /** `success($data, $status, $code)`: with `$status`, a leading `'status' => 1`. */
  function SuccessResponse(data: seq<Entry>, status: bool, code: int): (r: Response)
    ensures r.status == code
    ensures !status ==> r.data == data
  {
    Response(if status then Merge([Entry(StrKey("status"), Int(1))], data) else data, code)
  }

  /** `fail($e, $data, $status)`: `'status' => -1` and the message under 'error', then the data. */
  function FailResponse(message: string, data: seq<Entry>, code: int): (r: Response)
    ensures r.status == code
  {
    Response(Merge([Entry(StrKey("status"), Int(-1)), Entry(StrKey("error"), Str(message))], data), code)
  }

  /** A successful payload reports status 1, unless the data sets its own 'status'. */
  lemma SuccessStatus(data: seq<Entry>, code: int)
    requires Distinct(data)
    ensures Lookup(SuccessResponse(data, true, code).data, StrKey("status"))
         == if StrKey("status") in Keys(data) then Lookup(data, StrKey("status")) else Some(Int(1))
  {
    MergeStrKey([Entry(StrKey("status"), Int(1))], data, "status");
  }

  /** A failure payload reports status -1 and the message, unless the data overrides them. */
  lemma FailStatus(message: string, data: seq<Entry>, code: int)
    requires Distinct(data)
    ensures StrKey("status") !in Keys(data)
            ==> Lookup(FailResponse(message, data, code).data, StrKey("status")) == Some(Int(-1))
    ensures StrKey("error") !in Keys(data)
            ==> Lookup(FailResponse(message, data, code).data, StrKey("error")) == Some(Str(message))
  {
    var head := [Entry(StrKey("status"), Int(-1)), Entry(StrKey("error"), Str(message))];
    MergeStrKey(head, data, "status");
    MergeStrKey(head, data, "error");
    LookupCons(head, StrKey("error"));
    LookupCons(head[1..], StrKey("error"));
  }

  /** A failure payload starts with the 'status' and 'error' keys, whatever the data. */
  lemma PayloadKeepsHead(data: seq<Entry>, message: string, code: int)
    ensures var ks := Keys(FailResponse(message, data, code).data);
            |ks| >= 2 && ks[0] == StrKey("status") && ks[1] == StrKey("error")
  {
    var head := [Entry(StrKey("status"), Int(-1)), Entry(StrKey("error"), Str(message))];
    MergeTwoKeys(StrKey("status"), Int(-1), StrKey("error"), Str(message));
    MergeAllKeepsPrefix(MergeAll([], head), data);
  }
}
