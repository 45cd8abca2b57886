/**
 * The text formats of HTTP signatures (draft-cavage-http-signatures,
 * sections 2.1 and 2.3): the `Signature` header as the sender writes it and
 * as the receiver reads it back into a map, the lines of the signing string,
 * and the algorithm labels.
 */
module SignatureText {
  import opened Wrappers
  import opened PhpStrings
  import opened PhpArrays
  import opened Signatories

  /** A double quote at `i`, at least one other character, then a closing double quote. */
  predicate QuotedRunAt(v: string, i: nat)
  {
    i + 1 < |v| && v[i] == '"' && v[i + 1] != '"' && '"' in v[i + 1..]
  }

  /**
   * `preg_match('/"([^"]+)"/', $v)` followed by trimming the quotes: the
   * text of the leftmost quoted run, if there is one.
   */
  function Quoted(v: string): (r: Option<string>)
    ensures r.Some? <==> exists i :: 0 <= i < |v| && QuotedRunAt(v, i)
    ensures r.Some? ==> |r.value| > 0 && '"' !in r.value
    decreases |v|
  {
    if |v| == 0 then None
    else if QuotedRunAt(v, 0) then
      var j := IndexOf(v[1..], '"').value;
      Some(v[1..][..j])
    else
      QuotedShift(v);
      Quoted(v[1..])
  }

  /** Past a first character that starts no run, the runs are those of the rest. */
  lemma QuotedShift(v: string)
    requires |v| > 0 && !QuotedRunAt(v, 0)
    ensures (exists i :: 0 <= i < |v| && QuotedRunAt(v, i)) <==> (exists i :: 0 <= i < |v[1..]| && QuotedRunAt(v[1..], i))
  {
    forall i | 1 <= i < |v| ensures QuotedRunAt(v, i) == QuotedRunAt(v[1..], i - 1) {
      assert v[1..][i - 1 + 1..] == v[i + 1..];
    }
    if exists i :: 0 <= i < |v[1..]| && QuotedRunAt(v[1..], i) {
      var i :| 0 <= i < |v[1..]| && QuotedRunAt(v[1..], i);
      assert QuotedRunAt(v, i + 1);
    }
  }

  /** The value the parser keeps for one entry: the quoted text, or the raw text. */
  function EntryValue(raw: string): string
  {
    match Quoted(raw)
    case Some(q) => q
    case None => raw
  }

  /**
   * One comma-separated entry of the header: kept only when it has an '='
   * after its first character; split at the first '='.
   */
  function ParseEntry(entry: string): (r: Option<(string, string)>)
    ensures r.Some? <==> '=' in entry && entry[0] != '='
    ensures r.Some? ==> |r.value.0| > 0 && '=' !in r.value.0
    ensures r.Some? ==> exists raw :: entry == r.value.0 + "=" + raw && r.value.1 == EntryValue(raw)
  {
    match IndexOf(entry, '=')
    case None => None
    case Some(i) =>
      if i == 0 then None
      else
        var raw := entry[i + 1..];
        assert entry == entry[..i] + "=" + raw;
        Some((entry[..i], EntryValue(raw)))
  }

  /** The entries parsed in order into a map; a later entry with the same key overwrites. */
  function ParseEntries(entries: seq<string>): (r: seq<Entry>)
    ensures Distinct(r)
    ensures forall e :: e in r ==> e.val.Str?
  {
    if |entries| == 0 then []
    else
      var acc := ParseEntries(entries[..|entries| - 1]);
      match ParseEntry(entries[|entries| - 1])
      case None => acc
      case Some((k, v)) =>
        var r := Set(acc, ToKey(k), Str(v));
        forall e | e in r ensures e.val.Str? {
          var i :| 0 <= i < |r| && r[i] == e;
          assert Lookup(r, e.key).Some?;
          if e.key != ToKey(k) {
            assert Lookup(acc, e.key) == Lookup(r, e.key);
            SomeLookupIsEntry(acc, e.key);
          }
          SomeLookupIsEntry(r, e.key);
          DistinctEntry(r, i);
        }
        r
  }

  /** Parsing the first `i + 1` entries parses the first `i`, then sets the next one when it is kept. */
  lemma ParseEntriesPrefix(entries: seq<string>, i: nat)
    requires i < |entries|
    ensures ParseEntries(entries[..i + 1])
         == match ParseEntry(entries[i])
            case None => ParseEntries(entries[..i])
            case Some((k, v)) => Set(ParseEntries(entries[..i]), ToKey(k), Str(v))
  {
    assert entries[..i + 1][..i] == entries[..i];
  }

  /** In an array, the entry at a position is the one its key looks up. */
  lemma DistinctEntry(es: seq<Entry>, i: nat)
    requires Distinct(es) && i < |es|
    ensures Lookup(es, es[i].key) == Some(es[i].val)
  {
    var f := Find(es, es[i].key);
    assert f.Some? by { assert Keys(es)[i] == es[i].key; }
    assert f.value == i;
  }

  /** A key that is found looks up the value of some entry under it. */
  lemma SomeLookupIsEntry(es: seq<Entry>, k: Key)
    requires Lookup(es, k).Some?
    ensures Entry(k, Lookup(es, k).value) in es
  {
  }

  /** `setIncomingSignatureHeader`: the header split on ',' and parsed entry by entry. */
  function ParseSignatureHeader(header: string): (r: seq<Entry>)
    ensures Distinct(r)
  {
    ParseEntries(Explode(',', header))
  }

  /** One `name="value"` element of the header the sender writes. */
  function HeaderElement(name: string, value: string): string
  {
    name + "=\"" + value + "\""
  }

  /** The `Signature` header `signingOutgoingRequest` attaches. */
  function ComposeSignatureHeader(keyId: string, algorithm: string, headers: string, signature: string): string
  {
    Implode(",", Elements(SignatureParameters, [keyId, algorithm, headers, signature]))
  }

  /** The parameters of the `Signature` header, in the order the sender writes them. */
  const SignatureParameters: seq<string> := ["keyId", "algorithm", "headers", "signature"]

  /** The map the receiver should rebuild from a composed header. */
  function ComposedMap(keyId: string, algorithm: string, headers: string, signature: string): seq<Entry>
  {
    [Entry(StrKey("keyId"), Str(keyId)), Entry(StrKey("algorithm"), Str(algorithm)),
     Entry(StrKey("headers"), Str(headers)), Entry(StrKey("signature"), Str(signature))]
  }

  /** A value that survives being written between quotes in the header. */
  predicate HeaderSafe(v: string)
  {
    |v| > 0 && ',' !in v && '"' !in v
  }

  /** A quoted non-empty value without quotes reads back as itself. */
  lemma EntryValueQuoted(v: string)
    requires |v| > 0 && '"' !in v
    ensures EntryValue("\"" + v + "\"") == v
  {
    var raw := "\"" + v + "\"";
    assert raw[1..] == v + "\"";
    assert raw[1] == v[0];
    assert raw[|raw| - 1] == '"';
    assert QuotedRunAt(raw, 0);
    IndexOfAfter(v, '"', "");
    assert v + "\"" == v + ['"'] + "";
    assert raw[1..][..|v|] == v;
  }

  /** One element the sender writes is parsed back into its name and value. */
  lemma ParseHeaderElement(name: string, v: string)
    requires |name| > 0 && '=' !in name
    requires |v| > 0 && '"' !in v
    ensures ParseEntry(HeaderElement(name, v)) == Some((name, v))
  {
    var e := HeaderElement(name, v);
    var raw := "\"" + v + "\"";
    assert e == name + ['='] + raw;
    IndexOfAfter(name, '=', raw);
    assert e[..|name|] == name && e[|name| + 1..] == raw;
    EntryValueQuoted(v);
  }

  /** Setting a key that is not there yet appends it. */
  lemma SetNew(es: seq<Entry>, k: Key, v: Value)
    requires k !in Keys(es)
    ensures Set(es, k, v) == es + [Entry(k, v)]
  {
  }

  /**
   * Round trip: the header the sender composes is parsed by the receiver
   * into exactly its four parameters, provided each value is non-empty and
   * has no ',' and no '"'.
   */
  lemma ParseComposed(keyId: string, algorithm: string, headers: string, signature: string)
    requires HeaderSafe(keyId) && HeaderSafe(algorithm) && HeaderSafe(headers) && HeaderSafe(signature)
    ensures ParseSignatureHeader(ComposeSignatureHeader(keyId, algorithm, headers, signature))
         == ComposedMap(keyId, algorithm, headers, signature)
  {
    var ns, vs := SignatureParameters, [keyId, algorithm, headers, signature];
    ParameterNames();
    ElementsExplode(ns, vs);
    ParseAll(ns, vs);
    FourParams(ns[0], ns[1], ns[2], ns[3], keyId, algorithm, headers, signature);
  }

  /** Elements whose names and values hold no ',' come apart again at the commas. */
  lemma ElementsExplode(ns: seq<string>, vs: seq<string>)
    requires 0 < |ns| == |vs|
    requires forall i :: 0 <= i < |ns| ==> ',' !in ns[i] && ',' !in vs[i]
    ensures Explode(',', Implode(",", Elements(ns, vs))) == Elements(ns, vs)
  {
    var parts := Elements(ns, vs);
    forall i | 0 <= i < |parts| ensures ',' !in parts[i] {
      assert parts[i] == ns[i] + "=\"" + vs[i] + "\"";
    }
    assert "," == [','];
    ExplodeImplode(',', parts);
  }

  /** Four names and values, written out. */
  lemma FourParams(n0: string, n1: string, n2: string, n3: string, v0: string, v1: string, v2: string, v3: string)
    ensures Params([n0, n1, n2, n3], [v0, v1, v2, v3])
         == [Entry(StrKey(n0), Str(v0)), Entry(StrKey(n1), Str(v1)), Entry(StrKey(n2), Str(v2)), Entry(StrKey(n3), Str(v3))]
  {
  }

  /** A parameter name: non-empty, no '=', not read as an integer key. */
  predicate NameLike(n: string)
  {
    |n| > 0 && '=' !in n && !IsDigit(n[0]) && n[0] != '-'
  }

  /** The four parameter names are distinct names without ','. */
  lemma ParameterNames()
    ensures |SignatureParameters| == 4
    ensures forall i :: 0 <= i < 4 ==> NameLike(SignatureParameters[i]) && ',' !in SignatureParameters[i]
    ensures forall i, j :: 0 <= i < j < 4 ==> SignatureParameters[i] != SignatureParameters[j]
  {
    assert "algorithm"[0] != "signature"[0];
  }

  /** The elements a sender writes for the given names and values, in order. */
  function Elements(ns: seq<string>, vs: seq<string>): (r: seq<string>)
    requires |ns| == |vs|
    ensures |r| == |ns| && forall i :: 0 <= i < |r| ==> r[i] == HeaderElement(ns[i], vs[i])
  {
    if |ns| == 0 then [] else Elements(ns[..|ns| - 1], vs[..|vs| - 1]) + [HeaderElement(ns[|ns| - 1], vs[|vs| - 1])]
  }

  /** The string-keyed parameters for the given names and values, in order. */
  function Params(ns: seq<string>, vs: seq<string>): (r: seq<Entry>)
    requires |ns| == |vs|
    ensures |r| == |ns| && forall i :: 0 <= i < |r| ==> r[i] == Entry(StrKey(ns[i]), Str(vs[i]))
  {
    if |ns| == 0 then [] else Params(ns[..|ns| - 1], vs[..|vs| - 1]) + [Entry(StrKey(ns[|ns| - 1]), Str(vs[|vs| - 1]))]
  }

  /** Elements with distinct parameter names parse into those parameters, in order. */
  lemma {:induction false} ParseAll(ns: seq<string>, vs: seq<string>)
    requires |ns| == |vs|
    requires forall i :: 0 <= i < |ns| ==> NameLike(ns[i]) && |vs[i]| > 0 && '"' !in vs[i]
    requires forall i, j :: 0 <= i < j < |ns| ==> ns[i] != ns[j]
    ensures ParseEntries(Elements(ns, vs)) == Params(ns, vs)
  {
    if |ns| > 0 {
      var n := |ns| - 1;
      var name, v := ns[n], vs[n];
      var es, before := Elements(ns[..n], vs[..n]), Params(ns[..n], vs[..n]);
      assert ParseEntries(es) == before by {
        ParseAll(ns[..n], vs[..n]);
      }
      assert forall i :: 0 <= i < |before| ==> before[i].key != StrKey(name) by {
        forall i | 0 <= i < |before| ensures before[i].key != StrKey(name) {
          assert ns[..n][i] == ns[i];
        }
      }
      ParseStepExact(es, HeaderElement(name, v), name, v, before, Params(ns, vs));
    }
  }

  /** The same step, with the map before and after spelled out. */
  lemma ParseStepExact(es: seq<string>, e: string, name: string, v: string, before: seq<Entry>, after: seq<Entry>)
    requires e == HeaderElement(name, v)
    requires NameLike(name)
    requires |v| > 0 && '"' !in v
    requires ParseEntries(es) == before
    requires forall i :: 0 <= i < |before| ==> before[i].key != StrKey(name)
    requires after == before + [Entry(StrKey(name), Str(v))]
    ensures ParseEntries(es + [e]) == after
  {
    ParseStep(es, e, name, v);
    assert StrKey(name) !in Keys(before);
    SetNew(before, StrKey(name), Str(v));
  }

  /** Parsing one more element the sender wrote sets its parameter, under a string key. */
  lemma ParseStep(es: seq<string>, e: string, name: string, v: string)
    requires e == HeaderElement(name, v)
    requires NameLike(name)
    requires |v| > 0 && '"' !in v
    ensures ParseEntries(es + [e]) == Set(ParseEntries(es), StrKey(name), Str(v))
  {
    assert (es + [e])[..|es|] == es;
    ParseHeaderElement(name, v);
    ToKeyOfWord(name);
  }

  /** `getUsedEncryption`: the receiver's reading of the algorithm parameter. */
  function UsedEncryption(declared: string): (r: Algorithm)
    ensures r == SHA512 <==> declared == "rsa-sha512"
    ensures r == SHA256 <==> declared != "rsa-sha512"
  {
    if declared == "rsa-sha512" then SHA512 else SHA256
  }

  /** `getChosenEncryption`: the label the sender writes. */
  function ChosenEncryption(a: Algorithm): (r: string)
    ensures r == "ras-sha512" <==> a == SHA512
    ensures r == "ras-sha256" <==> a != SHA512
  {
    if a == SHA512 then "ras-sha512" else "ras-sha256"
  }

  /**
   * The labels the sender writes ('ras-…') are not the ones the receiver
   * recognises ('rsa-…'): whatever the signatory's algorithm, a header
   * composed by this code is verified with SHA-256.
   */
  lemma ChosenLabelReadAsSHA256(a: Algorithm)
    ensures UsedEncryption(ChosenEncryption(a)) == SHA256
  {
  }

  /** The label the receiver recognises for each algorithm ('rsa-…'). */
  function IntendedChosenEncryption(a: Algorithm): string
  {
    if a == SHA512 then "rsa-sha512" else "rsa-sha256"
  }

  /** With the intended labels the receiver reads back the sender's algorithm, and the label is a safe header value. */
  lemma IntendedLabelRoundTrip(a: Algorithm)
    ensures UsedEncryption(IntendedChosenEncryption(a)) == (if a == SHA512 then SHA512 else SHA256)
    ensures HeaderSafe(IntendedChosenEncryption(a))
  {
    assert "rsa-sha256" != "rsa-sha512" by {
      assert "rsa-sha256"[8] != "rsa-sha512"[8];
    }
  }

  /** The label is a safe header value. */
  lemma ChosenLabelSafe(a: Algorithm)
    ensures HeaderSafe(ChosenEncryption(a))
  {
  }

  /** One line of the signing string. */
  function SigningLine(name: string, value: string): string
  {
    name + ": " + value
  }

  /** The pseudo-header that carries the method and path. */
  const RequestTarget: string := "(request-target)"
}
