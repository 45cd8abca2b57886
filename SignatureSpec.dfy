/**
 * The HTTP signature pipelines of `NC21Signature`, `NC22Signature` and
 * `NC23Signature` (draft-cavage-http-signatures), as functions of their
 * inputs: each check the receiver makes, the whole incoming validation,
 * and what the sender builds.  The three revisions share one definition;
 * `Revision` selects where they differ.
 */
module SignatureSpec {
  import opened Wrappers
  import opened PhpStrings
  import opened PhpArrays
  import opened ArrayTools
  import opened Signatories
  import opened SignatureText

  /** The three revisions of the signature class. */
  datatype Revision = NC21 | NC22 | NC23

  /** `DATE_TTL`: how many seconds old a signed request may be. */
  const TTL: int := 300

  /** The incoming request, as the pipeline reads it. */
  datatype IncomingRequest = IncomingRequest(
    header: string -> string,   // getHeader($name), '' when the header is absent
    verb: string,               // getMethod()
    uri: string,                // getRequestUri()
    serverHost: string)         // getServerHost()

  /** What the pipeline relies on and does not define. */
  datatype Collaborators = Collaborators(
    now: int,                                                // time()
    parseDate: string -> Option<int>,                        // (new DateTime($date))->getTimestamp(); None when it throws
    digestOf: string -> string,                              // the signed request's getDigest() for a body
    enforced: seq<string>,                                   // setupArray('enforceSignatureHeaders')
    retrieve: (string, bool) -> Result<Signatory, SigError>, // retrieveSignatory($keyId, $refresh)
    parseHost: string -> Option<string>,                     // parse_url($url, PHP_URL_HOST), when a string
    crypto: Crypto)

  // ------------------------------------------------------------ the checks

  /** `verifyIncomingRequestTime`: the timestamp of the 'date' header, at most `TTL` seconds old. */
  function RequestTime(date: string, c: Collaborators): (r: Result<int, SigError>)
    ensures r.Success? <==> c.parseDate(date).Some? && c.parseDate(date).value >= c.now - TTL
    ensures r.Success? ==> r.value == c.parseDate(date).value
    ensures c.parseDate(date).None? ==> r == Failure(SignatureError("datetime exception"))
    ensures c.parseDate(date).Some? && r.Failure? ==> r == Failure(SignatureError("object is too old"))
  {
    match c.parseDate(date)
    case None => Failure(SignatureError("datetime exception"))
    case Some(t) => if t < c.now - TTL then Failure(SignatureError("object is too old")) else Success(t)
  }

  /** A request exactly `TTL` seconds old is accepted, and so is one from any time in the future. */
  lemma FreshnessWindow(date: string, c: Collaborators, t: int)
    requires c.parseDate(date) == Some(t)
    ensures t == c.now - TTL ==> RequestTime(date, c) == Success(t)
    ensures t >= c.now ==> RequestTime(date, c) == Success(t)
    ensures t == c.now - TTL - 1 ==> RequestTime(date, c) == Failure(SignatureError("object is too old"))
  {
  }

  /**
   * `verifyIncomingRequestContent`: the body length must be the integer
   * value of 'content-length', always; the digest is compared only when a
   * 'digest' header is sent.
   */
  function ContentCheck(body: string, req: IncomingRequest, digestOf: string -> string): (r: Result<(), SigError>)
    ensures r.Success? <==> |body| == IntVal(req.header("content-length"))
                            && (req.header("digest") == "" || digestOf(body) == req.header("digest"))
    ensures |body| != IntVal(req.header("content-length")) ==> r == Failure(SignatureError("issue with content-length"))
    ensures |body| == IntVal(req.header("content-length")) && r.Failure? ==> r == Failure(SignatureError("issue with digest"))
  {
    if |body| != IntVal(req.header("content-length")) then Failure(SignatureError("issue with content-length"))
    else if req.header("digest") != "" && digestOf(body) != req.header("digest") then Failure(SignatureError("issue with digest"))
    else Success(())
  }

  /** Without a 'content-length' header the length read is 0, so only an empty body passes. */
  lemma MissingLengthMeansEmptyBody(body: string, req: IncomingRequest, digestOf: string -> string)
    requires req.header("content-length") == ""
    ensures ContentCheck(body, req, digestOf).Success? ==> body == ""
    ensures body != "" ==> ContentCheck(body, req, digestOf) == Failure(SignatureError("issue with content-length"))
  {
    assert SkipSpace("") == "";
    assert IntVal("") == 0;
  }

  /** `$data->g($name)` for a name without '.': the parameter's text, or ''. */
  function Param(sh: seq<Entry>, name: string): string
  {
    match Lookup(sh, ToKey(name))
    case Some(Str(s)) => s
    case Some(Int(n)) => IntToString(n)
    case _ => ""
  }

  /** `Param` is the dotted-path `get` of a name without '.'. */
  lemma ParamIsGet(sh: seq<Entry>, name: string)
    requires '.' !in name
    ensures Get(name, sh, "") == Some(Param(sh, name))
  {
    GetPlain(name, sh, "");
  }

  /** `array_key_exists($name, …)`. */
  predicate Has(sh: seq<Entry>, name: string)
  {
    ToKey(name) in Keys(sh)
  }

  /** The names the 'headers' parameter declares, split on ' '. */
  function DeclaredHeaders(sh: seq<Entry>): (r: seq<string>)
    ensures |r| >= 1 && forall i :: 0 <= i < |r| ==> ' ' !in r[i]
  {
    Explode(' ', Param(sh, "headers"))
  }

  /** The names every signed request must declare: three fixed ones and the configured ones. */
  function Required(enforced: seq<string>): (r: seq<string>)
    ensures "content-length" in r && "date" in r && "host" in r
    ensures forall e :: e in enforced ==> e in r
  {
    ["content-length", "date", "host"] + enforced
  }

  /** `array_diff($required, $declared)` is empty. */
  predicate AllDeclared(required: seq<string>, declared: seq<string>)
  {
    forall e :: e in required ==> e in declared
  }

  /** The error a missing required name raises: a plain exception in the earliest revision. */
  function EnforcementError(rev: Revision): (e: SigError)
    ensures e.PlainError? <==> rev == NC21
    ensures e.PlainError? || e.SignatureError?
  {
    if rev == NC21 then PlainError("missing elements in 'headers'")
    else SignatureError("missing elements in 'headers'")
  }

  /** Whether a declared name is read as the host: exactly 'host' in NC21, 'host' in any case later. */
  predicate HostRule(rev: Revision, key: string)
  {
    if rev == NC21 then key == "host" else Lower(key) == "host"
  }

  /** The host the receiver signs: the caller's in NC21, the server's later. */
  function ReceiverHost(rev: Revision, req: IncomingRequest, host: string): string
  {
    if rev == NC21 then host else req.serverHost
  }

  /** The value the receiver puts on the line of a declared name. */
  function HeaderValue(rev: Revision, key: string, req: IncomingRequest, host: string): string
  {
    if HostRule(rev, key) then ReceiverHost(rev, req, host) else req.header(key)
  }

  /** The 'name: value' lines for the declared names, in order; any empty value is an error. */
  function SignedLines(rev: Revision, keys: seq<string>, req: IncomingRequest, host: string): Result<seq<string>, SigError>
  {
    if |keys| == 0 then Success([])
    else
      var init, last := keys[..|keys| - 1], keys[|keys| - 1];
      var v := HeaderValue(rev, last, req, host);
      match SignedLines(rev, init, req, host)
      case Failure(e) => Failure(e)
      case Success(ls) =>
        if v == "" then Failure(SignatureError("empty elements in 'headers'"))
        else Success(ls + [SigningLine(last, v)])
  }

  /**
   * The lines are built exactly when every declared name has a non-empty
   * value; then there is one 'name: value' line per name, in order.
   */
  lemma {:induction false} SignedLinesOutcome(rev: Revision, keys: seq<string>, req: IncomingRequest, host: string)
    ensures var r := SignedLines(rev, keys, req, host);
            && (r.Success? <==> forall i :: 0 <= i < |keys| ==> HeaderValue(rev, keys[i], req, host) != "")
            && (r.Success? ==> |r.value| == |keys|)
            && (r.Success? ==> forall i :: 0 <= i < |keys| ==> r.value[i] == SigningLine(keys[i], HeaderValue(rev, keys[i], req, host)))
            && (r.Failure? ==> r.error == SignatureError("empty elements in 'headers'"))
    decreases |keys|
  {
    if |keys| > 0 {
      var init := keys[..|keys| - 1];
      SignedLinesOutcome(rev, init, req, host);
      assert forall i :: 0 <= i < |init| ==> init[i] == keys[i];
    }
  }

  /** The first line of the signing string: the lower-cased method and the request URI. */
  function TargetLine(verb: string, uri: string): string
  {
    SigningLine(RequestTarget, Lower(verb) + " " + uri)
  }

  /**
   * `setIncomingClearSignature`: the required names must all be declared;
   * then the request-target line and one line per declared name, joined
   * with "\n".
   */
  function ClearSignature(rev: Revision, sh: seq<Entry>, req: IncomingRequest, host: string,
                          enforced: seq<string>): (r: Result<string, SigError>)
  {
    var keys := DeclaredHeaders(sh);
    if !AllDeclared(Required(enforced), keys) then Failure(EnforcementError(rev))
    else
      match SignedLines(rev, keys, req, host)
      case Failure(e) => Failure(e)
      case Success(ls) => Success(Implode("\n", [TargetLine(req.verb, req.uri)] + ls))
  }

  /**
   * The signing string is built exactly when every required name is
   * declared and every declared name has a value; an undeclared required
   * name is the revision's enforcement error, an empty value the
   * "empty elements" error.
   */
  lemma ClearSignatureOutcome(rev: Revision, sh: seq<Entry>, req: IncomingRequest, host: string, enforced: seq<string>)
    ensures var r := ClearSignature(rev, sh, req, host, enforced);
            && (r.Success? <==> AllDeclared(Required(enforced), DeclaredHeaders(sh))
                                && forall i :: 0 <= i < |DeclaredHeaders(sh)| ==> HeaderValue(rev, DeclaredHeaders(sh)[i], req, host) != "")
            && (!AllDeclared(Required(enforced), DeclaredHeaders(sh)) ==> r == Failure(EnforcementError(rev)))
            && (AllDeclared(Required(enforced), DeclaredHeaders(sh)) && r.Failure?
                ==> r == Failure(SignatureError("empty elements in 'headers'")))
  {
    SignedLinesOutcome(rev, DeclaredHeaders(sh), req, host);
  }

  /**
   * `parseIncomingSignatureHeader`: keyId, headers and signature must be
   * present; the origin is the host of keyId.  The result is the origin
   * and the signed signature.
   */
  function ParseIncoming(sh: seq<Entry>, parseHost: string -> Option<string>): (r: Result<(string, string), SigError>)
    ensures r.Success? <==> Has(sh, "keyId") && Has(sh, "headers") && Has(sh, "signature")
                            && KeyOrigin(Param(sh, "keyId"), parseHost).Success?
    ensures !(Has(sh, "keyId") && Has(sh, "headers") && Has(sh, "signature")) ==> r == Failure(SigError.MalformedArray)
    ensures r.Success? ==> r.value == (parseHost(Param(sh, "keyId")).value, Param(sh, "signature"))
  {
    if !(Has(sh, "keyId") && Has(sh, "headers") && Has(sh, "signature")) then Failure(SigError.MalformedArray)
    else
      match KeyOrigin(Param(sh, "keyId"), parseHost)
      case Failure(e) => Failure(e)
      case Success(origin) => Success((origin, Param(sh, "signature")))
  }

  /** What the verifier is given as the signature: base64-decoded in NC21 and NC22, as received in NC23. */
  function Received(rev: Revision, signed: string, crypto: Crypto): string
  {
    if rev == NC23 then signed else crypto.decode(signed)
  }

  /** `verifySignedRequest`: the signatory needs a public key, then the signature must verify. */
  function VerifySigned(rev: Revision, clear: string, signed: string, s: Signatory, algorithm: string,
                        crypto: Crypto): (r: Result<(), SigError>)
    ensures r.Success? <==> s.publicKey != ""
                            && crypto.verify(clear, Received(rev, signed, crypto), s.publicKey, UsedEncryption(algorithm)) == 1
    ensures s.publicKey == "" ==> r == Failure(SignatureError("empty public key"))
    ensures r.Failure? ==> r.error.SignatureError?
  {
    if s.publicKey == "" then Failure(SignatureError("empty public key"))
    else VerifyString(clear, Received(rev, signed, crypto), s.publicKey, UsedEncryption(algorithm), crypto)
  }

  /** One attempt: retrieve the signatory for keyId and verify with it. */
  function Attempt(rev: Revision, refresh: bool, keyId: string, clear: string, signed: string, algorithm: string,
                   c: Collaborators): (r: Result<Signatory, SigError>)
    ensures r.Success? <==> c.retrieve(keyId, refresh).Success?
                            && VerifySigned(rev, clear, signed, c.retrieve(keyId, refresh).value, algorithm, c.crypto).Success?
    ensures r.Success? ==> r.value == c.retrieve(keyId, refresh).value
  {
    match c.retrieve(keyId, refresh)
    case Failure(e) => Failure(e)
    case Success(s) =>
      match VerifySigned(rev, clear, signed, s, algorithm, c.crypto)
      case Failure(e) => Failure(e)
      case Success(_) => Success(s)
  }

  /** `verifyIncomingRequestSignature`: one attempt, and one more with a refresh only after a signatory error. */
  function VerifyIncoming(rev: Revision, keyId: string, clear: string, signed: string, algorithm: string,
                          c: Collaborators): (r: Result<Signatory, SigError>)
    ensures r.Success? ==> r.value.publicKey != ""
    ensures r.Success? ==> c.crypto.verify(clear, Received(rev, signed, c.crypto), r.value.publicKey, UsedEncryption(algorithm)) == 1
    ensures r.Success? ==> (c.retrieve(keyId, false).Success? && r.value == c.retrieve(keyId, false).value)
                           || (c.retrieve(keyId, true).Success? && r.value == c.retrieve(keyId, true).value)
  {
    match Attempt(rev, false, keyId, clear, signed, algorithm, c)
    case Failure(SignatoryError(_)) => Attempt(rev, true, keyId, clear, signed, algorithm, c)
    case first => first
  }

  /** The refresh happens exactly when the first attempt fails with a signatory error, and at most once. */
  lemma RetryOnlyOnSignatoryError(rev: Revision, keyId: string, clear: string, signed: string, algorithm: string,
                                  c: Collaborators)
    ensures var first := Attempt(rev, false, keyId, clear, signed, algorithm, c);
            VerifyIncoming(rev, keyId, clear, signed, algorithm, c)
            == if first.Failure? && first.error.SignatoryError? then Attempt(rev, true, keyId, clear, signed, algorithm, c)
               else first
  {
  }

  /** A signatory without a public key fails at once, without a refresh. */
  lemma EmptyPublicKeyNotRetried(rev: Revision, keyId: string, clear: string, signed: string, algorithm: string,
                                 c: Collaborators, s: Signatory)
    requires c.retrieve(keyId, false) == Success(s) && s.publicKey == ""
    ensures VerifyIncoming(rev, keyId, clear, signed, algorithm, c) == Failure(SignatureError("empty public key"))
  {
  }

  /** A signature that does not verify with the known key fails at once, without a refresh. */
  lemma BadSignatureNotRetried(rev: Revision, keyId: string, clear: string, signed: string, algorithm: string,
                               c: Collaborators, s: Signatory)
    requires c.retrieve(keyId, false) == Success(s) && s.publicKey != ""
    requires c.crypto.verify(clear, Received(rev, signed, c.crypto), s.publicKey, UsedEncryption(algorithm)) != 1
    ensures VerifyIncoming(rev, keyId, clear, signed, algorithm, c) == Failure(SignatureError("signature issue"))
  {
  }

  /** With the traits' default retrieval, which knows no signatory, every check downloads the key. */
  lemma DefaultRetrievalDownloads(rev: Revision, revision: TraitRevision, remote: Remote, keyId: string, clear: string,
                                  signed: string, algorithm: string, c: Collaborators)
    requires c.retrieve(keyId, false) == RetrieveSignatory(revision, keyId, false, remote)
    ensures VerifyIncoming(rev, keyId, clear, signed, algorithm, c) == Attempt(rev, true, keyId, clear, signed, algorithm, c)
  {
  }

  // -------------------------------------------------------- the validation

  /** What the signed request holds once the incoming validation passed. */
  datatype Verified = Verified(
    time: int,
    signatureHeader: seq<Entry>,
    clear: string,
    origin: string,
    signed: string,
    signatory: Signatory)

  /**
   * `incomingSignedRequest`: time, content, the `Signature` header, the
   * signing string, the required parameters and the origin, then the
   * signature; the first failure ends the validation.  `host` is the
   * caller's host argument (NC21 and NC22; NC23 has none).
   */
  function Incoming(rev: Revision, body: string, host: string, req: IncomingRequest, c: Collaborators): Result<Verified, SigError>
  {
    var sh := ParseSignatureHeader(req.header("Signature"));
    Validate(rev, body, req, c, sh, ClearSignature(rev, sh, req, host, c.enforced))
  }

  /**
   * The validation once the `Signature` header is parsed into `sh` and the
   * signing string is built (`clear`); each result is looked at only in
   * its turn.
   */
  function Validate(rev: Revision, body: string, req: IncomingRequest, c: Collaborators, sh: seq<Entry>,
                    clear: Result<string, SigError>): (r: Result<Verified, SigError>)
  {
    match RequestTime(req.header("date"), c)
    case Failure(e) => Failure(e)
    case Success(t) =>
      match ContentCheck(body, req, c.digestOf)
      case Failure(e) => Failure(e)
      case Success(_) =>
        match clear
        case Failure(e) => Failure(e)
        case Success(text) => Authenticate(rev, c, sh, text, t)
  }

  /**
   * The last two steps, for a request dated `t` whose signing string is
   * `clear`: the required parameters and the origin, then the signature.
   */
  function Authenticate(rev: Revision, c: Collaborators, sh: seq<Entry>, clear: string, t: int): (r: Result<Verified, SigError>)
  {
    match ParseIncoming(sh, c.parseHost)
    case Failure(e) => Failure(e)
    case Success(p) =>
      match VerifyIncoming(rev, Param(sh, "keyId"), clear, p.1, Param(sh, "algorithm"), c)
      case Failure(e) => Failure(e)
      case Success(s) => Success(Verified(t, sh, clear, p.0, p.1, s))
  }

  /** An accepted request passed every check, and its signature verified with the signatory's public key. */
  lemma AcceptedPassedEveryCheck(rev: Revision, body: string, host: string, req: IncomingRequest, c: Collaborators)
    requires Incoming(rev, body, host, req, c).Success?
    ensures var v := Incoming(rev, body, host, req, c).value;
            && c.parseDate(req.header("date")) == Some(v.time) && v.time >= c.now - TTL
            && ContentCheck(body, req, c.digestOf).Success?
            && v.signatureHeader == ParseSignatureHeader(req.header("Signature"))
            && AllDeclared(Required(c.enforced), DeclaredHeaders(v.signatureHeader))
            && ClearSignature(rev, v.signatureHeader, req, host, c.enforced) == Success(v.clear)
            && KeyOrigin(Param(v.signatureHeader, "keyId"), c.parseHost) == Success(v.origin)
            && v.signed == Param(v.signatureHeader, "signature")
            && v.signatory.publicKey != ""
            && c.crypto.verify(v.clear, Received(rev, v.signed, c.crypto), v.signatory.publicKey,
                               UsedEncryption(Param(v.signatureHeader, "algorithm"))) == 1
  {
    var sh := ParseSignatureHeader(req.header("Signature"));
    var clear := ClearSignature(rev, sh, req, host, c.enforced);
    var v := Validate(rev, body, req, c, sh, clear).value;
    assert RequestTime(req.header("date"), c).Success?;
    assert ContentCheck(body, req, c.digestOf).Success?;
    assert clear.Success?;
    assert ParseIncoming(sh, c.parseHost).Success?;
  }

  /** The steps run in a fixed order, and the first that fails decides the error. */
  lemma FirstFailureWins(rev: Revision, body: string, host: string, req: IncomingRequest, c: Collaborators)
    ensures var time := RequestTime(req.header("date"), c);
            time.Failure? ==> Incoming(rev, body, host, req, c) == Failure(time.error)
    ensures var content := ContentCheck(body, req, c.digestOf);
            RequestTime(req.header("date"), c).Success? && content.Failure?
            ==> Incoming(rev, body, host, req, c) == Failure(content.error)
    ensures var sh := ParseSignatureHeader(req.header("Signature"));
            var clear := ClearSignature(rev, sh, req, host, c.enforced);
            RequestTime(req.header("date"), c).Success? && ContentCheck(body, req, c.digestOf).Success? && clear.Failure?
            ==> Incoming(rev, body, host, req, c) == Failure(clear.error)
    ensures var sh := ParseSignatureHeader(req.header("Signature"));
            var parsed := ParseIncoming(sh, c.parseHost);
            RequestTime(req.header("date"), c).Success? && ContentCheck(body, req, c.digestOf).Success?
            && ClearSignature(rev, sh, req, host, c.enforced).Success? && parsed.Failure?
            ==> Incoming(rev, body, host, req, c) == Failure(parsed.error)
  {
  }

  /** From NC22 on, the caller's host argument plays no part. */
  lemma HostArgumentIgnored(rev: Revision, body: string, h1: string, h2: string, req: IncomingRequest, c: Collaborators)
    requires rev != NC21
    ensures Incoming(rev, body, h1, req, c) == Incoming(rev, body, h2, req, c)
  {
    var sh := ParseSignatureHeader(req.header("Signature"));
    assert ClearSignature(rev, sh, req, h1, c.enforced) == ClearSignature(rev, sh, req, h2, c.enforced) by {
      SignedLinesHostFree(rev, DeclaredHeaders(sh), req, h1, h2);
    }
  }

  lemma {:induction false} SignedLinesHostFree(rev: Revision, keys: seq<string>, req: IncomingRequest, h1: string, h2: string)
    requires rev != NC21
    ensures SignedLines(rev, keys, req, h1) == SignedLines(rev, keys, req, h2)
    decreases |keys|
  {
    if |keys| > 0 {
      SignedLinesHostFree(rev, keys[..|keys| - 1], req, h1, h2);
    }
  }

  /**
   * Which declared name reads the host: in NC21 only 'host' itself, and it
   * reads the caller's host; later any spelling of 'host', reading the
   * server's host.
   */
  lemma HostNames(req: IncomingRequest, host: string)
    ensures HeaderValue(NC21, "host", req, host) == host
    ensures HeaderValue(NC21, "Host", req, host) == req.header("Host")
    ensures HeaderValue(NC22, "host", req, host) == req.serverHost
    ensures HeaderValue(NC22, "Host", req, host) == req.serverHost
    ensures HeaderValue(NC23, "HOST", req, host) == req.serverHost
  {
    assert Lower("host") == "host" by {
      assert |Lower("host")| == 4;
    }
    assert Lower("Host") == "host" by {
      assert |Lower("Host")| == 4;
    }
    assert Lower("HOST") == "host" by {
      assert |Lower("HOST")| == 4;
    }
    assert "Host" != "host" by {
      assert "Host"[0] != "host"[0];
    }
  }

  // ------------------------------------------------------------ the sender

  /** `(string)` of a stored value, as the '.' operator converts it; only texts and integers are signed. */
  function ValueText(v: Value): string
  {
    match v
    case Str(t) => t
    case Int(n) => IntToString(n)
    case Bool(b) => if b then "1" else ""
    case Null => ""
    case Arr(_) => "Array"
    case Obj(_) => ""
  }

  /** The names the sender advertises, in the order it stores them. */
  const SignedNames: seq<string> := ["content-length", "date", "digest", "host"]

  /** Sets each key of `kvs` in turn, as consecutive `aString`/`aInt` calls on a data store do. */
  function SetAll(es: seq<Entry>, kvs: seq<(Key, Value)>): seq<Entry>
    decreases |kvs|
  {
    if |kvs| == 0 then es else SetAll(Set(es, kvs[0].0, kvs[0].1), kvs[1..])
  }

  /** The entries a list of key/value pairs spells out. */
  function Entries(kvs: seq<(Key, Value)>): (r: seq<Entry>)
    ensures |r| == |kvs| && forall i :: 0 <= i < |kvs| ==> r[i] == Entry(kvs[i].0, kvs[i].1)
  {
    seq(|kvs|, i requires 0 <= i < |kvs| => Entry(kvs[i].0, kvs[i].1))
  }

  lemma EntriesCons(kvs: seq<(Key, Value)>)
    requires |kvs| > 0
    ensures Entries(kvs) == [Entry(kvs[0].0, kvs[0].1)] + Entries(kvs[1..])
  {
    assert forall i :: 0 <= i < |kvs| - 1 ==> kvs[1..][i] == kvs[i + 1];
  }

  /** Setting keys that are all new and pairwise different appends them in order. */
  lemma {:induction false} SetAllFresh(es: seq<Entry>, kvs: seq<(Key, Value)>)
    requires forall i, j :: 0 <= i < j < |kvs| ==> kvs[i].0 != kvs[j].0
    requires forall i :: 0 <= i < |kvs| ==> kvs[i].0 !in Keys(es)
    ensures SetAll(es, kvs) == es + Entries(kvs)
    decreases |kvs|
  {
    if |kvs| > 0 {
      var k, v := kvs[0].0, kvs[0].1;
      var es' := es + [Entry(k, v)];
      assert SetAll(es, kvs) == SetAll(es', kvs[1..]) by {
        SetNew(es, k, v);
      }
      assert SetAll(es', kvs[1..]) == es' + Entries(kvs[1..]) by {
        assert Keys(es') == Keys(es) + [k];
        forall i | 0 <= i < |kvs[1..]| ensures kvs[1..][i].0 !in Keys(es') {
          assert kvs[1..][i] == kvs[i + 1];
        }
        SetAllFresh(es', kvs[1..]);
      }
      assert es' + Entries(kvs[1..]) == es + Entries(kvs) by {
        EntriesCons(kvs);
        AppendAssoc(es, [Entry(k, v)], Entries(kvs[1..]));
      }
    }
  }

  /**
   * The pairs `setOutgoingSignatureHeader` stores: request target, body
   * length, date, digest and host.  None of the names reads as an integer,
   * so each is a string key (`StoredKeys`).
   */
  function OutgoingPairs(target: string, body: string, date: string, digest: string, host: string): seq<(Key, Value)>
  {
    [(StrKey(RequestTarget), Str(target)), (StrKey("content-length"), Int(|body|)),
     (StrKey("date"), Str(date)), (StrKey("digest"), Str(digest)), (StrKey("host"), Str(host))]
  }

  /** `setOutgoingSignatureHeader`: the data store, set key by key. */
  function OutgoingData(target: string, body: string, date: string, digest: string, host: string): seq<Entry>
  {
    SetAll([], OutgoingPairs(target, body, date, digest, host))
  }

  /** One 'name: value' line per stored entry, in the store's order. */
  function ClearLines(data: seq<Entry>): seq<string>
  {
    if |data| == 0 then []
    else
      var last := data[|data| - 1];
      ClearLines(data[..|data| - 1]) + [SigningLine(KeyString(last.key), ValueText(last.val))]
  }

  /** One line per stored entry, in the store's order. */
  lemma {:induction false} ClearLinesOutcome(data: seq<Entry>)
    ensures |ClearLines(data)| == |data|
    ensures forall i :: 0 <= i < |data| ==> ClearLines(data)[i] == SigningLine(KeyString(data[i].key), ValueText(data[i].val))
    decreases |data|
  {
    if |data| > 0 {
      var init := data[..|data| - 1];
      ClearLinesOutcome(init);
      assert forall i :: 0 <= i < |init| ==> init[i] == data[i];
    }
  }

  /** `setOutgoingClearSignature`: the lines joined with "\n". */
  function OutgoingClear(data: seq<Entry>): string
  {
    Implode("\n", ClearLines(data))
  }

  /** The headers `setOutgoingClearSignature` adds to the outgoing request: every entry but the request target. */
  function AddedHeaders(data: seq<Entry>): seq<(string, Value)>
  {
    if |data| == 0 then []
    else
      var last := data[|data| - 1];
      AddedHeaders(data[..|data| - 1]) + (if KeyString(last.key) != RequestTarget then [(KeyString(last.key), last.val)] else [])
  }

  /** A header is added exactly when it is a stored entry other than the request target. */
  lemma {:induction false} AddedHeadersExactly(data: seq<Entry>)
    ensures forall p :: p in AddedHeaders(data) ==>
              p.0 != RequestTarget && exists i :: 0 <= i < |data| && p == (KeyString(data[i].key), data[i].val)
    ensures forall i :: 0 <= i < |data| && KeyString(data[i].key) != RequestTarget
              ==> (KeyString(data[i].key), data[i].val) in AddedHeaders(data)
  {
    if |data| > 0 {
      var init, last := data[..|data| - 1], data[|data| - 1];
      AddedHeadersExactly(init);
      assert forall i :: 0 <= i < |init| ==> init[i] == data[i];
      forall p | p in AddedHeaders(data)
        ensures p.0 != RequestTarget && exists i :: 0 <= i < |data| && p == (KeyString(data[i].key), data[i].val)
      {
        if p in AddedHeaders(init) {
          var i :| 0 <= i < |init| && p == (KeyString(init[i].key), init[i].val);
          assert data[i] == init[i];
        } else {
          assert p == (KeyString(last.key), last.val);
        }
      }
    }
  }

  /** `array_diff($data->keys(), ['(request-target)'])`: the names the `Signature` header advertises. */
  function AdvertisedNames(data: seq<Entry>): (r: seq<string>)
    ensures RequestTarget !in r
  {
    if |data| == 0 then []
    else
      var last := data[|data| - 1];
      AdvertisedNames(data[..|data| - 1]) + (if KeyString(last.key) != RequestTarget then [KeyString(last.key)] else [])
  }

  /** The names of a list of headers. */
  function HeaderNames(hs: seq<(string, Value)>): (r: seq<string>)
    ensures |r| == |hs| && forall i :: 0 <= i < |hs| ==> r[i] == hs[i].0
  {
    if |hs| == 0 then [] else HeaderNames(hs[..|hs| - 1]) + [hs[|hs| - 1].0]
  }

  /** The names advertised are exactly the headers added to the request, in the same order. */
  lemma {:induction false} AdvertisedAreAdded(data: seq<Entry>)
    ensures AdvertisedNames(data) == HeaderNames(AddedHeaders(data))
  {
    if |data| > 0 {
      var init, last := data[..|data| - 1], data[|data| - 1];
      AdvertisedAreAdded(init);
      var tail := if KeyString(last.key) != RequestTarget then [(KeyString(last.key), last.val)] else [];
      HeaderNamesAppend(AddedHeaders(init), tail);
    }
  }

  lemma HeaderNamesAppend(a: seq<(string, Value)>, b: seq<(string, Value)>)
    ensures HeaderNames(a + b) == HeaderNames(a) + HeaderNames(b)
  {
  }

  /** The `Signature` header for the stored data, a key id, an algorithm label and the signed string. */
  function SignatureHeaderWith(data: seq<Entry>, keyId: string, chosen: string, signed: string): string
  {
    ComposeSignatureHeader(keyId, chosen, Implode(" ", AdvertisedNames(data)), signed)
  }

  /** `signingOutgoingRequest`: the header carries the label `getChosenEncryption` gives. */
  function OutgoingSignatureHeader(data: seq<Entry>, s: Signatory, signed: string): string
  {
    SignatureHeaderWith(data, s.keyId, ChosenEncryption(s.algorithm), signed)
  }

  /** What `signOutgoingRequest` leaves on the signed request. */
  datatype Outgoing = Outgoing(data: seq<Entry>, clear: string, signed: string, signature: string)

  /**
   * `signOutgoingRequest`: the data, the signing string, its signature and
   * the `Signature` header.  `verb` is what `NC2xRequest::method` gives for
   * the request's type, `date` the formatted current date and `digest` the
   * body's digest.
   */
  function SignOutgoing(verb: string, path: string, host: string, body: string, date: string, digest: string,
                        s: Signatory, crypto: Crypto): (r: Result<Outgoing, SigError>)
    ensures r.Failure? <==> s.privateKey == ""
    ensures r.Failure? ==> r.error == SignatoryError("empty private key")
    ensures r.Success? ==> r.value.clear == OutgoingClear(r.value.data)
                           && r.value.signed == crypto.encode(crypto.sign(r.value.clear, s.privateKey, OpenSSLAlgo(s.algorithm)))
                           && r.value.signature == OutgoingSignatureHeader(r.value.data, s, r.value.signed)
  {
    var data := OutgoingData(verb + " " + path, body, date, digest, host);
    var clear := OutgoingClear(data);
    match SignString(clear, s, crypto)
    case Failure(e) => Failure(e)
    case Success(signed) => Success(Outgoing(data, clear, signed, OutgoingSignatureHeader(data, s, signed)))
  }

  // ------------------------------------------------------ the names, spelled

  /** Lower-case letters and '-'. */
  predicate NameChars(s: string)
  {
    |s| == 0 || (('a' <= s[0] <= 'z' || s[0] == '-') && NameChars(s[1..]))
  }

  lemma {:induction false} NameCharsAvoid(s: string, c: char)
    requires NameChars(s) && !('a' <= c <= 'z') && c != '-'
    ensures c !in s
  {
    if |s| > 0 {
      NameCharsAvoid(s[1..], c);
      assert s == [s[0]] + s[1..];
    }
  }

  /** The stored names are string keys, and only the first is the request target. */
  lemma StoredKeys()
    ensures ToKey(RequestTarget) == StrKey(RequestTarget)
    ensures ToKey("content-length") == StrKey("content-length") && ToKey("date") == StrKey("date")
    ensures ToKey("digest") == StrKey("digest") && ToKey("host") == StrKey("host")
    ensures "content-length" != RequestTarget && "date" != RequestTarget
    ensures "digest" != RequestTarget && "host" != RequestTarget
  {
    assert RequestTarget[0] == '(';
    ToKeyOfWord(RequestTarget);
    ToKeyOfWord("content-length");
    ToKeyOfWord("date");
    ToKeyOfWord("digest");
    ToKeyOfWord("host");
  }

  /** The five stored names are pairwise different. */
  lemma StoredNamesDiffer()
    ensures RequestTarget != "content-length" && RequestTarget != "date" && RequestTarget != "digest"
    ensures RequestTarget != "host" && "content-length" != "date" && "content-length" != "digest"
    ensures "content-length" != "host" && "date" != "digest" && "date" != "host" && "digest" != "host"
  {
    assert RequestTarget[0] == '(';
    assert "date"[1] != "digest"[1];
  }

  /** Setting five different keys into an empty store lists them in that order. */
  lemma SetFiveFresh(k0: Key, k1: Key, k2: Key, k3: Key, k4: Key, v0: Value, v1: Value, v2: Value, v3: Value, v4: Value)
    requires k0 != k1 && k0 != k2 && k0 != k3 && k0 != k4
    requires k1 != k2 && k1 != k3 && k1 != k4 && k2 != k3 && k2 != k4 && k3 != k4
    ensures SetAll([], [(k0, v0), (k1, v1), (k2, v2), (k3, v3), (k4, v4)])
         == [Entry(k0, v0), Entry(k1, v1), Entry(k2, v2), Entry(k3, v3), Entry(k4, v4)]
  {
    var kvs := [(k0, v0), (k1, v1), (k2, v2), (k3, v3), (k4, v4)];
    SetAllFresh([], kvs);
    EntriesFive(k0, k1, k2, k3, k4, v0, v1, v2, v3, v4);
  }

  /** The entries of five pairs, one by one. */
  lemma EntriesFive(k0: Key, k1: Key, k2: Key, k3: Key, k4: Key, v0: Value, v1: Value, v2: Value, v3: Value, v4: Value)
    ensures Entries([(k0, v0), (k1, v1), (k2, v2), (k3, v3), (k4, v4)])
         == [Entry(k0, v0), Entry(k1, v1), Entry(k2, v2), Entry(k3, v3), Entry(k4, v4)]
  {
    var r := Entries([(k0, v0), (k1, v1), (k2, v2), (k3, v3), (k4, v4)]);
    assert r[0] == Entry(k0, v0) && r[1] == Entry(k1, v1) && r[2] == Entry(k2, v2);
    assert r[3] == Entry(k3, v3) && r[4] == Entry(k4, v4);
  }

  /** The sender stores its five entries in the fixed order request target, content-length, date, digest, host. */
  lemma OutgoingDataInOrder(target: string, body: string, date: string, digest: string, host: string)
    ensures OutgoingData(target, body, date, digest, host)
         == [Entry(StrKey(RequestTarget), Str(target)), Entry(StrKey("content-length"), Int(|body|)),
             Entry(StrKey("date"), Str(date)), Entry(StrKey("digest"), Str(digest)), Entry(StrKey("host"), Str(host))]
  {
    StoredNamesDiffer();
    SetFiveFresh(StrKey(RequestTarget), StrKey("content-length"), StrKey("date"), StrKey("digest"), StrKey("host"),
                 Str(target), Int(|body|), Str(date), Str(digest), Str(host));
  }

  lemma AdvertisedSnoc(d: seq<Entry>, e: Entry)
    ensures AdvertisedNames(d + [e]) == AdvertisedNames(d) + (if KeyString(e.key) != RequestTarget then [KeyString(e.key)] else [])
  {
    assert (d + [e])[..|d|] == d;
  }

  lemma AddedSnoc(d: seq<Entry>, e: Entry)
    ensures AddedHeaders(d + [e]) == AddedHeaders(d) + (if KeyString(e.key) != RequestTarget then [(KeyString(e.key), e.val)] else [])
  {
    assert (d + [e])[..|d|] == d;
  }

  /** Five entries appended one by one form the five-entry store. */
  lemma FiveSnocs(e0: Entry, e1: Entry, e2: Entry, e3: Entry, e4: Entry)
    ensures [e0] + [e1] + [e2] + [e3] + [e4] == [e0, e1, e2, e3, e4]
  {
  }

  /** A store whose first entry is the request target advertises the other four, in order. */
  lemma AdvertisedAfterTarget(e0: Entry, e1: Entry, e2: Entry, e3: Entry, e4: Entry)
    requires KeyString(e0.key) == RequestTarget
    requires KeyString(e1.key) != RequestTarget && KeyString(e2.key) != RequestTarget
    requires KeyString(e3.key) != RequestTarget && KeyString(e4.key) != RequestTarget
    ensures AdvertisedNames([e0, e1, e2, e3, e4])
         == [KeyString(e1.key), KeyString(e2.key), KeyString(e3.key), KeyString(e4.key)]
  {
    var d1: seq<Entry> := [e0];
    var d2 := d1 + [e1];
    var d3 := d2 + [e2];
    var d4 := d3 + [e3];
    assert AdvertisedNames(d1) == [] by {
      AdvertisedSnoc([], e0);
      assert [] + [e0] == d1;
    }
    var v1, v2, v3, v4 := KeyString(e1.key), KeyString(e2.key), KeyString(e3.key), KeyString(e4.key);
    assert AdvertisedNames(d2) == [v1] by {
      AdvertisedSnoc(d1, e1);
    }
    assert AdvertisedNames(d3) == [v1, v2] by {
      AdvertisedSnoc(d2, e2);
    }
    assert AdvertisedNames(d4) == [v1, v2, v3] by {
      AdvertisedSnoc(d3, e3);
    }
    assert AdvertisedNames(d4 + [e4]) == [v1, v2, v3, v4] by {
      AdvertisedSnoc(d4, e4);
    }
    assert d4 + [e4] == [e0, e1, e2, e3, e4] by {
      FiveSnocs(e0, e1, e2, e3, e4);
    }
  }

  /** A store whose first entry is the request target adds the other four as headers, in order. */
  lemma AddedAfterTarget(e0: Entry, e1: Entry, e2: Entry, e3: Entry, e4: Entry)
    requires KeyString(e0.key) == RequestTarget
    requires KeyString(e1.key) != RequestTarget && KeyString(e2.key) != RequestTarget
    requires KeyString(e3.key) != RequestTarget && KeyString(e4.key) != RequestTarget
    ensures AddedHeaders([e0, e1, e2, e3, e4])
         == [(KeyString(e1.key), e1.val), (KeyString(e2.key), e2.val), (KeyString(e3.key), e3.val), (KeyString(e4.key), e4.val)]
  {
    var d1: seq<Entry> := [e0];
    var d2 := d1 + [e1];
    var d3 := d2 + [e2];
    var d4 := d3 + [e3];
    assert AddedHeaders(d1) == [] by {
      AddedSnoc([], e0);
      assert [] + [e0] == d1;
    }
    var v1, v2, v3, v4 := (KeyString(e1.key), e1.val), (KeyString(e2.key), e2.val), (KeyString(e3.key), e3.val), (KeyString(e4.key), e4.val);
    assert AddedHeaders(d2) == [v1] by {
      AddedSnoc(d1, e1);
    }
    assert AddedHeaders(d3) == [v1, v2] by {
      AddedSnoc(d2, e2);
    }
    assert AddedHeaders(d4) == [v1, v2, v3] by {
      AddedSnoc(d3, e3);
    }
    assert AddedHeaders(d4 + [e4]) == [v1, v2, v3, v4] by {
      AddedSnoc(d4, e4);
    }
    assert d4 + [e4] == [e0, e1, e2, e3, e4] by {
      FiveSnocs(e0, e1, e2, e3, e4);
    }
  }

  /** The signing string of a five-entry store has one line per entry, in order. */
  lemma LinesOfFive(e0: Entry, e1: Entry, e2: Entry, e3: Entry, e4: Entry, l0: string, l1: string, l2: string, l3: string, l4: string)
    requires l0 == SigningLine(KeyString(e0.key), ValueText(e0.val)) && l1 == SigningLine(KeyString(e1.key), ValueText(e1.val))
    requires l2 == SigningLine(KeyString(e2.key), ValueText(e2.val)) && l3 == SigningLine(KeyString(e3.key), ValueText(e3.val))
    requires l4 == SigningLine(KeyString(e4.key), ValueText(e4.val))
    ensures ClearLines([e0, e1, e2, e3, e4]) == [l0, l1, l2, l3, l4]
  {
    ClearLinesOutcome([e0, e1, e2, e3, e4]);
  }

  /** The sender advertises, and adds as headers, content-length, date, digest and host, in that order. */
  lemma OutgoingHeaders(target: string, body: string, date: string, digest: string, host: string)
    ensures var data := OutgoingData(target, body, date, digest, host);
            && AdvertisedNames(data) == SignedNames
            && AddedHeaders(data) == [("content-length", Int(|body|)), ("date", Str(date)), ("digest", Str(digest)), ("host", Str(host))]
  {
    OutgoingDataInOrder(target, body, date, digest, host);
    var e0, e1, e2 := Entry(StrKey(RequestTarget), Str(target)), Entry(StrKey("content-length"), Int(|body|)), Entry(StrKey("date"), Str(date));
    var e3, e4 := Entry(StrKey("digest"), Str(digest)), Entry(StrKey("host"), Str(host));
    assert "content-length" != RequestTarget && "date" != RequestTarget && "digest" != RequestTarget && "host" != RequestTarget by {
      StoredNamesDiffer();
    }
    AdvertisedAfterTarget(e0, e1, e2, e3, e4);
    AddedAfterTarget(e0, e1, e2, e3, e4);
  }

  /** The sender signs the request target first, then content-length, date, digest and host. */
  lemma OutgoingLines(target: string, body: string, date: string, digest: string, host: string)
    ensures ClearLines(OutgoingData(target, body, date, digest, host))
         == [SigningLine(RequestTarget, target), SigningLine("content-length", IntToString(|body|)),
             SigningLine("date", date), SigningLine("digest", digest), SigningLine("host", host)]
  {
    OutgoingDataInOrder(target, body, date, digest, host);
    var e0, e1, e2 := Entry(StrKey(RequestTarget), Str(target)), Entry(StrKey("content-length"), Int(|body|)), Entry(StrKey("date"), Str(date));
    var e3, e4 := Entry(StrKey("digest"), Str(digest)), Entry(StrKey("host"), Str(host));
    LinesOfFive(e0, e1, e2, e3, e4, SigningLine(RequestTarget, target), SigningLine("content-length", IntToString(|body|)),
                SigningLine("date", date), SigningLine("digest", digest), SigningLine("host", host));
  }

  // ------------------------------------------- the sender and the receiver agree

  /** Joining parts that avoid a character, with a separator that avoids it, avoids it too. */
  lemma {:induction false} ImplodeAvoids(sep: string, parts: seq<string>, c: char)
    requires c !in sep && forall i :: 0 <= i < |parts| ==> c !in parts[i]
    ensures c !in Implode(sep, parts)
    decreases |parts|
  {
    if |parts| > 1 {
      ImplodeAvoids(sep, parts[1..], c);
    }
  }

  /** Names of lower-case letters and '-', joined by ' ', are a safe header value that splits back into the names. */
  lemma {:induction false} NamesJoin(names: seq<string>)
    requires |names| >= 1 && |names[0]| > 0
    requires forall i :: 0 <= i < |names| ==> NameChars(names[i])
    ensures HeaderSafe(Implode(" ", names))
    ensures Explode(' ', Implode(" ", names)) == names
  {
    forall i | 0 <= i < |names| ensures ' ' !in names[i] && ',' !in names[i] && '"' !in names[i] {
      NameCharsAvoid(names[i], ' ');
      NameCharsAvoid(names[i], ',');
      NameCharsAvoid(names[i], '"');
    }
    assert " " == [' '];
    ExplodeImplode(' ', names);
    ImplodeAvoids(" ", names, ',');
    ImplodeAvoids(" ", names, '"');
    if |names| > 1 {
      assert Implode(" ", names) == names[0] + " " + Implode(" ", names[1..]);
    }
  }

  /** The advertised list of names is a safe header value that splits back into the names. */
  lemma SignedNamesText()
    ensures HeaderSafe(Implode(" ", SignedNames))
    ensures Explode(' ', Implode(" ", SignedNames)) == SignedNames
  {
    SignedNamesChars();
    FourNamesJoin("content-length", "date", "digest", "host");
  }

  lemma FourNamesJoin(n0: string, n1: string, n2: string, n3: string)
    requires |n0| > 0 && NameChars(n0) && NameChars(n1) && NameChars(n2) && NameChars(n3)
    ensures HeaderSafe(Implode(" ", [n0, n1, n2, n3]))
    ensures Explode(' ', Implode(" ", [n0, n1, n2, n3])) == [n0, n1, n2, n3]
  {
    NamesJoin([n0, n1, n2, n3]);
  }

  /** Each advertised name is made of lower-case letters and '-'. */
  lemma SignedNamesChars()
    ensures NameChars(SignedNames[0]) && NameChars(SignedNames[1]) && NameChars(SignedNames[2]) && NameChars(SignedNames[3])
  {
    ContentLengthChars();
    DateHostChars();
    DigestChars();
  }

  lemma DateHostChars()
    ensures NameChars("date") && NameChars("host")
  {
  }

  lemma ContentLengthChars()
    ensures NameChars("content-length")
  {
    assert NameChars("length");
  }

  lemma DigestChars()
    ensures NameChars("digest")
  {
    assert NameChars("gest");
  }

  /** Four text parameters under distinct word names read back as themselves. */
  lemma ParamsOfFour(n0: string, n1: string, n2: string, n3: string, v0: string, v1: string, v2: string, v3: string)
    requires ToKey(n0) == StrKey(n0) && ToKey(n1) == StrKey(n1) && ToKey(n2) == StrKey(n2) && ToKey(n3) == StrKey(n3)
    requires n0 != n1 && n0 != n2 && n0 != n3 && n1 != n2 && n1 != n3 && n2 != n3
    ensures var sh := [Entry(StrKey(n0), Str(v0)), Entry(StrKey(n1), Str(v1)), Entry(StrKey(n2), Str(v2)), Entry(StrKey(n3), Str(v3))];
            && Param(sh, n0) == v0 && Param(sh, n1) == v1 && Param(sh, n2) == v2 && Param(sh, n3) == v3
            && Has(sh, n0) && Has(sh, n1) && Has(sh, n2) && Has(sh, n3)
  {
    var sh := [Entry(StrKey(n0), Str(v0)), Entry(StrKey(n1), Str(v1)), Entry(StrKey(n2), Str(v2)), Entry(StrKey(n3), Str(v3))];
    LookupFour(StrKey(n0), StrKey(n1), StrKey(n2), StrKey(n3), Str(v0), Str(v1), Str(v2), Str(v3));
    ParamOf(sh, n0, v0);
    ParamOf(sh, n1, v1);
    ParamOf(sh, n2, v2);
    ParamOf(sh, n3, v3);
    var ks := Keys(sh);
    assert ks[0] == StrKey(n0) && ks[1] == StrKey(n1) && ks[2] == StrKey(n2) && ks[3] == StrKey(n3);
  }

  lemma ParamOf(sh: seq<Entry>, name: string, v: string)
    requires ToKey(name) == StrKey(name) && Lookup(sh, StrKey(name)) == Some(Str(v))
    ensures Param(sh, name) == v
  {
  }

  /** The receiver reads each of the four composed parameters back, and finds the three it requires. */
  lemma ComposedParams(keyId: string, algorithm: string, headers: string, signature: string)
    ensures var sh := ComposedMap(keyId, algorithm, headers, signature);
            && Param(sh, "keyId") == keyId && Param(sh, "algorithm") == algorithm
            && Param(sh, "headers") == headers && Param(sh, "signature") == signature
            && Has(sh, "keyId") && Has(sh, "headers") && Has(sh, "signature")
  {
    ToKeyOfWord("keyId");
    ToKeyOfWord("algorithm");
    ToKeyOfWord("headers");
    ToKeyOfWord("signature");
    assert "keyId"[0] != "algorithm"[0] && "keyId"[0] != "headers"[0] && "keyId"[0] != "signature"[0];
    assert "algorithm"[0] != "headers"[0] && "algorithm"[0] != "signature"[0] && "headers"[0] != "signature"[0];
    ParamsOfFour("keyId", "algorithm", "headers", "signature", keyId, algorithm, headers, signature);
  }

  /** A name that is not four characters long, or starts with a lower-case letter other than 'h', does not lower to "host". */
  lemma NotHost(n: string)
    requires |n| != 4 || ('a' <= n[0] <= 'z' && n[0] != 'h')
    ensures Lower(n) != "host"
  {
    if |n| == 4 {
      assert Lower(n)[0] == n[0];
    }
  }

  /** A name whose own rule gives the receiver's host. */
  lemma LowerHost()
    ensures Lower("host") == "host"
  {
    assert |Lower("host")| == 4;
  }

  /** A declared name other than the host takes the request's header of that name. */
  lemma NameValue(rev: Revision, n: string, req: IncomingRequest, host: string)
    requires |n| != 4 || ('a' <= n[0] <= 'z' && n[0] != 'h')
    ensures HeaderValue(rev, n, req, host) == req.header(n)
  {
    NotHost(n);
  }

  /** On the advertised names, only "host" takes the receiver's host. */
  lemma SignedNamesValues(rev: Revision, req: IncomingRequest, host: string)
    ensures HeaderValue(rev, "content-length", req, host) == req.header("content-length")
    ensures HeaderValue(rev, "date", req, host) == req.header("date")
    ensures HeaderValue(rev, "digest", req, host) == req.header("digest")
    ensures HeaderValue(rev, "host", req, host) == ReceiverHost(rev, req, host)
  {
    LowerHost();
    NameValue(rev, "content-length", req, host);
    NameValue(rev, "date", req, host);
    NameValue(rev, "digest", req, host);
  }

  /** Four declared names with non-empty values give their four lines, in order. */
  lemma LinesOfFour(rev: Revision, n0: string, n1: string, n2: string, n3: string, req: IncomingRequest, host: string)
    requires HeaderValue(rev, n0, req, host) != "" && HeaderValue(rev, n1, req, host) != ""
    requires HeaderValue(rev, n2, req, host) != "" && HeaderValue(rev, n3, req, host) != ""
    ensures SignedLines(rev, [n0, n1, n2, n3], req, host)
         == Success([SigningLine(n0, HeaderValue(rev, n0, req, host)), SigningLine(n1, HeaderValue(rev, n1, req, host)),
                     SigningLine(n2, HeaderValue(rev, n2, req, host)), SigningLine(n3, HeaderValue(rev, n3, req, host))])
  {
    var keys := [n0, n1, n2, n3];
    var r := SignedLines(rev, keys, req, host);
    SignedLinesOutcome(rev, keys, req, host);
    assert r.Success?;
    var ls := [SigningLine(n0, HeaderValue(rev, n0, req, host)), SigningLine(n1, HeaderValue(rev, n1, req, host)),
               SigningLine(n2, HeaderValue(rev, n2, req, host)), SigningLine(n3, HeaderValue(rev, n3, req, host))];
    assert forall i :: 0 <= i < 4 ==> r.value[i] == SigningLine(keys[i], HeaderValue(rev, keys[i], req, host));
    assert r.value == ls;
  }

  /** The receiver's lines for the advertised names, when none of their values is empty. */
  lemma SignedNamesLines(rev: Revision, req: IncomingRequest, host: string)
    requires req.header("content-length") != "" && req.header("date") != "" && req.header("digest") != ""
    requires ReceiverHost(rev, req, host) != ""
    ensures SignedLines(rev, SignedNames, req, host)
         == Success([SigningLine("content-length", req.header("content-length")), SigningLine("date", req.header("date")),
                     SigningLine("digest", req.header("digest")), SigningLine("host", ReceiverHost(rev, req, host))])
  {
    SignedNamesValues(rev, req, host);
    LinesOfFour(rev, "content-length", "date", "digest", "host", req, host);
  }

  /** Once every required name is declared and every declared value is present, the signing string is the target line and the lines. */
  lemma ClearOfDeclared(rev: Revision, sh: seq<Entry>, req: IncomingRequest, host: string, enforced: seq<string>,
                        names: seq<string>, ls: seq<string>)
    requires DeclaredHeaders(sh) == names && AllDeclared(Required(enforced), names)
    requires SignedLines(rev, names, req, host) == Success(ls)
    ensures ClearSignature(rev, sh, req, host, enforced) == Success(Implode("\n", [TargetLine(req.verb, req.uri)] + ls))
  {
  }

  /** The receiver parses the sender's `Signature` header into its four parameters, the names joined by ' '. */
  lemma SentHeaderParses(data: seq<Entry>, keyId: string, chosen: string, signed: string)
    requires AdvertisedNames(data) == SignedNames
    requires HeaderSafe(keyId) && HeaderSafe(chosen) && HeaderSafe(signed)
    ensures ParseSignatureHeader(SignatureHeaderWith(data, keyId, chosen, signed))
         == ComposedMap(keyId, chosen, Implode(" ", SignedNames), signed)
  {
    SignedNamesText();
    ParseComposed(keyId, chosen, Implode(" ", SignedNames), signed);
  }

  /** The advertised names cover the three fixed required ones, so any enforced among them are all declared. */
  lemma SignedNamesRequired(enforced: seq<string>)
    requires forall e :: e in enforced ==> e in SignedNames
    ensures AllDeclared(Required(enforced), SignedNames)
  {
    assert SignedNames[0] == "content-length" && SignedNames[1] == "date" && SignedNames[3] == "host";
    RequiredDeclared(enforced, SignedNames);
  }

  lemma RequiredDeclared(enforced: seq<string>, names: seq<string>)
    requires "content-length" in names && "date" in names && "host" in names
    requires forall e :: e in enforced ==> e in names
    ensures AllDeclared(Required(enforced), names)
  {
    forall e | e in Required(enforced) ensures e in names {
      var fixed := ["content-length", "date", "host"];
      assert Required(enforced) == fixed + enforced;
      if e in fixed {
        assert e == fixed[0] || e == fixed[1] || e == fixed[2];
      }
    }
  }

  /** The composed header declares exactly the advertised names. */
  lemma ComposedDeclares(keyId: string, chosen: string, signed: string)
    ensures DeclaredHeaders(ComposedMap(keyId, chosen, Implode(" ", SignedNames), signed)) == SignedNames
  {
    ComposedParams(keyId, chosen, Implode(" ", SignedNames), signed);
    SignedNamesText();
  }

  /** The receiver parses the header the sender composed for its own data. */
  lemma AgreeOnParameters(target: string, body: string, date: string, digest: string, sentHost: string,
                          keyId: string, chosen: string, signed: string)
    requires HeaderSafe(keyId) && HeaderSafe(chosen) && HeaderSafe(signed)
    ensures ParseSignatureHeader(SignatureHeaderWith(OutgoingData(target, body, date, digest, sentHost), keyId, chosen, signed))
         == ComposedMap(keyId, chosen, Implode(" ", SignedNames), signed)
  {
    OutgoingHeaders(target, body, date, digest, sentHost);
    SentHeaderParses(OutgoingData(target, body, date, digest, sentHost), keyId, chosen, signed);
  }

  /** The receiver's signing string for a header that declares the advertised names. */
  lemma AgreeOnLines(rev: Revision, req: IncomingRequest, host: string, enforced: seq<string>, keyId: string, chosen: string, signed: string)
    requires req.header("content-length") != "" && req.header("date") != "" && req.header("digest") != ""
    requires ReceiverHost(rev, req, host) != ""
    requires forall e :: e in enforced ==> e in SignedNames
    ensures ClearSignature(rev, ComposedMap(keyId, chosen, Implode(" ", SignedNames), signed), req, host, enforced)
         == Success(Implode("\n", [TargetLine(req.verb, req.uri)]
                                  + [SigningLine("content-length", req.header("content-length")), SigningLine("date", req.header("date")),
                                     SigningLine("digest", req.header("digest")), SigningLine("host", ReceiverHost(rev, req, host))]))
  {
    ComposedDeclares(keyId, chosen, signed);
    SignedNamesRequired(enforced);
    SignedNamesLines(rev, req, host);
    ClearOfDeclared(rev, ComposedMap(keyId, chosen, Implode(" ", SignedNames), signed), req, host, enforced, SignedNames,
                    [SigningLine("content-length", req.header("content-length")), SigningLine("date", req.header("date")),
                     SigningLine("digest", req.header("digest")), SigningLine("host", ReceiverHost(rev, req, host))]);
  }

  /**
   * The signer and the verifier build the same signing string: a receiver
   * that sees the sender's method, path, content-length, date, digest and
   * host, and parses the `Signature` header the sender composed, rebuilds
   * exactly the string the sender signed, whatever extra names it enforces
   * among the advertised ones.
   */
  lemma ReceiverRebuildsSigningString(rev: Revision, req: IncomingRequest, host: string, enforced: seq<string>,
                                      verb: string, path: string, sentHost: string, body: string, date: string,
                                      digest: string, keyId: string, chosen: string, signed: string)
    requires verb == Lower(req.verb) && path == req.uri && sentHost == ReceiverHost(rev, req, host)
    requires |body| <= MaxLong && req.header("content-length") == IntToString(|body|)
    requires req.header("date") == date && req.header("digest") == digest
    requires date != "" && digest != "" && sentHost != ""
    requires forall e :: e in enforced ==> e in SignedNames
    requires HeaderSafe(keyId) && HeaderSafe(chosen) && HeaderSafe(signed)
    ensures var data := OutgoingData(verb + " " + path, body, date, digest, sentHost);
            var sh := ParseSignatureHeader(SignatureHeaderWith(data, keyId, chosen, signed));
            && sh == ComposedMap(keyId, chosen, Implode(" ", SignedNames), signed)
            && ClearSignature(rev, sh, req, host, enforced) == Success(OutgoingClear(data))
  {
    IntToStringHead(|body|);
    AgreeOnParameters(verb + " " + path, body, date, digest, sentHost, keyId, chosen, signed);
    AgreeOnLines(rev, req, host, enforced, keyId, chosen, signed);
    OutgoingLines(verb + " " + path, body, date, digest, sentHost);
  }

  // ------------------------------------------------------------ end to end

  /** The receiver reads the sender's key id and signature, and finds the origin of the key id. */
  lemma ParsesSentParameters(keyId: string, chosen: string, signed: string, parseHost: string -> Option<string>)
    requires KeyOrigin(keyId, parseHost).Success?
    ensures var sh := ComposedMap(keyId, chosen, Implode(" ", SignedNames), signed);
            && ParseIncoming(sh, parseHost) == Success((parseHost(keyId).value, signed))
            && Param(sh, "keyId") == keyId && Param(sh, "algorithm") == chosen
  {
    ComposedParams(keyId, chosen, Implode(" ", SignedNames), signed);
  }

  /** With a matching key pair, the decoded signature verifies under the algorithm the label names. */
  lemma VerifiesFirstTime(rev: Revision, keyId: string, clear: string, privateKey: string, algorithm: Algorithm,
                          chosen: string, c: Collaborators, k: Signatory)
    requires rev != NC23
    requires c.retrieve(keyId, false) == Success(k) && k.publicKey != ""
    requires OpenSSLAlgo(algorithm) == OpenSSLAlgo(UsedEncryption(chosen))
    requires KeyPairMatches(c.crypto, k.publicKey, privateKey, UsedEncryption(chosen))
    ensures VerifyIncoming(rev, keyId, clear, c.crypto.encode(c.crypto.sign(clear, privateKey, OpenSSLAlgo(algorithm))), chosen, c)
         == Success(k)
  {
    var signed := c.crypto.encode(c.crypto.sign(clear, privateKey, OpenSSLAlgo(algorithm)));
    assert c.crypto.verify(clear, Received(rev, signed, c.crypto), k.publicKey, UsedEncryption(chosen)) == 1;
  }

  /** The request's own checks pass: the date is fresh, the length and the digest match. */
  lemma SentContentPasses(body: string, req: IncomingRequest, c: Collaborators, date: string, digest: string, t: int)
    requires |body| <= MaxLong
    requires req.header("content-length") == IntToString(|body|) && req.header("date") == date && req.header("digest") == digest
    requires c.parseDate(date) == Some(t) && t >= c.now - TTL
    requires c.digestOf(body) == digest
    ensures RequestTime(req.header("date"), c) == Success(t)
    ensures ContentCheck(body, req, c.digestOf) == Success(())
  {
    IntValOfInt(|body|);
  }

  /**
   * End to end, for any algorithm label: a request signed by the sender and
   * received intact is accepted by NC21 and NC22, with the sender's signing
   * string, the origin of its key id and the signatory retrieved for it,
   * provided the label names the algorithm the signature was made with.
   */
  lemma SignedRequestAcceptedWith(rev: Revision, body: string, host: string, req: IncomingRequest, c: Collaborators,
                                  verb: string, path: string, sentHost: string, date: string, digest: string,
                                  s: Signatory, chosen: string, t: int, k: Signatory)
    requires rev != NC23
    requires var data := OutgoingData(verb + " " + path, body, date, digest, sentHost);
             var signed := c.crypto.encode(c.crypto.sign(OutgoingClear(data), s.privateKey, OpenSSLAlgo(s.algorithm)));
             req.header("Signature") == SignatureHeaderWith(data, s.keyId, chosen, signed) && HeaderSafe(signed)
    requires verb == Lower(req.verb) && path == req.uri && sentHost == ReceiverHost(rev, req, host)
    requires |body| <= MaxLong && req.header("content-length") == IntToString(|body|)
    requires req.header("date") == date && req.header("digest") == digest
    requires date != "" && digest != "" && sentHost != ""
    requires forall e :: e in c.enforced ==> e in SignedNames
    requires HeaderSafe(s.keyId) && HeaderSafe(chosen)
    requires c.parseDate(date) == Some(t) && t >= c.now - TTL && c.digestOf(body) == digest
    requires KeyOrigin(s.keyId, c.parseHost).Success?
    requires c.retrieve(s.keyId, false) == Success(k) && k.publicKey != ""
    requires OpenSSLAlgo(s.algorithm) == OpenSSLAlgo(UsedEncryption(chosen))
    requires KeyPairMatches(c.crypto, k.publicKey, s.privateKey, UsedEncryption(chosen))
    ensures var data := OutgoingData(verb + " " + path, body, date, digest, sentHost);
            var signed := c.crypto.encode(c.crypto.sign(OutgoingClear(data), s.privateKey, OpenSSLAlgo(s.algorithm)));
            Incoming(rev, body, host, req, c)
            == Success(Verified(t, ComposedMap(s.keyId, chosen, Implode(" ", SignedNames), signed), OutgoingClear(data),
                                c.parseHost(s.keyId).value, signed, k))
  {
    var data := OutgoingData(verb + " " + path, body, date, digest, sentHost);
    var clear := OutgoingClear(data);
    var signed := c.crypto.encode(c.crypto.sign(clear, s.privateKey, OpenSSLAlgo(s.algorithm)));
    var sh := ComposedMap(s.keyId, chosen, Implode(" ", SignedNames), signed);
    ReceiverRebuildsSigningString(rev, req, host, c.enforced, verb, path, sentHost, body, date, digest, s.keyId, chosen, signed);
    SentContentPasses(body, req, c, date, digest, t);
    ParsesSentParameters(s.keyId, chosen, signed, c.parseHost);
    VerifiesFirstTime(rev, s.keyId, clear, s.privateKey, s.algorithm, chosen, c, k);
    AcceptedStep(rev, body, req, c, sh, clear, t, (c.parseHost(s.keyId).value, signed), k);
  }

  /** `Validate` when each check gives the expected result. */
  lemma AcceptedStep(rev: Revision, body: string, req: IncomingRequest, c: Collaborators, sh: seq<Entry>, clear: string,
                     t: int, p: (string, string), k: Signatory)
    requires RequestTime(req.header("date"), c) == Success(t) && ContentCheck(body, req, c.digestOf).Success?
    requires ParseIncoming(sh, c.parseHost) == Success(p)
    requires VerifyIncoming(rev, Param(sh, "keyId"), clear, p.1, Param(sh, "algorithm"), c) == Success(k)
    ensures Validate(rev, body, req, c, sh, Success(clear)) == Success(Verified(t, sh, clear, p.0, p.1, k))
  {
  }

  /**
   * End to end, as written: a request signed with SHA-256 (or any algorithm
   * but SHA-512) and received intact is accepted by NC21 and NC22.
   */
  lemma SignedRequestAccepted(rev: Revision, body: string, host: string, req: IncomingRequest, c: Collaborators,
                              verb: string, path: string, sentHost: string, date: string, digest: string,
                              s: Signatory, t: int, k: Signatory)
    requires rev != NC23 && s.privateKey != "" && s.algorithm != SHA512
    requires var o := SignOutgoing(verb, path, sentHost, body, date, digest, s, c.crypto);
             o.Success? && req.header("Signature") == o.value.signature && HeaderSafe(o.value.signed)
    requires verb == Lower(req.verb) && path == req.uri && sentHost == ReceiverHost(rev, req, host)
    requires |body| <= MaxLong && req.header("content-length") == IntToString(|body|)
    requires req.header("date") == date && req.header("digest") == digest
    requires date != "" && digest != "" && sentHost != ""
    requires forall e :: e in c.enforced ==> e in SignedNames
    requires HeaderSafe(s.keyId)
    requires c.parseDate(date) == Some(t) && t >= c.now - TTL && c.digestOf(body) == digest
    requires KeyOrigin(s.keyId, c.parseHost).Success?
    requires c.retrieve(s.keyId, false) == Success(k) && k.publicKey != ""
    requires KeyPairMatches(c.crypto, k.publicKey, s.privateKey, SHA256)
    ensures var o := SignOutgoing(verb, path, sentHost, body, date, digest, s, c.crypto).value;
            Incoming(rev, body, host, req, c)
            == Success(Verified(t, ParseSignatureHeader(o.signature), o.clear, c.parseHost(s.keyId).value, o.signed, k))
  {
    var chosen := ChosenEncryption(s.algorithm);
    ChosenLabelReadAsSHA256(s.algorithm);
    ChosenLabelSafe(s.algorithm);
    var data := OutgoingData(verb + " " + path, body, date, digest, sentHost);
    var signed := c.crypto.encode(c.crypto.sign(OutgoingClear(data), s.privateKey, OpenSSLAlgo(s.algorithm)));
    ReceiverRebuildsSigningString(rev, req, host, c.enforced, verb, path, sentHost, body, date, digest, s.keyId, chosen, signed);
    SignedRequestAcceptedWith(rev, body, host, req, c, verb, path, sentHost, date, digest, s, chosen, t, k);
  }

  /**
   * End to end, with the label the receiver recognises: a request signed
   * with SHA-256 or SHA-512 and received intact is accepted by NC21 and
   * NC22 when its header carries `IntendedChosenEncryption`.
   */
  lemma IntendedLabelAccepted(rev: Revision, body: string, host: string, req: IncomingRequest, c: Collaborators,
                              verb: string, path: string, sentHost: string, date: string, digest: string,
                              s: Signatory, t: int, k: Signatory)
    requires rev != NC23 && (s.algorithm == SHA256 || s.algorithm == SHA512)
    requires var data := OutgoingData(verb + " " + path, body, date, digest, sentHost);
             var signed := c.crypto.encode(c.crypto.sign(OutgoingClear(data), s.privateKey, OpenSSLAlgo(s.algorithm)));
             req.header("Signature") == SignatureHeaderWith(data, s.keyId, IntendedChosenEncryption(s.algorithm), signed)
             && HeaderSafe(signed)
    requires verb == Lower(req.verb) && path == req.uri && sentHost == ReceiverHost(rev, req, host)
    requires |body| <= MaxLong && req.header("content-length") == IntToString(|body|)
    requires req.header("date") == date && req.header("digest") == digest
    requires date != "" && digest != "" && sentHost != ""
    requires forall e :: e in c.enforced ==> e in SignedNames
    requires HeaderSafe(s.keyId)
    requires c.parseDate(date) == Some(t) && t >= c.now - TTL && c.digestOf(body) == digest
    requires KeyOrigin(s.keyId, c.parseHost).Success?
    requires c.retrieve(s.keyId, false) == Success(k) && k.publicKey != ""
    requires KeyPairMatches(c.crypto, k.publicKey, s.privateKey, s.algorithm)
    ensures Incoming(rev, body, host, req, c).Success?
    ensures Incoming(rev, body, host, req, c).value.signatory == k
  {
    IntendedLabelRoundTrip(s.algorithm);
    SignedRequestAcceptedWith(rev, body, host, req, c, verb, path, sentHost, date, digest, s,
                              IntendedChosenEncryption(s.algorithm), t, k);
  }
}
