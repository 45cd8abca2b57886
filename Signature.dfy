/**
 * The objects of the signature pipelines: the signed request the pipelines
 * fill in step by step, the outgoing request the sender adds headers to,
 * and the signature service whose private steps do the filling.  Each step
 * is proved against the function of `SignatureSpec` that says what it
 * computes; the two pipelines are proved against `Incoming` and
 * `SignOutgoing`, whose properties are proved there.
 */
module Signatures {
  import opened Wrappers
  import opened PhpStrings
  import opened PhpArrays
  import opened DataStore
  import opened Signatories
  import opened SignatureText
  import opened SignatureSpec

  /** `NC2xSignedRequest`: what the pipelines learn about one request. */
  class SignedRequest {
    const body: string
    var host: string                    // NC21 only: the caller's host
    var time: int
    var signatureHeader: seq<Entry>     // the data store of the `Signature` parameters, or of the signed entries
    var clearSignature: string
    var origin: string
    var signedSignature: string
    var signatory: Option<Signatory>

    constructor (body: string)
      ensures this.body == body && host == "" && time == 0 && signatureHeader == []
      ensures clearSignature == "" && origin == "" && signedSignature == "" && signatory == None
    {
      this.body := body;
      host := "";
      time := 0;
      signatureHeader := [];
      clearSignature := "";
      origin := "";
      signedSignature := "";
      signatory := None;
    }
  }

  /** `NC2xRequest` as the sender sees it: its method, path, host and body, and the headers added so far. */
  class OutgoingRequest {
    const verb: string      // NC2xRequest::method($request->getType())
    const path: string
    const host: string
    const dataBody: string
    var headers: seq<(string, Value)>

    constructor (verb: string, path: string, host: string, dataBody: string)
      ensures this.verb == verb && this.path == path && this.host == host && this.dataBody == dataBody
      ensures headers == []
    {
      this.verb := verb;
      this.path := path;
      this.host := host;
      this.dataBody := dataBody;
      headers := [];
    }

    /** `addHeader($key, $value)`: one more header, after the others. */
    method AddHeader(name: string, value: Value)
      modifies this`headers
      ensures headers == old(headers) + [(name, value)]
    {
      headers := headers + [(name, value)];
    }
  }

  /*
   * Setting a key none of the stored entries has appends it.  One lemma per
   * store length keeps a single `Set` in each proof; chained, they show that
   * five different keys set into an empty store are listed in that order.
   */
  lemma SetFirst(k0: Key, v0: Value)
    ensures Set([], k0, v0) == [Entry(k0, v0)]
  {
    SetNew([], k0, v0);
  }

  lemma SetSecond(k0: Key, k1: Key, v0: Value, v1: Value)
    requires k1 != k0
    ensures Set([Entry(k0, v0)], k1, v1) == [Entry(k0, v0), Entry(k1, v1)]
  {
    assert Keys([Entry(k0, v0)]) == [k0];
    SetNew([Entry(k0, v0)], k1, v1);
  }

  lemma SetThird(k0: Key, k1: Key, k2: Key, v0: Value, v1: Value, v2: Value)
    requires k2 != k0 && k2 != k1
    ensures Set([Entry(k0, v0), Entry(k1, v1)], k2, v2) == [Entry(k0, v0), Entry(k1, v1), Entry(k2, v2)]
  {
    assert Keys([Entry(k0, v0), Entry(k1, v1)]) == [k0, k1];
    SetNew([Entry(k0, v0), Entry(k1, v1)], k2, v2);
  }

  lemma SetFourth(k0: Key, k1: Key, k2: Key, k3: Key, v0: Value, v1: Value, v2: Value, v3: Value)
    requires k3 != k0 && k3 != k1 && k3 != k2
    ensures Set([Entry(k0, v0), Entry(k1, v1), Entry(k2, v2)], k3, v3)
         == [Entry(k0, v0), Entry(k1, v1), Entry(k2, v2), Entry(k3, v3)]
  {
    assert Keys([Entry(k0, v0), Entry(k1, v1), Entry(k2, v2)]) == [k0, k1, k2];
    SetNew([Entry(k0, v0), Entry(k1, v1), Entry(k2, v2)], k3, v3);
  }

  lemma SetFifth(k0: Key, k1: Key, k2: Key, k3: Key, k4: Key, v0: Value, v1: Value, v2: Value, v3: Value, v4: Value)
    requires k4 != k0 && k4 != k1 && k4 != k2 && k4 != k3
    ensures Set([Entry(k0, v0), Entry(k1, v1), Entry(k2, v2), Entry(k3, v3)], k4, v4)
         == [Entry(k0, v0), Entry(k1, v1), Entry(k2, v2), Entry(k3, v3), Entry(k4, v4)]
  {
    assert Keys([Entry(k0, v0), Entry(k1, v1), Entry(k2, v2), Entry(k3, v3)]) == [k0, k1, k2, k3];
    SetNew([Entry(k0, v0), Entry(k1, v1), Entry(k2, v2), Entry(k3, v3)], k4, v4);
  }

  lemma SetFiveInOrder(k0: Key, k1: Key, k2: Key, k3: Key, k4: Key, v0: Value, v1: Value, v2: Value, v3: Value, v4: Value)
    requires k0 != k1 && k0 != k2 && k0 != k3 && k0 != k4
    requires k1 != k2 && k1 != k3 && k1 != k4 && k2 != k3 && k2 != k4 && k3 != k4
    ensures Set(Set(Set(Set(Set([], k0, v0), k1, v1), k2, v2), k3, v3), k4, v4)
         == [Entry(k0, v0), Entry(k1, v1), Entry(k2, v2), Entry(k3, v3), Entry(k4, v4)]
  {
    SetFirst(k0, v0);
    SetSecond(k0, k1, v0, v1);
    SetThird(k0, k1, k2, v0, v1, v2);
    SetFourth(k0, k1, k2, k3, v0, v1, v2, v3);
    SetFifth(k0, k1, k2, k3, k4, v0, v1, v2, v3, v4);
  }

  /** One more stored entry adds its line, and its header unless it is the request target. */
  lemma OutgoingStep(data: seq<Entry>, i: nat)
    requires i < |data|
    ensures ClearLines(data[..i + 1]) == ClearLines(data[..i]) + [SigningLine(KeyString(data[i].key), ValueText(data[i].val))]
    ensures AddedHeaders(data[..i + 1])
         == AddedHeaders(data[..i]) + if KeyString(data[i].key) != RequestTarget then [(KeyString(data[i].key), data[i].val)] else []
  {
    assert data[..i + 1][..i] == data[..i];
  }

  /** One more declared name with a non-empty value adds its line. */
  lemma SignedLinesSnoc(rev: Revision, keys: seq<string>, i: nat, req: IncomingRequest, host: string)
    requires i < |keys| && SignedLines(rev, keys[..i], req, host).Success?
    requires HeaderValue(rev, keys[i], req, host) != ""
    ensures SignedLines(rev, keys[..i + 1], req, host)
         == Success(SignedLines(rev, keys[..i], req, host).value + [SigningLine(keys[i], HeaderValue(rev, keys[i], req, host))])
  {
    assert keys[..i + 1][..i] == keys[..i];
  }

  /** Every declared name has a value: the signing string is the target line and the lines. */
  lemma ClearSignatureAllValues(rev: Revision, sh: seq<Entry>, req: IncomingRequest, host: string, enforced: seq<string>)
    requires AllDeclared(Required(enforced), DeclaredHeaders(sh))
    requires SignedLines(rev, DeclaredHeaders(sh), req, host).Success?
    ensures ClearSignature(rev, sh, req, host, enforced)
         == Success(Implode("\n", [TargetLine(req.verb, req.uri)] + SignedLines(rev, DeclaredHeaders(sh), req, host).value))
  {
  }

  /** Required names left undeclared fail the signing string with the revision's error. */
  lemma ClearSignatureUndeclared(rev: Revision, sh: seq<Entry>, req: IncomingRequest, host: string, enforced: seq<string>)
    requires !AllDeclared(Required(enforced), DeclaredHeaders(sh))
    ensures ClearSignature(rev, sh, req, host, enforced) == Failure(EnforcementError(rev))
  {
  }

  /** The validation stops at the date when it does not pass … */
  lemma ValidateTimeFails(rev: Revision, body: string, req: IncomingRequest, c: Collaborators, sh: seq<Entry>,
                          clear: Result<string, SigError>)
    requires RequestTime(req.header("date"), c).Failure?
    ensures Validate(rev, body, req, c, sh, clear) == Failure(RequestTime(req.header("date"), c).error)
  {
  }

  /** An accepted request carries the date's time. */
  lemma ValidateDated(rev: Revision, body: string, req: IncomingRequest, c: Collaborators, sh: seq<Entry>,
                      clear: Result<string, SigError>)
    ensures Validate(rev, body, req, c, sh, clear).Success?
            ==> RequestTime(req.header("date"), c) == Success(Validate(rev, body, req, c, sh, clear).value.time)
  {
  }

  /** … at the content when it does not match … */
  lemma ValidateContentFails(rev: Revision, body: string, req: IncomingRequest, c: Collaborators, sh: seq<Entry>,
                             clear: Result<string, SigError>)
    requires RequestTime(req.header("date"), c).Success? && ContentCheck(body, req, c.digestOf).Failure?
    ensures Validate(rev, body, req, c, sh, clear) == Failure(ContentCheck(body, req, c.digestOf).error)
  {
  }

  /** … and at the signing string when it cannot be built. */
  lemma ValidateClearFails(rev: Revision, body: string, req: IncomingRequest, c: Collaborators, sh: seq<Entry>,
                           clear: Result<string, SigError>)
    requires RequestTime(req.header("date"), c).Success? && ContentCheck(body, req, c.digestOf).Success?
    requires clear.Failure?
    ensures Validate(rev, body, req, c, sh, clear) == Failure(clear.error)
  {
  }

  /** Once the date, the content and the signing string pass, the rest of the validation decides. */
  lemma ValidateAuthenticates(rev: Revision, body: string, req: IncomingRequest, c: Collaborators, sh: seq<Entry>,
                              t: int, clear: string)
    requires RequestTime(req.header("date"), c) == Success(t) && ContentCheck(body, req, c.digestOf).Success?
    ensures Validate(rev, body, req, c, sh, Success(clear)) == Authenticate(rev, c, sh, clear, t)
  {
  }

  /**
   * The outcome `r` of the incoming steps and the state they leave in `sr`
   * agree with the validation `spec`: the same success or the same error,
   * and on success every field holds what the validation read or built.
   */
  predicate Reflects(sr: SignedRequest, r: Result<(), SigError>, spec: Result<Verified, SigError>)
    reads sr
  {
    && (r.Success? <==> spec.Success?)
    && (r.Failure? ==> r.error == spec.error)
    && (spec.Success? ==> sr.time == spec.value.time && sr.signatureHeader == spec.value.signatureHeader
                          && sr.clearSignature == spec.value.clear && sr.origin == spec.value.origin
                          && sr.signedSignature == spec.value.signed && sr.signatory == Some(spec.value.signatory))
  }

  /** `NC21Signature`, `NC22Signature` or `NC23Signature`. */
  class SignatureService {
    const rev: Revision

    constructor (rev: Revision)
      ensures this.rev == rev
    {
      this.rev := rev;
    }

    // ------------------------------------------------------------ incoming

    /** `verifyIncomingRequestTime`: the time is stored as soon as the date parses, even when it is too old. */
    method VerifyIncomingRequestTime(sr: SignedRequest, req: IncomingRequest, c: Collaborators) returns (r: Result<(), SigError>)
      modifies sr`time
      ensures var spec := RequestTime(req.header("date"), c);
              (r.Success? <==> spec.Success?) && (r.Failure? ==> r.error == spec.error)
      ensures sr.time == if c.parseDate(req.header("date")).Some? then c.parseDate(req.header("date")).value else old(sr.time)
    {
      match c.parseDate(req.header("date"))
      case None =>
        return Failure(SignatureError("datetime exception"));
      case Some(t) =>
        sr.time := t;
        if sr.time < c.now - TTL {
          return Failure(SignatureError("object is too old"));
        }
        return Success(());
    }

    /** `verifyIncomingRequestContent`: length, then digest when one is sent. */
    method VerifyIncomingRequestContent(sr: SignedRequest, req: IncomingRequest, c: Collaborators) returns (r: Result<(), SigError>)
      ensures var spec := ContentCheck(sr.body, req, c.digestOf);
              (r.Success? <==> spec.Success?) && (r.Failure? ==> r.error == spec.error)
    {
      if |sr.body| != IntVal(req.header("content-length")) {
        return Failure(SignatureError("issue with content-length"));
      }
      if req.header("digest") != "" && c.digestOf(sr.body) != req.header("digest") {
        return Failure(SignatureError("issue with digest"));
      }
      return Success(());
    }

    /** `setIncomingSignatureHeader`: the entries of the header, parsed one by one into the store. */
    method SetIncomingSignatureHeader(sr: SignedRequest, req: IncomingRequest)
      modifies sr`signatureHeader
      ensures sr.signatureHeader == ParseSignatureHeader(req.header("Signature"))
    {
      var entries := Explode(',', req.header("Signature"));
      var sign: seq<Entry> := [];
      var i := 0;
      while i < |entries|
        invariant 0 <= i <= |entries|
        invariant sign == ParseEntries(entries[..i])
      {
        ParseEntriesPrefix(entries, i);
        match ParseEntry(entries[i]) {
          case None =>
          case Some((k, v)) =>
            sign := Set(sign, ToKey(k), Str(v));
        }
        i := i + 1;
      }
      assert entries[..|entries|] == entries;
      sr.signatureHeader := sign;
    }

    /**
     * The loop of `setIncomingClearSignature`: one 'name: value' line per
     * declared name, in order, stopping at the first empty value.  The host
     * line uses the stored host in NC21 and the server's host later.
     */
    method EstimatedLines(headers: seq<string>, req: IncomingRequest, host: string) returns (r: Result<seq<string>, SigError>)
      ensures r == SignedLines(rev, headers, req, host)
    {
      var estimated: seq<string> := [];
      var i := 0;
      assert headers[..0] == [];
      while i < |headers|
        invariant 0 <= i <= |headers|
        invariant SignedLines(rev, headers[..i], req, host) == Success(estimated)
      {
        var key := headers[i];
        var value := req.header(key);
        if HostRule(rev, key) {
          value := if rev == NC21 then host else req.serverHost;
        }
        assert value == HeaderValue(rev, key, req, host);
        if value == "" {
          assert SignedLines(rev, headers, req, host) == Failure(SignatureError("empty elements in 'headers'")) by {
            SignedLinesOutcome(rev, headers, req, host);
            assert HeaderValue(rev, headers[i], req, host) == "";
          }
          return Failure(SignatureError("empty elements in 'headers'"));
        }
        assert SignedLines(rev, headers[..i + 1], req, host) == Success(estimated + [SigningLine(key, value)]) by {
          SignedLinesSnoc(rev, headers, i, req, host);
        }
        estimated := estimated + [SigningLine(key, value)];
        i := i + 1;
      }
      assert headers[..|headers|] == headers;
      return Success(estimated);
    }

    /**
     * `setIncomingClearSignature`: the required names must be declared; then
     * the request-target line and the lines of the declared names, joined
     * with "\n".
     */
    method SetIncomingClearSignature(sr: SignedRequest, req: IncomingRequest, enforced: seq<string>) returns (r: Result<(), SigError>)
      modifies sr`clearSignature
      ensures var spec := ClearSignature(rev, sr.signatureHeader, req, sr.host, enforced);
              && (r.Success? <==> spec.Success?) && (r.Failure? ==> r.error == spec.error)
              && sr.clearSignature == if spec.Success? then spec.value else old(sr.clearSignature)
    {
      var clear := EstimatedClear(sr.signatureHeader, req, sr.host, enforced);
      if clear.Failure? {
        return Failure(clear.error);
      }
      sr.clearSignature := clear.value;
      return Success(());
    }

    /** The signing string `setIncomingClearSignature` stores, or the error it raises. */
    method EstimatedClear(sh: seq<Entry>, req: IncomingRequest, host: string, enforced: seq<string>)
      returns (r: Result<string, SigError>)
      ensures r == ClearSignature(rev, sh, req, host, enforced)
    {
      var headers := DeclaredHeaders(sh);
      if !AllDeclared(Required(enforced), headers) {
        ClearSignatureUndeclared(rev, sh, req, host, enforced);
        return Failure(EnforcementError(rev));
      }
      var lines := EstimatedLines(headers, req, host);
      if lines.Failure? {
        return Failure(lines.error);
      }
      ClearSignatureAllValues(rev, sh, req, host, enforced);
      return Success(Implode("\n", [TargetLine(req.verb, req.uri)] + lines.value));
    }

    /** `parseIncomingSignatureHeader`: the required parameters, then the origin and the signed signature. */
    method ParseIncomingSignatureHeader(sr: SignedRequest, c: Collaborators) returns (r: Result<(), SigError>)
      modifies sr`origin, sr`signedSignature
      ensures var spec := ParseIncoming(sr.signatureHeader, c.parseHost);
              && (r.Success? <==> spec.Success?) && (r.Failure? ==> r.error == spec.error)
              && (spec.Success? ==> sr.origin == spec.value.0 && sr.signedSignature == spec.value.1)
              && (spec.Failure? ==> sr.origin == old(sr.origin) && sr.signedSignature == old(sr.signedSignature))
    {
      var data := sr.signatureHeader;
      if !(Has(data, "keyId") && Has(data, "headers") && Has(data, "signature")) {
        return Failure(SigError.MalformedArray);
      }
      var origin := KeyOrigin(Param(data, "keyId"), c.parseHost);
      if origin.Failure? {
        return Failure(origin.error);
      }
      sr.origin := origin.value;
      sr.signedSignature := Param(data, "signature");
      return Success(());
    }

    /**
     * `verifyIncomingRequestSignature`: the known signatory first; after a
     * signatory error, once more with a refreshed one.  The signatory is
     * stored as soon as it is retrieved.
     */
    method VerifyIncomingRequestSignature(sr: SignedRequest, c: Collaborators) returns (r: Result<(), SigError>)
      modifies sr`signatory
      ensures var keyId := Param(sr.signatureHeader, "keyId");
              var spec := VerifyIncoming(rev, keyId, sr.clearSignature, sr.signedSignature, Param(sr.signatureHeader, "algorithm"), c);
              && (r.Success? <==> spec.Success?) && (r.Failure? ==> r.error == spec.error)
              && (spec.Success? ==> sr.signatory == Some(spec.value))
              && sr.signatory == if c.retrieve(keyId, false).Success? then Some(c.retrieve(keyId, false).value)
                                 else if c.retrieve(keyId, false).error.SignatoryError? && c.retrieve(keyId, true).Success?
                                 then Some(c.retrieve(keyId, true).value)
                                 else old(sr.signatory)
    {
      var keyId := Param(sr.signatureHeader, "keyId");
      var algorithm := Param(sr.signatureHeader, "algorithm");
      var first := c.retrieve(keyId, false);
      if first.Success? {
        sr.signatory := Some(first.value);
        var verified := VerifySigned(rev, sr.clearSignature, sr.signedSignature, first.value, algorithm, c.crypto);
        return if verified.Success? then Success(()) else Failure(verified.error);
      }
      if !first.error.SignatoryError? {
        return Failure(first.error);
      }
      var second := c.retrieve(keyId, true);
      if second.Failure? {
        return Failure(second.error);
      }
      sr.signatory := Some(second.value);
      var verified := VerifySigned(rev, sr.clearSignature, sr.signedSignature, second.value, algorithm, c.crypto);
      return if verified.Success? then Success(()) else Failure(verified.error);
    }

    /** The last two steps of `incomingSignedRequest`: the parameters and the origin, then the signature. */
    method AuthenticateSteps(sr: SignedRequest, c: Collaborators) returns (r: Result<(), SigError>)
      modifies sr`origin, sr`signedSignature, sr`signatory
      ensures Reflects(sr, r, Authenticate(rev, c, sr.signatureHeader, sr.clearSignature, sr.time))
    {
      r := ParseIncomingSignatureHeader(sr, c);
      if r.Failure? {
        return;
      }
      r := VerifyIncomingRequestSignature(sr, c);
    }

    /** The signing string and the last two steps, for the stored `Signature` parameters; the first failure ends them. */
    method ClearedSteps(sr: SignedRequest, req: IncomingRequest, c: Collaborators) returns (r: Result<(), SigError>)
      requires RequestTime(req.header("date"), c) == Success(sr.time)
      requires ContentCheck(sr.body, req, c.digestOf).Success?
      modifies sr`clearSignature, sr`origin, sr`signedSignature, sr`signatory
      ensures Reflects(sr, r, Validate(rev, sr.body, req, c, sr.signatureHeader,
                                       ClearSignature(rev, sr.signatureHeader, req, sr.host, c.enforced)))
    {
      ghost var clear := ClearSignature(rev, sr.signatureHeader, req, sr.host, c.enforced);
      r := SetIncomingClearSignature(sr, req, c.enforced);
      if r.Failure? {
        ValidateClearFails(rev, sr.body, req, c, sr.signatureHeader, clear);
        return;
      }
      ValidateAuthenticates(rev, sr.body, req, c, sr.signatureHeader, sr.time, sr.clearSignature);
      r := AuthenticateSteps(sr, c);
    }

    /** The steps of `incomingSignedRequest` after the date and the content passed; the first failure ends them. */
    method SignedSteps(sr: SignedRequest, req: IncomingRequest, c: Collaborators) returns (r: Result<(), SigError>)
      requires RequestTime(req.header("date"), c) == Success(sr.time)
      requires ContentCheck(sr.body, req, c.digestOf).Success?
      modifies sr`signatureHeader, sr`clearSignature, sr`origin, sr`signedSignature, sr`signatory
      ensures Reflects(sr, r, Incoming(rev, sr.body, sr.host, req, c))
    {
      SetIncomingSignatureHeader(sr, req);
      r := ClearedSteps(sr, req, c);
    }

    /** The steps of `incomingSignedRequest` after the date passed, in order; the first failure ends them. */
    method CheckedSteps(sr: SignedRequest, req: IncomingRequest, c: Collaborators) returns (r: Result<(), SigError>)
      requires RequestTime(req.header("date"), c) == Success(sr.time)
      modifies sr`signatureHeader, sr`clearSignature, sr`origin, sr`signedSignature, sr`signatory
      ensures Reflects(sr, r, Incoming(rev, sr.body, sr.host, req, c))
    {
      r := VerifyIncomingRequestContent(sr, req, c);
      if r.Failure? {
        ghost var sh := ParseSignatureHeader(req.header("Signature"));
        ValidateContentFails(rev, sr.body, req, c, sh, ClearSignature(rev, sh, req, sr.host, c.enforced));
        return;
      }
      r := SignedSteps(sr, req, c);
    }

    /** The six steps of `incomingSignedRequest` in order; the first failure ends them. */
    method RunIncomingSteps(sr: SignedRequest, req: IncomingRequest, c: Collaborators) returns (r: Result<(), SigError>)
      modifies sr`time, sr`signatureHeader, sr`clearSignature, sr`origin, sr`signedSignature, sr`signatory
      ensures Reflects(sr, r, Incoming(rev, sr.body, sr.host, req, c))
    {
      ghost var sh := ParseSignatureHeader(req.header("Signature"));
      ghost var clear := ClearSignature(rev, sh, req, sr.host, c.enforced);
      ghost var spec := Incoming(rev, sr.body, sr.host, req, c);
      assert spec == Validate(rev, sr.body, req, c, sh, clear);
      r := VerifyIncomingRequestTime(sr, req, c);
      if r.Failure? {
        ValidateTimeFails(rev, sr.body, req, c, sh, clear);
        return;
      }
      ValidateDated(rev, sr.body, req, c, sh, clear);
      r := CheckedSteps(sr, req, c);
    }

    /**
     * `incomingSignedRequest`: an empty body is read from the request input
     * instead; NC21 stores the caller's host; then the six steps.  `host` is
     * the caller's host (NC21 and NC22; NC23 has no such argument, and from
     * NC22 on it plays no part).
     */
    method IncomingSignedRequest(host: string, body: string, input: string, req: IncomingRequest, c: Collaborators)
      returns (sr: SignedRequest, r: Result<(), SigError>)
      ensures fresh(sr)
      ensures sr.body == if body == "" then input else body
      ensures Reflects(sr, r, Incoming(rev, sr.body, host, req, c))
    {
      sr := new SignedRequest(if body == "" then input else body);
      if rev == NC21 {
        sr.host := host;
      } else {
        HostArgumentIgnored(rev, sr.body, sr.host, host, req, c);
      }
      r := RunIncomingSteps(sr, req, c);
    }

    // ------------------------------------------------------------ outgoing

    /** `setOutgoingSignatureHeader`: target, length, date, digest and host, stored in that order. */
    method SetOutgoingSignatureHeader(sr: SignedRequest, out: OutgoingRequest, date: string, digest: string)
      modifies sr`signatureHeader
      ensures sr.signatureHeader == OutgoingData(out.verb + " " + out.path, sr.body, date, digest, out.host)
    {
      var data := new SimpleDataStore([]);
      data.S(RequestTarget, out.verb + " " + out.path);
      data.SInt("content-length", |sr.body|);
      data.S("date", date);
      data.S("digest", digest);
      data.S("host", out.host);
      StoredKeys();
      StoredNamesDiffer();
      SetFiveInOrder(StrKey(RequestTarget), StrKey("content-length"), StrKey("date"), StrKey("digest"), StrKey("host"),
                     Str(out.verb + " " + out.path), Int(|sr.body|), Str(date), Str(digest), Str(out.host));
      OutgoingDataInOrder(out.verb + " " + out.path, sr.body, date, digest, out.host);
      sr.signatureHeader := data.data;
    }

    /**
     * `setOutgoingClearSignature`: one line per stored entry, in order; each
     * entry but the request target is added to the outgoing request as a
     * header.
     */
    method SetOutgoingClearSignature(sr: SignedRequest, out: OutgoingRequest)
      modifies sr`clearSignature, out`headers
      ensures sr.clearSignature == OutgoingClear(sr.signatureHeader)
      ensures out.headers == old(out.headers) + AddedHeaders(sr.signatureHeader)
    {
      var data := sr.signatureHeader;
      ghost var before := out.headers;
      var signing: seq<string> := [];
      var i := 0;
      while i < |data|
        invariant 0 <= i <= |data|
        invariant signing == ClearLines(data[..i])
        invariant out.headers == before + AddedHeaders(data[..i])
      {
        var element := KeyString(data[i].key);
        var value := data[i].val;
        signing := signing + [SigningLine(element, ValueText(value))];
        assert signing == ClearLines(data[..i + 1]) by {
          OutgoingStep(data, i);
        }
        if element != RequestTarget {
          out.AddHeader(element, value);
          assert out.headers == before + AddedHeaders(data[..i + 1]) by {
            OutgoingStep(data, i);
            assert out.headers == before + (AddedHeaders(data[..i]) + [(element, value)]);
          }
        } else {
          assert out.headers == before + AddedHeaders(data[..i + 1]) by {
            OutgoingStep(data, i);
          }
        }
        i := i + 1;
      }
      assert data[..|data|] == data;
      sr.clearSignature := Implode("\n", signing);
    }

    /** `setOutgoingSignedSignature`: the signing string, signed with the signatory's private key. */
    method SetOutgoingSignedSignature(sr: SignedRequest, crypto: Crypto) returns (r: Result<(), SigError>)
      requires sr.signatory.Some?
      modifies sr`signedSignature
      ensures var spec := SignString(sr.clearSignature, sr.signatory.value, crypto);
              && (r.Success? <==> spec.Success?) && (r.Failure? ==> r.error == spec.error)
              && sr.signedSignature == if spec.Success? then spec.value else old(sr.signedSignature)
    {
      var signed := SignString(sr.clearSignature, sr.signatory.value, crypto);
      if signed.Failure? {
        return Failure(signed.error);
      }
      sr.signedSignature := signed.value;
      return Success(());
    }

    /** `signingOutgoingRequest`: the `Signature` header, added after the signed ones. */
    method SigningOutgoingRequest(sr: SignedRequest, out: OutgoingRequest)
      requires sr.signatory.Some?
      modifies out`headers
      ensures out.headers == old(out.headers)
                             + [("Signature", Str(OutgoingSignatureHeader(sr.signatureHeader, sr.signatory.value, sr.signedSignature)))]
    {
      var headers := AdvertisedNames(sr.signatureHeader);
      var s := sr.signatory.value;
      var elements := [HeaderElement("keyId", s.keyId), HeaderElement("algorithm", ChosenEncryption(s.algorithm)),
                       HeaderElement("headers", Implode(" ", headers)), HeaderElement("signature", sr.signedSignature)];
      assert elements == Elements(SignatureParameters, [s.keyId, ChosenEncryption(s.algorithm), Implode(" ", headers), sr.signedSignature]);
      out.AddHeader("Signature", Str(Implode(",", elements)));
    }

    /**
     * `signOutgoingRequest`: the data, the signing string (adding the signed
     * headers), the signature, then the `Signature` header.  `date` is the
     * formatted current date and `digestOf` gives the body's digest.  When
     * signing fails, the signed headers are already added.
     */
    method SignOutgoingRequest(out: OutgoingRequest, s: Signatory, date: string, digestOf: string -> string, crypto: Crypto)
      returns (sr: SignedRequest, r: Result<(), SigError>)
      modifies out`headers
      ensures fresh(sr)
      ensures var data := OutgoingData(out.verb + " " + out.path, out.dataBody, date, digestOf(out.dataBody), out.host);
              var spec := SignOutgoing(out.verb, out.path, out.host, out.dataBody, date, digestOf(out.dataBody), s, crypto);
              && (r.Success? <==> spec.Success?) && (r.Failure? ==> r.error == spec.error)
              && sr.signatureHeader == data && sr.clearSignature == OutgoingClear(data)
              && (spec.Success? ==> sr.signedSignature == spec.value.signed
                                    && out.headers == old(out.headers) + AddedHeaders(data) + [("Signature", Str(spec.value.signature))])
              && (spec.Failure? ==> out.headers == old(out.headers) + AddedHeaders(data))
    {
      sr := new SignedRequest(out.dataBody);
      sr.signatory := Some(s);
      SetOutgoingSignatureHeader(sr, out, date, digestOf(sr.body));
      SetOutgoingClearSignature(sr, out);
      r := SetOutgoingSignedSignature(sr, crypto);
      if r.Failure? {
        return;
      }
      SigningOutgoingRequest(sr, out);
    }
  }
}
