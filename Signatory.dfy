/**
 * The signatory traits `TNC21Signatory` and `TNC22Signatory`: how a remote
 * signatory (an actor with a key pair) is fetched, validated, and how
 * strings are signed and verified with its keys.  The signatory object,
 * its `import` of a JSON document, the HTTP fetch, `parse_url` and the
 * OpenSSL calls are parameters; the signatory is a value, so an update in
 * place returns the updated signatory.
 */
module Signatories {
  import opened Wrappers
  import opened PhpArrays

  /** The digest algorithm a signatory declares. */
  datatype Algorithm = SHA256 | SHA512 | OtherAlgorithm(name: string)

  const OPENSSL_ALGO_SHA256: int := 7
  const OPENSSL_ALGO_SHA512: int := 9

  /** The fields of a signatory the signing code reads and writes. */
  datatype Signatory = Signatory(
    id: string,
    keyId: string,
    keyOwner: string,
    publicKey: string,
    privateKey: string,
    algorithm: Algorithm)

  /** The exceptions the signing code throws or lets through. */
  datatype SigError =
    | SignatureError(message: string)    // SignatureException
    | SignatoryError(message: string)    // SignatoryException
    | InvalidOrigin(message: string)     // InvalidOriginException
    | MalformedArray                     // MalformedArrayException
    | PlainError(message: string)        // \Exception
    | Uncaught(name: string, message: string)  // any other error, passed on unchanged

  /** The two revisions of the signatory trait. */
  datatype TraitRevision = TNC21 | TNC22

  /** `openssl_sign`, `openssl_verify` and base64. */
  datatype Crypto = Crypto(
    sign: (string, string, int) -> string,
    verify: (string, string, string, Algorithm) -> int,
    encode: string -> string,
    decode: string -> string)

  /** How the request that fetches a key document is set up; `None` is a setting left at the request's default. */
  datatype KeyRequest = KeyRequest(
    url: string,
    params: seq<Entry>,
    headers: seq<(string, string)>,
    followLocation: Option<bool>,
    localAddressAllowed: Option<bool>,
    timeout: Option<int>,
    explicitGet: bool)

  /** Why `retrieveJson` failed: the network, or anything else. */
  datatype FetchFailure = NetworkFailure(message: string) | OtherFailure(name: string, message: string)

  /** What the traits rely on and do not define. */
  datatype Remote = Remote(
    blank: string -> Signatory,                              // new NC2xSignatory($id)
    importJson: (Signatory, seq<Entry>) -> Signatory,            // setOrigData($json)->import($json)
    fetch: KeyRequest -> Result<seq<Entry>, FetchFailure>,   // retrieveJson($request)
    parseHost: string -> Option<string>)                     // parse_url($url, PHP_URL_HOST), when a string

  /** `getOpenSSLAlgo($signatory)`. */
  function OpenSSLAlgo(a: Algorithm): (r: int)
    ensures r == OPENSSL_ALGO_SHA512 <==> a == SHA512
    ensures r == OPENSSL_ALGO_SHA256 <==> a != SHA512
  {
    match a
    case SHA512 => OPENSSL_ALGO_SHA512
    case _ => OPENSSL_ALGO_SHA256
  }

  /** `getKeyOrigin($keyId)`: the host part of the URL, which must be a non-empty string. */
  function KeyOrigin(keyId: string, parseHost: string -> Option<string>): (r: Result<string, SigError>)
    ensures r.Success? <==> parseHost(keyId).Some? && parseHost(keyId).value != ""
    ensures r.Success? ==> r.value == parseHost(keyId).value && r.value != ""
    ensures r.Failure? ==> r.error == InvalidOrigin("cannot retrieve origin from " + keyId)
  {
    match parseHost(keyId)
    case Some(h) => if h != "" then Success(h) else Failure(InvalidOrigin("cannot retrieve origin from " + keyId))
    case None => Failure(InvalidOrigin("cannot retrieve origin from " + keyId))
  }

  /**
   * What a downloaded signatory must satisfy: it is the one asked for (by
   * id or by key id), it owns its key, its key lives on the same host as
   * the signatory, and it has a public key.
   */
  predicate ValidSignatory(s: Signatory, keyId: string, parseHost: string -> Option<string>)
  {
    (s.id == keyId || s.keyId == keyId)
    && s.id == s.keyOwner
    && KeyOrigin(s.keyId, parseHost).Success?
    && KeyOrigin(s.id, parseHost).Success?
    && KeyOrigin(s.keyId, parseHost).value == KeyOrigin(s.id, parseHost).value
    && s.publicKey != ""
  }

  /**
   * The test inside `updateSignatory`, in its evaluation order: the
   * conditions are tried left to right and stop at the first that fails,
   * so an origin that cannot be parsed is reported only when the identity
   * and ownership tests have passed.
   */
  function CheckSignatory(s: Signatory, keyId: string, parseHost: string -> Option<string>): (r: Result<(), SigError>)
    ensures r.Success? <==> ValidSignatory(s, keyId, parseHost)
    ensures r.Failure? ==> r.error in {SignatoryError("invalid format"), SignatoryError("invalid origin")}
    ensures r == Failure(SignatoryError("invalid origin"))
        <==> (s.id == keyId || s.keyId == keyId) && s.id == s.keyOwner
             && (KeyOrigin(s.keyId, parseHost).Failure? || KeyOrigin(s.id, parseHost).Failure?)
  {
    if s.id != keyId && s.keyId != keyId then Failure(SignatoryError("invalid format"))
    else if s.id != s.keyOwner then Failure(SignatoryError("invalid format"))
    else
      match KeyOrigin(s.keyId, parseHost)
      case Failure(_) => Failure(SignatoryError("invalid origin"))
      case Success(a) =>
        match KeyOrigin(s.id, parseHost)
        case Failure(_) => Failure(SignatoryError("invalid origin"))
        case Success(b) =>
          if a != b || s.publicKey == "" then Failure(SignatoryError("invalid format"))
          else Success(())
  }

  /**
   * `updateSignatory($signatory, $json, $keyId)`: the document is imported,
   * then checked against `$keyId`, or against the imported key id when
   * `$keyId` is empty.
   */
  function UpdateSignatory(s: Signatory, json: seq<Entry>, keyId: string, remote: Remote): (r: Result<Signatory, SigError>)
    ensures var t := remote.importJson(s, json);
            r.Success? <==> ValidSignatory(t, if keyId == "" then t.keyId else keyId, remote.parseHost)
    ensures r.Success? ==> r.value == remote.importJson(s, json)
    ensures r.Failure? ==> r.error in {SignatoryError("invalid format"), SignatoryError("invalid origin")}
  {
    var t := remote.importJson(s, json);
    var expected := if keyId == "" then t.keyId else keyId;
    match CheckSignatory(t, expected, remote.parseHost)
    case Success(_) => Success(t)
    case Failure(e) => Failure(e)
  }

  /** Without a key id to compare with, only ownership, origin and the public key are checked. */
  lemma UpdateOwnKeyId(s: Signatory, json: seq<Entry>, remote: Remote)
    ensures var t := remote.importJson(s, json);
            UpdateSignatory(s, json, "", remote).Success?
            <==> t.id == t.keyOwner
                 && KeyOrigin(t.keyId, remote.parseHost).Success?
                 && KeyOrigin(t.id, remote.parseHost).Success?
                 && KeyOrigin(t.keyId, remote.parseHost).value == KeyOrigin(t.id, remote.parseHost).value
                 && t.publicKey != ""
  {
  }

  /** A signatory whose key sits on another host than its id is refused, whatever it claims. */
  lemma ForeignKeyRefused(s: Signatory, json: seq<Entry>, keyId: string, remote: Remote)
    requires var t := remote.importJson(s, json);
             KeyOrigin(t.keyId, remote.parseHost).Success? && KeyOrigin(t.id, remote.parseHost).Success?
             && KeyOrigin(t.keyId, remote.parseHost).value != KeyOrigin(t.id, remote.parseHost).value
    ensures UpdateSignatory(s, json, keyId, remote) == Failure(SignatoryError("invalid format"))
  {
  }

  /** The prefix of the error raised for a network failure. */
  function NetworkPrefix(rev: TraitRevision): string
  {
    match rev
    case TNC21 => "network issue - "
    case TNC22 => "network issue: "
  }

  /**
   * The request `downloadSignatory` sends.  The earlier revision always
   * builds its own GET request that follows redirects, may reach local
   * addresses and times out after 5 seconds; the later one takes the
   * caller's request, or a new one that follows redirects and times out
   * after 5 seconds.  Both target `$keyId`, or the signatory's id when
   * `$keyId` is empty, and ask for JSON-LD.
   */
  function DownloadRequest(rev: TraitRevision, s: Signatory, keyId: string, params: seq<Entry>,
                           given: Option<KeyRequest>): (r: KeyRequest)
    ensures r.url == if keyId != "" then keyId else s.id
    ensures r.params == params
    ensures |r.headers| > 0 && r.headers[|r.headers| - 1] == ("Accept", "application/ld+json")
    ensures rev == TNC21 || given.None? ==> r.followLocation == Some(true) && r.timeout == Some(5)
  {
    var url := if keyId != "" then keyId else s.id;
    var accept := ("Accept", "application/ld+json");
    match rev
    case TNC21 => KeyRequest(url, params, [accept], Some(true), Some(true), Some(5), true)
    case TNC22 =>
      var base := match given
        case Some(q) => q
        case None => KeyRequest("", [], [], Some(true), None, Some(5), false);
      base.(url := url, params := params, headers := base.headers + [accept])
  }

  /**
   * `downloadSignatory`: fetch the key document and update the signatory
   * from it.  Only a network failure is turned into a signatory error.
   */
  function DownloadSignatory(rev: TraitRevision, s: Signatory, keyId: string, params: seq<Entry>,
                             given: Option<KeyRequest>, remote: Remote): (r: Result<Signatory, SigError>)
    ensures r.Success? ==> ValidSignatory(r.value, if keyId == "" then r.value.keyId else keyId, remote.parseHost)
    ensures var fetched := remote.fetch(DownloadRequest(rev, s, keyId, params, given));
            r.Success? <==> fetched.Success? && UpdateSignatory(s, fetched.value, keyId, remote).Success?
    ensures var fetched := remote.fetch(DownloadRequest(rev, s, keyId, params, given));
            fetched.Failure? && fetched.error.NetworkFailure?
            ==> r == Failure(SignatoryError(NetworkPrefix(rev) + fetched.error.message))
    ensures var fetched := remote.fetch(DownloadRequest(rev, s, keyId, params, given));
            fetched.Failure? && fetched.error.OtherFailure?
            ==> r == Failure(Uncaught(fetched.error.name, fetched.error.message))
  {
    match remote.fetch(DownloadRequest(rev, s, keyId, params, given))
    case Success(json) => UpdateSignatory(s, json, keyId, remote)
    case Failure(NetworkFailure(m)) => Failure(SignatoryError(NetworkPrefix(rev) + m))
    case Failure(OtherFailure(n, m)) => Failure(Uncaught(n, m))
  }

  /**
   * The default `retrieveSignatory($keyId, $refresh)`: nothing is cached,
   * so without a refresh it fails, and with one it downloads a new
   * signatory for `$keyId`.
   */
  function RetrieveSignatory(rev: TraitRevision, keyId: string, refresh: bool, remote: Remote): (r: Result<Signatory, SigError>)
    ensures !refresh ==> r == Failure(SignatoryError(""))
    ensures refresh ==> r == DownloadSignatory(rev, remote.blank(keyId), keyId, [], None, remote)
  {
    if !refresh then Failure(SignatoryError(""))
    else DownloadSignatory(rev, remote.blank(keyId), keyId, [], None, remote)
  }

  /** A retrieved signatory is always one that passed the validation, for the requested key id. */
  lemma RetrievedIsValid(rev: TraitRevision, keyId: string, refresh: bool, remote: Remote)
    requires keyId != ""
    requires RetrieveSignatory(rev, keyId, refresh, remote).Success?
    ensures ValidSignatory(RetrieveSignatory(rev, keyId, refresh, remote).value, keyId, remote.parseHost)
    ensures refresh
  {
    var q := DownloadRequest(rev, remote.blank(keyId), keyId, [], None);
    assert q.url == keyId;
  }

  /** The default retrieval fetches exactly the key id, with the revision's request settings. */
  lemma RetrieveFetchesKeyId(rev: TraitRevision, keyId: string, remote: Remote)
    requires keyId != ""
    ensures var q := DownloadRequest(rev, remote.blank(keyId), keyId, [], None);
            q.url == keyId && q.params == [] && q.headers == [("Accept", "application/ld+json")]
            && q.followLocation == Some(true) && q.timeout == Some(5)
            && q.localAddressAllowed == (if rev == TNC21 then Some(true) else None)
  {
  }

  /** `signString($clear, $signatory)`: base64 of the signature made with the private key. */
  function SignString(clear: string, s: Signatory, crypto: Crypto): (r: Result<string, SigError>)
    ensures r.Failure? <==> s.privateKey == ""
    ensures r.Failure? ==> r.error == SignatoryError("empty private key")
    ensures r.Success? ==> r.value == crypto.encode(crypto.sign(clear, s.privateKey, OpenSSLAlgo(s.algorithm)))
  {
    if s.privateKey == "" then Failure(SignatoryError("empty private key"))
    else Success(crypto.encode(crypto.sign(clear, s.privateKey, OpenSSLAlgo(s.algorithm))))
  }

  /** `verifyString($clear, $signed, $publicKey, $algo)`: passes only when the verifier answers exactly 1. */
  function VerifyString(clear: string, signed: string, publicKey: string, algo: Algorithm, crypto: Crypto): (r: Result<(), SigError>)
    ensures r.Success? <==> crypto.verify(clear, signed, publicKey, algo) == 1
    ensures r.Failure? ==> r.error == SignatureError("signature issue")
  {
    if crypto.verify(clear, signed, publicKey, algo) != 1 then Failure(SignatureError("signature issue"))
    else Success(())
  }

  /**
   * A key pair works when whatever its private key signs, once encoded and
   * decoded, verifies with its public key under the same algorithm.
   */
  ghost predicate KeyPairMatches(crypto: Crypto, publicKey: string, privateKey: string, algo: Algorithm)
  {
    forall clear ::
      crypto.verify(clear, crypto.decode(crypto.encode(crypto.sign(clear, privateKey, OpenSSLAlgo(algo)))), publicKey, algo) == 1
  }

  /** What `signString` produces passes `verifyString` after decoding, for a matching key pair. */
  lemma SignThenVerify(clear: string, s: Signatory, crypto: Crypto)
    requires s.privateKey != ""
    requires KeyPairMatches(crypto, s.publicKey, s.privateKey, s.algorithm)
    ensures SignString(clear, s, crypto).Success?
    ensures VerifyString(clear, crypto.decode(SignString(clear, s, crypto).value), s.publicKey, s.algorithm, crypto).Success?
  {
    assert crypto.sign(clear, s.privateKey, OpenSSLAlgo(s.algorithm)) == crypto.sign(clear, s.privateKey, OpenSSLAlgo(s.algorithm));
  }
}
