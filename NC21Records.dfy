/**
 * The two records of the earlier signing revision: `NC21Signatory` (an
 * actor's id, owner and key pair) and `NC21SignedRequest` (what is known
 * about one signed request while it is checked).  Both are mutable
 * objects whose setters change one field each.
 */
module NC21Records {
  import opened Wrappers
  import opened PhpArrays
  import DataStore

  /** The fields of an `NC21Signatory`, as one value. */
  datatype SignatoryFields = SignatoryFields(id: string, owner: string, publicKey: string, privateKey: string)

  class NC21Signatory {
    var id: string
    var owner: string
    var publicKey: string
    var privateKey: string

    function Fields(): SignatoryFields
      reads this
    {
      SignatoryFields(id, owner, publicKey, privateKey)
    }

    /** `new NC21Signatory($owner)`: the owner argument is not used, every field starts empty. */
    constructor (owner: string)
      ensures Fields() == SignatoryFields("", "", "", "")
    {
      id := "";
      this.owner := "";
      publicKey := "";
      privateKey := "";
    }

    method SetId(id: string) returns (self: NC21Signatory)
      modifies this
      ensures self == this && Fields() == old(Fields()).(id := id)
    {
      this.id := id;
      self := this;
    }

    method SetOwner(owner: string) returns (self: NC21Signatory)
      modifies this
      ensures self == this && Fields() == old(Fields()).(owner := owner)
    {
      this.owner := owner;
      self := this;
    }

    method SetPublicKey(publicKey: string) returns (self: NC21Signatory)
      modifies this
      ensures self == this && Fields() == old(Fields()).(publicKey := publicKey)
      ensures HasPublicKey() <==> publicKey != ""
    {
      this.publicKey := publicKey;
      self := this;
    }

    method SetPrivateKey(privateKey: string) returns (self: NC21Signatory)
      modifies this
      ensures self == this && Fields() == old(Fields()).(privateKey := privateKey)
      ensures HasPrivateKey() <==> privateKey != ""
    {
      this.privateKey := privateKey;
      self := this;
    }

    /** `hasPublicKey()`. */
    predicate HasPublicKey()
      reads this
    {
      publicKey != ""
    }

    /** `hasPrivateKey()`. */
    predicate HasPrivateKey()
      reads this
    {
      privateKey != ""
    }

    /** `jsonSerialize()`: the public half only, under 'publicKey'. */
    method JsonSerialize() returns (r: seq<Entry>)
      ensures r == PublicDocument(Fields())
    {
      r := [Entry(StrKey("publicKey"), Arr([
             Entry(StrKey("id"), Str(id)),
             Entry(StrKey("owner"), Str(owner)),
             Entry(StrKey("publicKeyPem"), Str(publicKey))]))];
    }
  }

  /** The document `jsonSerialize` builds from a signatory's fields. */
  function PublicDocument(f: SignatoryFields): (r: seq<Entry>)
    ensures Keys(r) == [StrKey("publicKey")]
    ensures r[0].val.Arr? && Keys(r[0].val.entries) == [StrKey("id"), StrKey("owner"), StrKey("publicKeyPem")]
  {
    [Entry(StrKey("publicKey"), Arr([
       Entry(StrKey("id"), Str(f.id)),
       Entry(StrKey("owner"), Str(f.owner)),
       Entry(StrKey("publicKeyPem"), Str(f.publicKey))]))]
  }

  /** The published document does not depend on the private key. */
  lemma PublicDocumentHidesPrivateKey(f: SignatoryFields, other: string)
    ensures PublicDocument(f) == PublicDocument(f.(privateKey := other))
  {
  }

  /** The published document gives back the id, the owner and the public key. */
  lemma PublicDocumentReadBack(f: SignatoryFields)
    ensures var inner := Lookup(PublicDocument(f), StrKey("publicKey"));
            inner.Some? && inner.value.Arr?
            && Lookup(inner.value.entries, StrKey("id")) == Some(Str(f.id))
            && Lookup(inner.value.entries, StrKey("owner")) == Some(Str(f.owner))
            && Lookup(inner.value.entries, StrKey("publicKeyPem")) == Some(Str(f.publicKey))
            && StrKey("privateKey") !in Keys(inner.value.entries)
  {
    var d := PublicDocument(f);
    LookupCons(d, StrKey("publicKey"));
    var inner := d[0].val.entries;
    LookupCons(inner, StrKey("id"));
    LookupCons(inner, StrKey("owner"));
    LookupCons(inner[1..], StrKey("owner"));
    LookupCons(inner, StrKey("publicKeyPem"));
    LookupCons(inner[1..], StrKey("publicKeyPem"));
    LookupCons(inner[2..], StrKey("publicKeyPem"));
    assert inner[1..][1..] == inner[2..];
  }

  /** The fields of an `NC21SignedRequest`, as one value; `None` is a field never set (PHP null). */
  datatype SignedRequestFields = SignedRequestFields(
    body: string,
    time: int,
    origin: Option<string>,
    data: Option<DataStore.SimpleDataStore>,
    host: string,
    signature: string,
    signed: string,
    signatory: Option<NC21Signatory>)

  class NC21SignedRequest {
    var body: string
    var time: int
    var origin: Option<string>
    var data: Option<DataStore.SimpleDataStore>
    var host: string
    var signature: string
    var signed: string
    var signatory: Option<NC21Signatory>

    function Fields(): SignedRequestFields
      reads this
    {
      SignedRequestFields(body, time, origin, data, host, signature, signed, signatory)
    }

    /** `new NC21SignedRequest($body)`: time 0, empty host and signatures, nothing else set. */
    constructor (body: string)
      ensures Fields() == SignedRequestFields(body, 0, None, None, "", "", "", None)
      ensures !HasSignatory()
    {
      this.body := body;
      time := 0;
      origin := None;
      data := None;
      host := "";
      signature := "";
      signed := "";
      signatory := None;
    }

    method SetBody(body: string) returns (self: NC21SignedRequest)
      modifies this
      ensures self == this && Fields() == old(Fields()).(body := body)
    {
      this.body := body;
      self := this;
    }

    method SetTime(time: int) returns (self: NC21SignedRequest)
      modifies this
      ensures self == this && Fields() == old(Fields()).(time := time)
    {
      this.time := time;
      self := this;
    }

    method SetOrigin(origin: string) returns (self: NC21SignedRequest)
      modifies this
      ensures self == this && Fields() == old(Fields()).(origin := Some(origin))
    {
      this.origin := Some(origin);
      self := this;
    }

    method SetData(data: DataStore.SimpleDataStore) returns (self: NC21SignedRequest)
      modifies this
      ensures self == this && Fields() == old(Fields()).(data := Some(data))
    {
      this.data := Some(data);
      self := this;
    }

    method SetHost(host: string) returns (self: NC21SignedRequest)
      modifies this
      ensures self == this && Fields() == old(Fields()).(host := host)
    {
      this.host := host;
      self := this;
    }

    method SetSignature(signature: string) returns (self: NC21SignedRequest)
      modifies this
      ensures self == this && Fields() == old(Fields()).(signature := signature)
    {
      this.signature := signature;
      self := this;
    }

    method SetSigned(signed: string) returns (self: NC21SignedRequest)
      modifies this
      ensures self == this && Fields() == old(Fields()).(signed := signed)
    {
      this.signed := signed;
      self := this;
    }

    /** `setSignatory($signatory)`: afterwards `hasSignatory()` holds. */
    method SetSignatory(signatory: NC21Signatory)
      modifies this
      ensures Fields() == old(Fields()).(signatory := Some(signatory))
      ensures HasSignatory()
    {
      this.signatory := Some(signatory);
    }

    /** `hasSignatory()`. */
    predicate HasSignatory()
      reads this
    {
      signatory.Some?
    }

    /** `jsonSerialize()`: always the empty array. */
    method JsonSerialize() returns (r: seq<Entry>)
      ensures r == [] && Keys(r) == []
    {
      r := [];
    }
  }
}
