/**
 * `TNC23LocalSignatory`: the local key pairs of an app, kept as one JSON
 * document in the app value 'key_pairs' and keyed by signatory id.  The
 * document is modelled by its decoded value (`None` while the app value is
 * unset); key generation is a parameter; the signatory is a value and each
 * operation returns the updated signatory.
 */
module LocalSignatories {
  import opened Wrappers
  import opened PhpStrings
  import opened PhpArrays
  import opened ArrayTools
  import opened Signatories

  /** What `fillSimpleSignatory` and `removeSimpleSignatory` read: the decoded table, or `[]` when it is not an array. */
  function StoredTable(stored: Option<Value>): seq<Entry>
  {
    match stored
    case Some(Arr(es)) => es
    case _ => []
  }

  /**
   * What `createSimpleSignatory` writes into: an unset value reads as '[]';
   * null and false become an array on assignment; any other scalar makes the
   * assignment fail with an `Error`.
   */
  function WritableTable(stored: Option<Value>): (r: Result<seq<Entry>, SigError>)
    ensures r.Success? <==> stored.None? || stored.value.Arr? || stored.value == Null || stored.value == Bool(false)
    ensures r.Success? ==> r.value == StoredTable(stored)
  {
    match stored
    case None => Success([])
    case Some(Arr(es)) => Success(es)
    case Some(Null) => Success([])
    case Some(Bool(false)) => Success([])
    case Some(_) => Failure(Uncaught("Error", "Cannot use a scalar value as an array"))
  }

  const MainKey: string := "#main-key"

  /** The signatory after `createSimpleSignatory` set its key id and owner and `generateKeys` gave it `keys`. */
  function Created(s: Signatory, keys: (string, string)): (c: Signatory)
    ensures c.id == s.id && c.algorithm == s.algorithm
    ensures c.keyId == s.id + MainKey && c.keyOwner == s.id
    ensures c.publicKey == keys.0 && c.privateKey == keys.1
  {
    s.(keyId := s.id + MainKey, keyOwner := s.id, publicKey := keys.0, privateKey := keys.1)
  }

  /** The stored record of a signatory: its key id, owner and key pair. */
  function Record(c: Signatory): seq<Entry>
  {
    [Entry(StrKey("keyId"), Str(c.keyId)), Entry(StrKey("keyOwner"), Str(c.keyOwner)),
     Entry(StrKey("publicKey"), Str(c.publicKey)), Entry(StrKey("privateKey"), Str(c.privateKey))]
  }

  /** `createSimpleSignatory`: the result and the new stored value. */
  function CreateSpec(stored: Option<Value>, s: Signatory, keys: (string, string)): (Result<Signatory, SigError>, Option<Value>)
  {
    match WritableTable(stored)
    case Failure(e) => (Failure(e), stored)
    case Success(t) =>
      var c := Created(s, keys);
      (Success(c), Some(Arr(Set(t, ToKey(s.id), Arr(Record(c))))))
  }

  /** The four fields read back from a stored record with `get`. */
  function Copied(s: Signatory, sign: seq<Entry>): (r: Signatory)
    ensures r.id == s.id && r.algorithm == s.algorithm
  {
    NameFields();
    GetPlain("keyId", sign, "");
    GetPlain("keyOwner", sign, "");
    GetPlain("publicKey", sign, "");
    GetPlain("privateKey", sign, "");
    s.(keyId := Get("keyId", sign, "").value,
       keyOwner := Get("keyOwner", sign, "").value,
       publicKey := Get("publicKey", sign, "").value,
       privateKey := Get("privateKey", sign, "").value)
  }

  /** What is done with the record found for the signatory (`None` when none was found). */
  function FillFrom(stored: Option<Value>, sign: seq<Entry>, s: Signatory, generate: bool,
                    keys: (string, string)): (Result<Signatory, SigError>, Option<Value>)
  {
    if |sign| > 0 then (Success(Copied(s, sign)), stored)
    else if !generate then (Failure(SignatoryError("signatory not found")), stored)
    else CreateSpec(stored, s, keys)
  }

  /**
   * `fillSimpleSignatory` as written: the record is looked up with the
   * dotted-path `getArray`, so an id holding '.' is read as a path.
   */
  function FillAsWritten(stored: Option<Value>, s: Signatory, generate: bool, keys: (string, string),
                         decode: string -> Option<seq<Entry>>): (Result<Signatory, SigError>, Option<Value>)
  {
    match GetArray(s.id, StoredTable(stored), [], decode)
    case None => (Failure(Uncaught("TypeError", "array path through a scalar")), stored)
    case Some(sign) => FillFrom(stored, sign, s, generate, keys)
  }

  /** The record stored under the id itself, read as `getArray` reads a single key. */
  function RecordOf(table: seq<Entry>, id: string, decode: string -> Option<seq<Entry>>): seq<Entry>
  {
    match Lookup(table, ToKey(id))
    case Some(Arr(es)) => es
    case Some(Str(t)) => (match decode(t) case Some(es) => es case None => [])
    case _ => []
  }

  /** `fillSimpleSignatory` reading the record under the raw id, the key `createSimpleSignatory` writes. */
  function FillIntended(stored: Option<Value>, s: Signatory, generate: bool, keys: (string, string),
                        decode: string -> Option<seq<Entry>>): (Result<Signatory, SigError>, Option<Value>)
  {
    FillFrom(stored, RecordOf(StoredTable(stored), s.id, decode), s, generate, keys)
  }

  class LocalSignatoryStore {
    /** The decoded 'key_pairs' app value; `None` while it is unset. */
    var keyPairs: Option<Value>

    constructor ()
      ensures keyPairs == None
    {
      keyPairs := None;
    }

    /** `createSimpleSignatory($signatory)`, with `keys` the pair `generateKeys` produces. */
    method CreateSimpleSignatory(s: Signatory, keys: (string, string)) returns (r: Result<Signatory, SigError>)
      modifies this`keyPairs
      ensures (r, keyPairs) == CreateSpec(old(keyPairs), s, keys)
    {
      var c := s.(keyId := s.id + MainKey);
      c := c.(keyOwner := s.id);
      c := c.(publicKey := keys.0, privateKey := keys.1);
      var table := WritableTable(keyPairs);
      if table.Failure? {
        return Failure(table.error);
      }
      keyPairs := Some(Arr(Set(table.value, ToKey(c.id), Arr(Record(c)))));
      r := Success(c);
    }

    /** `fillSimpleSignatory($signatory, $generate)`, as written. */
    method FillSimpleSignatory(s: Signatory, generate: bool, keys: (string, string),
                               decode: string -> Option<seq<Entry>>) returns (r: Result<Signatory, SigError>)
      modifies this`keyPairs
      ensures (r, keyPairs) == FillAsWritten(old(keyPairs), s, generate, keys, decode)
    {
      var sign := GetArray(s.id, StoredTable(keyPairs), [], decode);
      if sign.None? {
        return Failure(Uncaught("TypeError", "array path through a scalar"));
      }
      r := FillFound(s, sign.value, generate, keys);
    }

    /** `fillSimpleSignatory` with the record read under the raw id. */
    method FillSimpleSignatoryByKey(s: Signatory, generate: bool, keys: (string, string),
                                    decode: string -> Option<seq<Entry>>) returns (r: Result<Signatory, SigError>)
      modifies this`keyPairs
      ensures (r, keyPairs) == FillIntended(old(keyPairs), s, generate, keys, decode)
    {
      var sign := RecordOf(StoredTable(keyPairs), s.id, decode);
      r := FillFound(s, sign, generate, keys);
    }

    /** The part of `fillSimpleSignatory` after the lookup. */
    method FillFound(s: Signatory, sign: seq<Entry>, generate: bool, keys: (string, string))
      returns (r: Result<Signatory, SigError>)
      modifies this`keyPairs
      ensures (r, keyPairs) == FillFrom(old(keyPairs), sign, s, generate, keys)
    {
      if |sign| > 0 {
        return Success(Copied(s, sign));
      }
      if !generate {
        return Failure(SignatoryError("signatory not found"));
      }
      r := CreateSimpleSignatory(s, keys);
    }

    /** `removeSimpleSignatory($signatory)`. */
    method RemoveSimpleSignatory(s: Signatory)
      modifies this`keyPairs
      ensures keyPairs == Some(Arr(Remove(StoredTable(old(keyPairs)), ToKey(s.id))))
    {
      keyPairs := Some(Arr(Remove(StoredTable(keyPairs), ToKey(s.id))));
    }
  }

  // ------------------------------------------------------------- the record

  /** The record's field names: plain words, pairwise different. */
  lemma NameFields()
    ensures '.' !in "keyId" && '.' !in "keyOwner" && '.' !in "publicKey" && '.' !in "privateKey"
    ensures ToKey("keyId") == StrKey("keyId") && ToKey("keyOwner") == StrKey("keyOwner")
    ensures ToKey("publicKey") == StrKey("publicKey") && ToKey("privateKey") == StrKey("privateKey")
    ensures "keyId" != "keyOwner" && "keyId" != "publicKey" && "keyId" != "privateKey"
    ensures "keyOwner" != "publicKey" && "keyOwner" != "privateKey" && "publicKey" != "privateKey"
  {
    NameKeys();
    NamesDiffer();
  }

  lemma NameKeys()
    ensures '.' !in "keyId" && '.' !in "keyOwner" && '.' !in "publicKey" && '.' !in "privateKey"
    ensures ToKey("keyId") == StrKey("keyId") && ToKey("keyOwner") == StrKey("keyOwner")
    ensures ToKey("publicKey") == StrKey("publicKey") && ToKey("privateKey") == StrKey("privateKey")
  {
    assert Letters("keyId") && Letters("keyOwner");
    assert Letters("publicKey") && Letters("privateKey");
    WordName("keyId");
    WordName("keyOwner");
    WordName("publicKey");
    WordName("privateKey");
  }

  lemma NamesDiffer()
    ensures "keyId" != "keyOwner" && "keyId" != "publicKey" && "keyId" != "privateKey"
    ensures "keyOwner" != "publicKey" && "keyOwner" != "privateKey" && "publicKey" != "privateKey"
  {
    assert "keyId"[3] != "keyOwner"[3];
    assert "publicKey"[1] != "privateKey"[1];
  }

  /** Every character of `s` is an ASCII letter. */
  predicate Letters(s: string)
  {
    |s| == 0 || (('a' <= s[0] <= 'z' || 'A' <= s[0] <= 'Z') && Letters(s[1..]))
  }

  /** A non-empty name made of letters is a string key without a '.'. */
  lemma {:induction false} WordName(s: string)
    requires |s| > 0 && Letters(s)
    ensures '.' !in s && ToKey(s) == StrKey(s)
  {
    LettersNoDot(s);
    ToKeyOfWord(s);
  }

  lemma {:induction false} LettersNoDot(s: string)
    requires Letters(s)
    ensures '.' !in s
  {
    if |s| > 0 {
      LettersNoDot(s[1..]);
      assert s == [s[0]] + s[1..];
    }
  }

  /** A stored record gives back the signatory it was made from. */
  lemma RecordReadBack(c: Signatory, s: Signatory)
    requires s.id == c.id && s.algorithm == c.algorithm
    ensures Copied(s, Record(c)) == c
  {
    NameFields();
    LookupFour(StrKey("keyId"), StrKey("keyOwner"), StrKey("publicKey"), StrKey("privateKey"),
               Str(c.keyId), Str(c.keyOwner), Str(c.publicKey), Str(c.privateKey));
    GetPlain("keyId", Record(c), "");
    GetPlain("keyOwner", Record(c), "");
    GetPlain("publicKey", Record(c), "");
    GetPlain("privateKey", Record(c), "");
  }

  // ---------------------------------------------------------- the properties

  /**
   * `createSimpleSignatory` stores the new record under the signatory's id,
   * over any earlier one, and keeps every other entry.
   */
  lemma CreateStores(stored: Option<Value>, s: Signatory, keys: (string, string), k: Key)
    requires WritableTable(stored).Success?
    ensures var (r, st) := CreateSpec(stored, s, keys);
            r == Success(Created(s, keys))
            && Lookup(StoredTable(st), ToKey(s.id)) == Some(Arr(Record(Created(s, keys))))
            && (k != ToKey(s.id) ==> Lookup(StoredTable(st), k) == Lookup(StoredTable(stored), k))
  {
  }

  /** A stored value that is a number or a non-empty text makes `createSimpleSignatory` fail and changes nothing. */
  lemma CreateOnScalarFails(stored: Option<Value>, s: Signatory, keys: (string, string))
    requires stored.Some? && (stored.value.Int? || stored.value.Str? || stored.value == Bool(true))
    ensures CreateSpec(stored, s, keys) == (Failure(Uncaught("Error", "Cannot use a scalar value as an array")), stored)
  {
  }

  /** Round trip: after a signatory is created, filling any signatory with that id copies the created fields. */
  lemma CreateThenFill(stored: Option<Value>, s: Signatory, keys: (string, string),
                       t: Signatory, generate: bool, keys2: (string, string),
                       decode: string -> Option<seq<Entry>>)
    requires WritableTable(stored).Success?
    requires t.id == s.id && t.algorithm == s.algorithm
    ensures var st := CreateSpec(stored, s, keys).1;
            FillIntended(st, t, generate, keys2, decode) == (Success(Created(s, keys)), st)
  {
    var c := Created(s, keys);
    var st := CreateSpec(stored, s, keys).1;
    assert RecordOf(StoredTable(st), t.id, decode) == Record(c) by {
      CreateStores(stored, s, keys, ToKey(s.id));
    }
    assert Copied(t, Record(c)) == c by {
      RecordReadBack(c, t);
    }
  }

  /** Without a record and without `generate`, filling fails with 'signatory not found' and stores nothing. */
  lemma FillNotFound(stored: Option<Value>, s: Signatory, keys: (string, string), decode: string -> Option<seq<Entry>>)
    requires RecordOf(StoredTable(stored), s.id, decode) == []
    ensures FillIntended(stored, s, false, keys, decode) == (Failure(SignatoryError("signatory not found")), stored)
    ensures FillIntended(stored, s, true, keys, decode) == CreateSpec(stored, s, keys)
  {
  }

  /** Filling without `generate` never changes the stored value, whichever lookup is used. */
  lemma FillReadOnly(stored: Option<Value>, s: Signatory, keys: (string, string), decode: string -> Option<seq<Entry>>)
    ensures FillAsWritten(stored, s, false, keys, decode).1 == stored
    ensures FillIntended(stored, s, false, keys, decode).1 == stored
  {
  }

  /** For an id without '.', the dotted-path lookup is the lookup under the raw id. */
  lemma FillAgreesOnPlainIds(stored: Option<Value>, s: Signatory, generate: bool, keys: (string, string),
                             decode: string -> Option<seq<Entry>>)
    requires '.' !in s.id
    ensures FillAsWritten(stored, s, generate, keys, decode) == FillIntended(stored, s, generate, keys, decode)
  {
    GetArrayPlain(s.id, StoredTable(stored), [], decode);
  }

  /**
   * The discrepancy: with an empty store, a signatory whose id holds '.' is
   * created, and yet the lookup as written does not find it, so filling it
   * afterwards answers 'signatory not found'.
   */
  lemma DottedIdMissed(head: string, rest: string, s: Signatory, keys: (string, string),
                       decode: string -> Option<seq<Entry>>)
    requires '.' !in head && s.id == head + "." + rest
    ensures var st := CreateSpec(None, s, keys).1;
            FillAsWritten(st, s, false, keys, decode) == (Failure(SignatoryError("signatory not found")), st)
            && FillIntended(st, s, false, keys, decode).0 == Success(Created(s, keys))
  {
    var st := CreateSpec(None, s, keys).1;
    var table := StoredTable(st);
    assert ToKey(head) != ToKey(s.id) by {
      assert |s.id| > |head|;
      if ToKey(head) == ToKey(s.id) {
        ToKeyInjective(head, s.id);
      }
    }
    assert Lookup(table, ToKey(head)) == None by {
      CreateStores(None, s, keys, ToKey(head));
    }
    assert GetArray(s.id, table, [], decode) == Some([]) by {
      GetArrayMissingHead(head, rest, table, decode);
    }
    CreateThenFill(None, s, keys, s, false, keys, decode);
  }

  /** A dotted id whose first segment is not a key reads as the default, `[]`. */
  lemma GetArrayMissingHead(head: string, rest: string, table: seq<Entry>, decode: string -> Option<seq<Entry>>)
    requires '.' !in head && Lookup(table, ToKey(head)) == None
    ensures GetArray(head + "." + rest, table, [], decode) == Some([])
  {
    SplitFirstAt(head, rest);
  }

  /** `removeSimpleSignatory` forgets the signatory's record and keeps every other entry. */
  lemma RemoveForgets(stored: Option<Value>, s: Signatory, k: Key, keys: (string, string),
                      decode: string -> Option<seq<Entry>>)
    ensures var st := Some(Arr(Remove(StoredTable(stored), ToKey(s.id))));
            FillIntended(st, s, false, keys, decode) == (Failure(SignatoryError("signatory not found")), st)
            && (k != ToKey(s.id) ==> Lookup(StoredTable(st), k) == Lookup(StoredTable(stored), k))
  {
    RemoveLookup(StoredTable(stored), ToKey(s.id), ToKey(s.id));
    RemoveLookup(StoredTable(stored), ToKey(s.id), k);
  }
}
