/**
 * `SimpleDataStore`: a PHP array held in one field and changed in place by
 * typed setters and appenders; the getters are the `TArrayTools` lookups.
 * A method whose PHP counterpart can throw returns `ok == false` and leaves
 * the store as it was.
 */
module DataStore {
  import opened Wrappers
  import opened PhpArrays
  import opened ArrayTools

  class SimpleDataStore {
    var data: seq<Entry>

    constructor (data: seq<Entry>)
      ensures this.data == data
    {
      this.data := data;
    }

    /** `s($key, $value)`. */
    method S(key: string, value: string)
      modifies this
      ensures data == Set(old(data), ToKey(key), Str(value))
    {
      data := Set(data, ToKey(key), Str(value));
    }

    /** `g($key)`; `None` is the `TypeError` of a path step through a scalar. */
    method G(key: string) returns (r: Option<string>)
      ensures r == Get(key, data, "")
    {
      r := Get(key, data, "");
    }

    /** `sInt($key, $value)`. */
    method SInt(key: string, value: int)
      modifies this
      ensures data == Set(old(data), ToKey(key), Int(value))
    {
      data := Set(data, ToKey(key), Int(value));
    }

    /** `gInt($key)`. */
    method GInt(key: string) returns (r: Option<int>)
      ensures r == GetInt(key, data, 0)
    {
      r := GetInt(key, data, 0);
    }

    /** `sBool($key, $value)`. */
    method SBool(key: string, value: bool)
      modifies this
      ensures data == Set(old(data), ToKey(key), Bool(value))
    {
      data := Set(data, ToKey(key), Bool(value));
    }

    /** `gBool($key)`. */
    method GBool(key: string) returns (r: Option<bool>)
      ensures r == GetBool(key, data, false)
    {
      r := GetBool(key, data, false);
    }

    /** `sArray($key, $values)`. */
    method SArray(key: string, values: seq<Entry>)
      modifies this
      ensures data == Set(old(data), ToKey(key), Arr(values))
    {
      data := Set(data, ToKey(key), Arr(values));
    }

    /** `gArray($key)`, with `json_decode` as `decode`. */
    method GArray(key: string, decode: string -> Option<seq<Entry>>) returns (r: Option<seq<Entry>>)
      ensures r == GetArray(key, data, [], decode)
    {
      r := GetArray(key, data, [], decode);
    }

    /** `sObj($key, $value)`. */
    method SObj(key: string, handle: nat)
      modifies this
      ensures data == Set(old(data), ToKey(key), Obj(handle))
    {
      data := Set(data, ToKey(key), Obj(handle));
    }

    /** The shared body of `a`, `aInt`, `aBool` and `aObj`: `$this->data[$key][] = $value`. */
    method Push(key: string, value: Value) returns (ok: bool)
      modifies this
      ensures ok <==> Appendable(Lookup(old(data), ToKey(key)))
      ensures data == if ok then PushAt(old(data), ToKey(key), value).value else old(data)
    {
      var r := PushAt(data, ToKey(key), value);
      ok := r.Some?;
      if ok {
        data := r.value;
      }
    }

    /** `a($key, $value)`. */
    method A(key: string, value: string) returns (ok: bool)
      modifies this
      ensures ok <==> Appendable(Lookup(old(data), ToKey(key)))
      ensures data == if ok then PushAt(old(data), ToKey(key), Str(value)).value else old(data)
    {
      ok := Push(key, Str(value));
    }

    /** `aInt($key, $value)`. */
    method AInt(key: string, value: int) returns (ok: bool)
      modifies this
      ensures ok <==> Appendable(Lookup(old(data), ToKey(key)))
      ensures data == if ok then PushAt(old(data), ToKey(key), Int(value)).value else old(data)
    {
      ok := Push(key, Int(value));
    }

    /** `aBool($key, $value)`. */
    method ABool(key: string, value: bool) returns (ok: bool)
      modifies this
      ensures ok <==> Appendable(Lookup(old(data), ToKey(key)))
      ensures data == if ok then PushAt(old(data), ToKey(key), Bool(value)).value else old(data)
    {
      ok := Push(key, Bool(value));
    }

    /** `aObj($key, $value)`. */
    method AObj(key: string, handle: nat) returns (ok: bool)
      modifies this
      ensures ok <==> Appendable(Lookup(old(data), ToKey(key)))
      ensures data == if ok then PushAt(old(data), ToKey(key), Obj(handle)).value else old(data)
    {
      ok := Push(key, Obj(handle));
    }

    /**
     * `aArray($key, $values)`: a missing key starts as `[]`, then
     * `array_merge` appends the values; `array_merge` throws on a stored
     * value that is not an array.
     */
    method AArray(key: string, values: seq<Entry>) returns (ok: bool)
      modifies this
      ensures var cur := Lookup(old(data), ToKey(key));
              ok <==> cur.None? || cur.value.Arr?
      ensures var cur := Lookup(old(data), ToKey(key));
              data == if !ok then old(data)
                      else Set(old(data), ToKey(key), Arr(Merge(if cur.None? then [] else cur.value.entries, values)))
    {
      var k := ToKey(key);
      var cur := Lookup(data, k);
      if cur.Some? && !cur.value.Arr? {
        return false;
      }
      var base := if cur.None? then [] else cur.value.entries;
      if cur.None? {
        data := Set(data, k, Arr([]));
        SetTwice(old(data), k, Arr([]), Arr(Merge(base, values)));
      }
      data := Set(data, k, Arr(Merge(base, values)));
      ok := true;
    }

    /** `gAll()`. */
    method GAll() returns (r: seq<Entry>)
      ensures r == data
    {
      r := data;
    }

    /** `sAll($data)`. */
    method SAll(data: seq<Entry>)
      modifies this
      ensures this.data == data
    {
      this.data := data;
    }

    /** `jsonSerialize()`: the stored array itself. */
    method JsonSerialize() returns (r: seq<Entry>)
      ensures r == data
    {
      r := data;
    }
  }

  /** Setting a key in the store leaves every other key as it was. */
  lemma SetKeepsOthers(data: seq<Entry>, key: string, v: Value, other: string)
    requires other != key
    ensures Lookup(Set(data, ToKey(key), v), ToKey(other)) == Lookup(data, ToKey(other))
  {
    if ToKey(other) == ToKey(key) {
      ToKeyInjective(other, key);
    }
  }

  /** Appending to a list stored under a key extends that list by one element. */
  lemma PushOntoList(data: seq<Entry>, key: string, vs: seq<Value>, v: Value)
    requires Lookup(data, ToKey(key)) == Some(Arr(List(vs)))
    ensures PushAt(data, ToKey(key), v).Some?
    ensures Lookup(PushAt(data, ToKey(key), v).value, ToKey(key)) == Some(Arr(List(vs + [v])))
  {
    AppendToList(vs, v);
  }
}
