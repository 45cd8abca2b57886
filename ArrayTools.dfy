/**
 * The `TArrayTools` lookups: dotted-path reads into nested arrays with a
 * default, and two read-only searches.  All files run under
 * `strict_types=1`, so a path step through something that is not an array,
 * or a `getBool` on a value that is not a boolean, raises a `TypeError`;
 * those outcomes are `None` below.
 */
module ArrayTools {
  import opened Wrappers
  import opened PhpStrings
  import opened PhpArrays

  datatype ToolError = ArrayNotFound | MalformedArray | TypeError

  /** `get($k, $arr, $default)`. */
  function Get(k: string, arr: seq<Entry>, default: string): (r: Option<string>)
    decreases |k|
  {
    match SplitFirst('.', k)
    case (head, Some(rest)) =>
      (match Lookup(arr, ToKey(head))
       case None => Some(default)
       case Some(v) => if v.Arr? then Get(rest, v.entries, default) else None)
    case (_, None) =>
      match Lookup(arr, ToKey(k))
      case Some(Str(s)) => Some(s)
      case Some(Int(n)) => Some(IntToString(n))
      case _ => Some(default)
  }

  /** `intval()` of a stored value. */
  function IntValue(v: Value): int
  {
    match v
    case Null => 0
    case Bool(b) => if b then 1 else 0
    case Int(n) => n
    case Str(s) => IntVal(s)
    case Arr(es) => if |es| == 0 then 0 else 1
    case Obj(_) => 1
  }

  /** `getInt($k, $arr, $default)`. */
  function GetInt(k: string, arr: seq<Entry>, default: int): (r: Option<int>)
    decreases |k|
  {
    match SplitFirst('.', k)
    case (head, Some(rest)) =>
      (match Lookup(arr, ToKey(head))
       case None => Some(default)
       case Some(v) => if v.Arr? then GetInt(rest, v.entries, default) else None)
    case (_, None) =>
      match Lookup(arr, ToKey(k))
      case None => Some(default)
      case Some(Null) => Some(default)
      case Some(v) => Some(IntValue(v))
  }

  /** `getBool($k, $arr, $default)`: the stored value is returned as is, so it must be a boolean. */
  function GetBool(k: string, arr: seq<Entry>, default: bool): (r: Option<bool>)
    decreases |k|
  {
    match SplitFirst('.', k)
    case (head, Some(rest)) =>
      (match Lookup(arr, ToKey(head))
       case None => Some(default)
       case Some(v) => if v.Arr? then GetBool(rest, v.entries, default) else None)
    case (_, None) =>
      match Lookup(arr, ToKey(k))
      case None => Some(default)
      case Some(Bool(b)) => Some(b)
      case Some(_) => None
  }

  /**
   * `getArray($k, $arr, $default)`; `decode` is `json_decode($s, true)`,
   * `None` when the text is not the encoding of an array.
   */
  function GetArray(k: string, arr: seq<Entry>, default: seq<Entry>,
                    decode: string -> Option<seq<Entry>>): (r: Option<seq<Entry>>)
    decreases |k|
  {
    match SplitFirst('.', k)
    case (head, Some(rest)) =>
      (match Lookup(arr, ToKey(head))
       case None => Some(default)
       case Some(v) => if v.Arr? then GetArray(rest, v.entries, default, decode) else None)
    case (_, None) =>
      match Lookup(arr, ToKey(k))
      case Some(Arr(es)) => Some(es)
      case Some(Str(s)) => (match decode(s) case Some(es) => Some(es) case None => Some(default))
      case _ => Some(default)
  }

  /** A dotted key reads through the array stored under its first segment. */
  lemma GetDescends(head: string, rest: string, arr: seq<Entry>, inner: seq<Entry>, default: string)
    requires '.' !in head
    requires Lookup(arr, ToKey(head)) == Some(Arr(inner))
    ensures Get(head + "." + rest, arr, default) == Get(rest, inner, default)
  {
    var k := head + "." + rest;
    assert k == head + ['.'] + rest;
    SplitFirstAt(head, rest);
  }

  lemma SplitFirstAt(head: string, rest: string)
    requires '.' !in head
    ensures SplitFirst('.', head + "." + rest) == (head, Some(rest))
  {
    var k := head + "." + rest;
    assert k == head + ['.'] + rest;
    IndexOfAfter(head, '.', rest);
    assert k[..|head|] == head && k[|head| + 1..] == rest;
  }

  /** A dotted key whose head is missing gives the default. */
  lemma GetMissingHead(head: string, rest: string, arr: seq<Entry>, default: string)
    requires '.' !in head
    requires ToKey(head) !in Keys(arr)
    ensures Get(head + "." + rest, arr, default) == Some(default)
  {
    SplitFirstAt(head, rest);
  }

  /** A dotted key whose head holds a scalar is a type error. */
  lemma GetThroughScalar(head: string, rest: string, arr: seq<Entry>, default: string)
    requires '.' !in head
    requires Lookup(arr, ToKey(head)).Some? && !Lookup(arr, ToKey(head)).value.Arr?
    ensures Get(head + "." + rest, arr, default).None?
  {
    SplitFirstAt(head, rest);
  }

  /** A plain key reads the string, or the integer as text, and the default otherwise. */
  lemma GetPlain(k: string, arr: seq<Entry>, default: string)
    requires '.' !in k
    ensures Get(k, arr, default) == Some(
      match Lookup(arr, ToKey(k))
      case Some(Str(s)) => s
      case Some(Int(n)) => IntToString(n)
      case _ => default)
  {
  }

  /** A plain key reads through getInt as the stored value cast to an integer, and the default when missing or null. */
  lemma GetIntPlain(k: string, arr: seq<Entry>, default: int)
    requires '.' !in k
    ensures GetInt(k, arr, default) == Some(
      match Lookup(arr, ToKey(k))
      case None => default
      case Some(Null) => default
      case Some(v) => IntValue(v))
  {
  }

  /** A plain key reads through getArray as the stored array, the decoded string or the default. */
  lemma GetArrayPlain(k: string, arr: seq<Entry>, default: seq<Entry>, decode: string -> Option<seq<Entry>>)
    requires '.' !in k
    ensures GetArray(k, arr, default, decode) == Some(
      match Lookup(arr, ToKey(k))
      case Some(Arr(es)) => es
      case Some(Str(s)) => (match decode(s) case Some(es) => es case None => default)
      case _ => default)
  {
  }

  /** A dot-free key set to a string reads back as that string. */
  lemma GetAfterSet(k: string, arr: seq<Entry>, v: string, default: string)
    requires '.' !in k
    ensures Get(k, Set(arr, ToKey(k), Str(v)), default) == Some(v)
  {
    var a := Set(arr, ToKey(k), Str(v));
    GetPlain(k, a, default);
  }

  /** A dot-free key set to an integer reads back through getInt as that integer. */
  lemma GetIntAfterSet(k: string, arr: seq<Entry>, n: int, default: int)
    requires '.' !in k
    ensures GetInt(k, Set(arr, ToKey(k), Int(n)), default) == Some(n)
  {
    var a := Set(arr, ToKey(k), Int(n));
    GetIntPlain(k, a, default);
  }

  /** A dot-free key holding a numeric string reads back through getInt as its value. */
  lemma GetIntOfDecimal(k: string, arr: seq<Entry>, n: int, default: int)
    requires '.' !in k && MinLong <= n <= MaxLong
    ensures GetInt(k, Set(arr, ToKey(k), Str(IntToString(n))), default) == Some(n)
  {
    var v := Str(IntToString(n));
    var a := Set(arr, ToKey(k), v);
    GetIntPlain(k, a, default);
    IntValOfInt(n);
    assert IntValue(v) == n;
  }

  /** getBool succeeds on a dot-free key exactly when the key is missing or holds a boolean. */
  lemma GetBoolPlain(k: string, arr: seq<Entry>, default: bool)
    requires '.' !in k
    ensures GetBool(k, arr, default).Some?
        <==> Lookup(arr, ToKey(k)).None? || Lookup(arr, ToKey(k)).value.Bool?
    ensures Lookup(arr, ToKey(k)).None? ==> GetBool(k, arr, default) == Some(default)
  {
  }

  /** A dot-free key holding an array reads back through getArray as that array. */
  lemma GetArrayAfterSet(k: string, arr: seq<Entry>, v: seq<Entry>, default: seq<Entry>,
                         decode: string -> Option<seq<Entry>>)
    requires '.' !in k
    ensures GetArray(k, Set(arr, ToKey(k), Arr(v)), default, decode) == Some(v)
  {
    var a := Set(arr, ToKey(k), Arr(v));
    GetArrayPlain(k, a, default, decode);
  }

  /** The list element `v` is an array whose `k` entry is the string `value`. */
  predicate Matches(k: string, value: string, v: Value)
  {
    v.Arr? && Lookup(v.entries, ToKey(k)) == Some(Str(value))
  }

  /** The first `n` elements of the list are arrays that do not match. */
  predicate PassedOver(k: string, value: string, list: seq<Value>, n: nat)
  {
    n <= |list| && forall j :: 0 <= j < n ==> list[j].Arr? && !Matches(k, value, list[j])
  }

  lemma PassedOverTail(k: string, value: string, list: seq<Value>, n: nat)
    requires |list| > 0 && list[0].Arr? && !Matches(k, value, list[0])
    requires PassedOver(k, value, list[1..], n)
    ensures PassedOver(k, value, list, n + 1)
  {
    forall j | 1 <= j < n + 1 ensures list[j] == list[1..][j - 1] { }
  }

  /**
   * `extractArray($k, $value, $list)`: the first element whose `$k` entry is
   * identical to the string `$value`; an element met on the way that is not
   * an array makes `array_key_exists` throw.
   */
  function ExtractArray(k: string, value: string, list: seq<Value>): (r: Result<seq<Entry>, ToolError>)
    ensures r.Success? ==> exists i :: 0 <= i < |list| && list[i] == Arr(r.value)
                                       && Matches(k, value, list[i]) && PassedOver(k, value, list, i)
    ensures r == Failure(ArrayNotFound) <==> PassedOver(k, value, list, |list|)
    ensures r == Failure(TypeError) ==> exists i :: 0 <= i < |list| && !list[i].Arr? && PassedOver(k, value, list, i)
    ensures r.Failure? ==> r.error != MalformedArray
  {
    if |list| == 0 then Failure(ArrayNotFound)
    else if !list[0].Arr? then
      assert PassedOver(k, value, list, 0);
      Failure(TypeError)
    else if Matches(k, value, list[0]) then
      assert PassedOver(k, value, list, 0);
      Success(list[0].entries)
    else
      var r := ExtractArray(k, value, list[1..]);
      if r.Success? then
        var i :| 0 <= i < |list| - 1 && list[1..][i] == Arr(r.value)
                 && Matches(k, value, list[1..][i]) && PassedOver(k, value, list[1..], i);
        PassedOverTail(k, value, list, i);
        assert list[i + 1] == Arr(r.value);
        r
      else if r.error == TypeError then
        var i :| 0 <= i < |list| - 1 && !list[1..][i].Arr? && PassedOver(k, value, list[1..], i);
        PassedOverTail(k, value, list, i);
        assert !list[i + 1].Arr?;
        r
      else
        PassedOverTail(k, value, list, |list| - 1);
        r
  }

  /** `mustContains($keys, $arr)`: passes iff every listed key is present. */
  function MustContains(keys: seq<string>, arr: seq<Entry>): (r: Result<(), ToolError>)
    ensures r.Success? <==> forall k :: k in keys ==> ToKey(k) in Keys(arr)
    ensures r.Failure? ==> r.error == MalformedArray
  {
    if |keys| == 0 then Success(())
    else
      assert forall k :: k in keys <==> k == keys[0] || k in keys[1..];
      if ToKey(keys[0]) !in Keys(arr) then Failure(MalformedArray)
      else MustContains(keys[1..], arr)
  }
}
