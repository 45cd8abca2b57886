/**
 * PHP arrays: ordered maps from integer or string keys to values.  An array
 * is the sequence of its entries in insertion order; the lookups, writes and
 * `array_merge` below follow the engine's rules (a numeric string key is
 * stored as an integer, `$a[] = v` uses the next free integer key, writing an
 * existing key keeps its position).
 */
module PhpArrays {
  import opened Wrappers
  import opened PhpStrings

  datatype Key = IntKey(i: int) | StrKey(s: string)

  /** The PHP values the library stores; `Obj` stands for an object handle. */
  datatype Value =
    | Null
    | Bool(b: bool)
    | Int(n: int)
    | Str(s: string)
    | Arr(entries: seq<Entry>)
    | Obj(handle: nat)

  datatype Entry = Entry(key: Key, val: Value)

  /** The text a key reads as (`(string)$key` for an integer key). */
  function KeyString(k: Key): string
  {
    match k
    case IntKey(i) => IntToString(i)
    case StrKey(s) => s
  }

  /**
   * The key `$arr[$s]` addresses: a string that is the canonical decimal
   * form of an integer becomes that integer.
   */
  function ToKey(s: string): (k: Key)
    ensures KeyString(k) == s
    ensures k.StrKey? ==> k.s == s
  {
    if |s| == 0 || !(IsDigit(s[0]) || s[0] == '-') then StrKey(s)
    else
      var n := IntVal(s);
      if IntToString(n) == s then IntKey(n) else StrKey(s)
  }

  /** Two strings name the same array slot only when they are equal. */
  lemma ToKeyInjective(a: string, b: string)
    requires ToKey(a) == ToKey(b)
    ensures a == b
  {
    assert KeyString(ToKey(a)) == a;
  }

  /** The decimal form of an integer addresses that integer key. */
  lemma ToKeyOfInt(n: int)
    requires MinLong <= n <= MaxLong
    ensures ToKey(IntToString(n)) == IntKey(n)
  {
    IntValOfInt(n);
  }

  /** The decimal text of an integer starts with a digit or '-'. */
  lemma IntToStringHead(n: int)
    ensures IsDigit(IntToString(n)[0]) || IntToString(n)[0] == '-'
  {
  }

  /** A string that starts with neither a digit nor '-' is a string key. */
  lemma ToKeyOfWord(s: string)
    requires |s| > 0 && !IsDigit(s[0]) && s[0] != '-'
    ensures ToKey(s) == StrKey(s)
  {
    IntToStringHead(IntVal(s));
  }

  function Keys(es: seq<Entry>): (ks: seq<Key>)
    ensures |ks| == |es| && forall i :: 0 <= i < |es| ==> ks[i] == es[i].key
  {
    seq(|es|, i requires 0 <= i < |es| => es[i].key)
  }

  function Values(es: seq<Entry>): (vs: seq<Value>)
    ensures |vs| == |es| && forall i :: 0 <= i < |es| ==> vs[i] == es[i].val
  {
    seq(|es|, i requires 0 <= i < |es| => es[i].val)
  }

  /** Every PHP array has pairwise distinct keys. */
  predicate Distinct(es: seq<Entry>)
  {
    forall i, j :: 0 <= i < j < |es| ==> es[i].key != es[j].key
  }

  /** The position of key `k`. */
  function Find(es: seq<Entry>, k: Key): (r: Option<nat>)
    ensures r.None? <==> k !in Keys(es)
    ensures r.Some? ==> r.value < |es| && es[r.value].key == k
    ensures r.Some? ==> forall j :: 0 <= j < r.value ==> es[j].key != k
  {
    if |es| == 0 then None
    else if es[0].key == k then Some(0)
    else match Find(es[1..], k)
      case None => None
      case Some(i) => Some(i + 1)
  }

  /** Two arrays with the same key sequence hold each key at the same place. */
  lemma {:induction false} FindSameKeys(es: seq<Entry>, fs: seq<Entry>, k: Key)
    requires Keys(es) == Keys(fs)
    ensures Find(es, k) == Find(fs, k)
    decreases |es|
  {
    if |es| > 0 {
      assert es[0].key == Keys(es)[0] == Keys(fs)[0] == fs[0].key;
      assert Keys(es[1..]) == Keys(es)[1..] == Keys(fs)[1..] == Keys(fs[1..]);
      FindSameKeys(es[1..], fs[1..], k);
    }
  }

  /** Adding an entry at the end does not move the other keys. */
  lemma {:induction false} FindSnoc(es: seq<Entry>, e: Entry, k: Key)
    requires k != e.key
    ensures Find(es + [e], k) == Find(es, k)
    decreases |es|
  {
    if |es| > 0 {
      assert (es + [e])[1..] == es[1..] + [e];
      FindSnoc(es[1..], e, k);
    }
  }

  /** Looking up in a non-empty array: the first entry, or the rest. */
  lemma LookupCons(es: seq<Entry>, k: Key)
    requires |es| > 0
    ensures Lookup(es, k) == if es[0].key == k then Some(es[0].val) else Lookup(es[1..], k)
  {
  }

  /** Four entries under distinct keys read back by key. */
  lemma LookupFour(k0: Key, k1: Key, k2: Key, k3: Key, v0: Value, v1: Value, v2: Value, v3: Value)
    requires k0 != k1 && k0 != k2 && k0 != k3 && k1 != k2 && k1 != k3 && k2 != k3
    ensures var es := [Entry(k0, v0), Entry(k1, v1), Entry(k2, v2), Entry(k3, v3)];
            Lookup(es, k0) == Some(v0) && Lookup(es, k1) == Some(v1)
            && Lookup(es, k2) == Some(v2) && Lookup(es, k3) == Some(v3)
  {
    var es := [Entry(k0, v0), Entry(k1, v1), Entry(k2, v2), Entry(k3, v3)];
    LookupCons(es, k1);
    LookupCons(es[1..], k2);
    LookupCons(es, k2);
    LookupCons(es[1..][1..], k3);
    LookupCons(es[1..], k3);
    LookupCons(es, k3);
  }

  /** `array_key_exists` followed by `$arr[$k]`. */
  function Lookup(es: seq<Entry>, k: Key): (r: Option<Value>)
    ensures r.None? <==> k !in Keys(es)
    ensures r.Some? ==> exists i :: 0 <= i < |es| && es[i] == Entry(k, r.value)
  {
    match Find(es, k)
    case None => None
    case Some(i) => Some(es[i].val)
  }

  /** `$arr[$k] = $v`: an existing key is rewritten where it stands, a new one goes last. */
  function Set(es: seq<Entry>, k: Key, v: Value): (r: seq<Entry>)
    ensures Lookup(r, k) == Some(v)
    ensures forall k' :: k' != k ==> Lookup(r, k') == Lookup(es, k')
    ensures Keys(r) == if k in Keys(es) then Keys(es) else Keys(es) + [k]
    ensures Distinct(es) ==> Distinct(r)
  {
    match Find(es, k)
    case None =>
      var r := es + [Entry(k, v)];
      assert Keys(r) == Keys(es) + [k];
      forall k' | k' != k ensures Find(r, k') == Find(es, k') {
        FindSnoc(es, Entry(k, v), k');
      }
      r
    case Some(i) =>
      var r := es[i := Entry(k, v)];
      assert Keys(r) == Keys(es);
      forall k' ensures Find(r, k') == Find(es, k') {
        FindSameKeys(r, es, k');
      }
      r
  }

  /** A second write to the same key replaces the first. */
  lemma SetTwice(es: seq<Entry>, k: Key, v1: Value, v2: Value)
    ensures Set(Set(es, k, v1), k, v2) == Set(es, k, v2)
  {
    if Find(es, k).None? {
      var r := es + [Entry(k, v1)];
      assert Keys(r) == Keys(es) + [k];
      forall j | 0 <= j < |es| ensures r[j].key != k {
        assert r[j].key == Keys(es)[j];
      }
      assert Find(r, k) == Some(|es|);
      assert (es + [Entry(k, v1)])[|es| := Entry(k, v2)] == es + [Entry(k, v2)];
    } else {
      var i := Find(es, k).value;
      FindSameKeys(es[i := Entry(k, v1)], es, k);
    }
  }

  /** `unset($arr[$k])`. */
  function Remove(es: seq<Entry>, k: Key): (r: seq<Entry>)
    ensures forall k' :: k' in Keys(r) <==> k' in Keys(es) && k' != k
  {
    if |es| == 0 then []
    else
      var rest := Remove(es[1..], k);
      assert Keys(es) == [es[0].key] + Keys(es[1..]);
      if es[0].key == k then rest
      else
        assert Keys([es[0]] + rest) == [es[0].key] + Keys(rest);
        [es[0]] + rest
  }

  /** After `unset($arr[$k])` the key is gone and every other key reads as before. */
  lemma {:induction false} RemoveLookup(es: seq<Entry>, k: Key, k': Key)
    ensures Lookup(Remove(es, k), k') == if k' == k then None else Lookup(es, k')
    decreases |es|
  {
    if |es| > 0 {
      RemoveLookup(es[1..], k, k');
      LookupCons(es, k');
      var r := Remove(es, k);
      if es[0].key != k {
        assert r == [es[0]] + Remove(es[1..], k);
        assert r[1..] == Remove(es[1..], k);
        LookupCons(r, k');
      }
    }
  }

  /** `unset` keeps the keys distinct. */
  lemma {:induction false} RemoveDistinct(es: seq<Entry>, k: Key)
    requires Distinct(es)
    ensures Distinct(Remove(es, k))
    decreases |es|
  {
    if |es| > 0 {
      assert Distinct(es[1..]);
      RemoveDistinct(es[1..], k);
      var rest := Remove(es[1..], k);
      if es[0].key != k {
        assert Keys(es) == [es[0].key] + Keys(es[1..]);
        assert es[0].key !in Keys(rest);
        var r := [es[0]] + rest;
        forall i, j | 0 <= i < j < |r| ensures r[i].key != r[j].key {
          if i == 0 {
            assert r[j].key == Keys(rest)[j - 1];
          } else {
            assert r[i] == rest[i - 1] && r[j] == rest[j - 1];
          }
        }
      }
    }
  }

  /** The key `$arr[] = $v` uses: one above the largest integer key, and never below 0. */
  function NextIndex(es: seq<Entry>): (n: nat)
    ensures forall i :: 0 <= i < |es| && es[i].key.IntKey? ==> es[i].key.i < n
  {
    if |es| == 0 then 0
    else
      var rest := NextIndex(es[1..]);
      var here := if es[0].key.IntKey? && es[0].key.i + 1 > 0 then es[0].key.i + 1 else 0;
      if here > rest then here else rest
  }

  /** `$arr[] = $v`. */
  function Append(es: seq<Entry>, v: Value): (r: seq<Entry>)
    ensures Keys(r) == Keys(es) + [IntKey(NextIndex(es))]
    ensures Values(r) == Values(es) + [v]
    ensures Distinct(es) ==> Distinct(r)
  {
    var k := IntKey(NextIndex(es));
    assert k !in Keys(es);
    Set(es, k, v)
  }

  /** The list `[v0, v1, ...]`. */
  function List(vs: seq<Value>): (r: seq<Entry>)
    ensures Values(r) == vs && Distinct(r)
    ensures forall i :: 0 <= i < |vs| ==> r[i].key == IntKey(i)
  {
    seq(|vs|, i requires 0 <= i < |vs| => Entry(IntKey(i), vs[i]))
  }

  lemma {:induction false} NextIndexOfList(vs: seq<Value>)
    ensures NextIndex(List(vs)) == |vs|
    decreases |vs|
  {
    if |vs| > 0 {
      var l := List(vs);
      var rest := List(vs[1..]);
      NextIndexOfList(vs[1..]);
      // the tail of a list holds the keys 1.., one above the shorter list's keys
      forall i | 0 <= i < |l| - 1
        ensures l[1..][i].key.i == rest[i].key.i + 1
      {
        assert l[1..][i] == l[i + 1] == Entry(IntKey(i + 1), vs[i + 1]);
        assert rest[i] == Entry(IntKey(i), vs[1..][i]);
      }
      NextIndexShift(l[1..], rest);
    }
  }

  lemma {:induction false} NextIndexShift(es: seq<Entry>, fs: seq<Entry>)
    requires |es| == |fs|
    requires forall i :: 0 <= i < |fs| ==> fs[i].key.IntKey? && fs[i].key.i >= 0
    requires forall i :: 0 <= i < |es| ==> es[i].key.IntKey? && es[i].key.i == fs[i].key.i + 1
    ensures NextIndex(es) == if |fs| == 0 then 0 else NextIndex(fs) + 1
    decreases |es|
  {
    if |es| > 0 {
      NextIndexShift(es[1..], fs[1..]);
    }
  }

  /** Appending to a list extends the list. */
  lemma AppendToList(vs: seq<Value>, v: Value)
    ensures Append(List(vs), v) == List(vs + [v])
  {
    NextIndexOfList(vs);
    var a, b := Append(List(vs), v), List(vs + [v]);
    assert Keys(a) == Keys(b);
    assert Values(a) == Values(b);
    assert forall i :: 0 <= i < |a| ==> a[i] == Entry(Keys(a)[i], Values(a)[i]) == b[i];
  }

  /** One step of `array_merge`: integer keys are renumbered, string keys overwrite. */
  function MergeEntry(acc: seq<Entry>, e: Entry): seq<Entry>
  {
    if e.key.IntKey? then Append(acc, e.val) else Set(acc, e.key, e.val)
  }

  function MergeAll(acc: seq<Entry>, es: seq<Entry>): seq<Entry>
    decreases |es|
  {
    if |es| == 0 then acc else MergeAll(MergeEntry(acc, es[0]), es[1..])
  }

  /** `array_merge($a, $b)`. */
  function Merge(a: seq<Entry>, b: seq<Entry>): seq<Entry>
  {
    MergeAll(MergeAll([], a), b)
  }

  /** Merging two entries with different string keys into an empty array keeps both keys, in order. */
  lemma MergeTwoKeys(k1: Key, v1: Value, k2: Key, v2: Value)
    requires k1.StrKey? && k2.StrKey? && k1 != k2
    ensures Keys(MergeAll([], [Entry(k1, v1), Entry(k2, v2)])) == [k1, k2]
  {
    MergeTwoSets(k1, v1, k2, v2);
    SetTwoKeys(k1, v1, k2, v2);
  }

  /** Merging two string-keyed entries writes them one after the other. */
  lemma MergeTwoSets(k1: Key, v1: Value, k2: Key, v2: Value)
    requires k1.StrKey? && k2.StrKey?
    ensures MergeAll([], [Entry(k1, v1), Entry(k2, v2)]) == Set(Set([], k1, v1), k2, v2)
  {
    var es := [Entry(k1, v1), Entry(k2, v2)];
    var m0 := Set([], k1, v1);
    var rest := es[1..];
    assert rest[0] == Entry(k2, v2) && |rest| == 1;
    assert MergeAll([], es) == MergeAll(m0, rest);
    assert MergeAll(m0, rest) == MergeAll(Set(m0, k2, v2), rest[1..]);
  }

  /** Writing two different keys into an empty array lists them in the order written. */
  lemma SetTwoKeys(k1: Key, v1: Value, k2: Key, v2: Value)
    requires k1 != k2
    ensures Keys(Set(Set([], k1, v1), k2, v2)) == [k1, k2]
  {
    var m0 := Set([], k1, v1);
    assert Keys(m0) == [k1];
    assert k2 !in Keys(m0);
    assert [k1] + [k2] == [k1, k2];
  }

  /** Merging keeps the keys already present, in their order, at the front. */
  lemma {:induction false} MergeAllKeepsPrefix(acc: seq<Entry>, es: seq<Entry>)
    ensures Keys(acc) <= Keys(MergeAll(acc, es))
    decreases |es|
  {
    if |es| > 0 {
      MergeAllKeepsPrefix(MergeEntry(acc, es[0]), es[1..]);
    }
  }

  /** After merging, a string key holds its value from the merged array if it has one there. */
  lemma {:induction false} MergeAllStrKey(acc: seq<Entry>, es: seq<Entry>, s: string)
    requires Distinct(es)
    ensures Lookup(MergeAll(acc, es), StrKey(s))
         == if StrKey(s) in Keys(es) then Lookup(es, StrKey(s)) else Lookup(acc, StrKey(s))
    decreases |es|
  {
    if |es| > 0 {
      var acc' := MergeEntry(acc, es[0]);
      assert Keys(es) == [es[0].key] + Keys(es[1..]);
      assert Distinct(es[1..]);
      MergeAllStrKey(acc', es[1..], s);
      if es[0].key == StrKey(s) {
        assert StrKey(s) !in Keys(es[1..]);
      }
    }
  }

  /** `array_merge($a, $b)` on a string key: `$b` wins, else `$a`. */
  lemma MergeStrKey(a: seq<Entry>, b: seq<Entry>, s: string)
    requires Distinct(a) && Distinct(b)
    ensures Lookup(Merge(a, b), StrKey(s))
         == if StrKey(s) in Keys(b) then Lookup(b, StrKey(s)) else Lookup(a, StrKey(s))
  {
    MergeAllStrKey([], a, s);
    MergeAllStrKey(MergeAll([], a), b, s);
  }

  /** Whether `$arr[$k][] = $v` may write into the value `v` (missing, null and false become arrays). */
  predicate Appendable(v: Option<Value>)
  {
    v.None? || v == Some(Null) || v == Some(Bool(false)) || v.value.Arr?
  }

  /**
   * `$arr[$k][] = $v`; `None` when the engine throws because the slot holds
   * a scalar, a string or an object.
   */
  function PushAt(es: seq<Entry>, k: Key, v: Value): (r: Option<seq<Entry>>)
    ensures r.Some? <==> Appendable(Lookup(es, k))
    ensures r.Some? ==> forall k' :: k' != k ==> Lookup(r.value, k') == Lookup(es, k')
    ensures r.Some? && Lookup(es, k).Some? && Lookup(es, k).value.Arr?
            ==> Lookup(r.value, k) == Some(Arr(Append(Lookup(es, k).value.entries, v)))
    ensures r.Some? && !(Lookup(es, k).Some? && Lookup(es, k).value.Arr?)
            ==> Lookup(r.value, k) == Some(Arr(List([v])))
  {
    var cur := Lookup(es, k);
    if !Appendable(cur) then None
    else
      var inner := if cur.Some? && cur.value.Arr? then cur.value.entries else [];
      assert Append([], v) == List([v]) by { AppendToList([], v); }
      Some(Set(es, k, Arr(Append(inner, v))))
  }
}
