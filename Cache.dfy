/**
 * `CacheItem` and `Cache`: a list of URL-keyed items that `Cache` rebuilds in
 * place.  The items are shared objects; the cache only reorders and replaces
 * references and never writes an item's fields.
 */
module CacheModel {
  import opened Wrappers
  import opened PhpStrings
  import opened PhpArrays

  class CacheItem {
    var url: string
    var content: string
    var cached: bool
    var creation: int

    /** A new item holds its URL, empty content, not cached, created at 0. */
    constructor (url: string)
      ensures this.url == url && content == "" && !cached && creation == 0
    {
      this.url := url;
      content := "";
      cached := false;
      creation := 0;
    }

    method GetUrl() returns (r: string)
      ensures r == url
    {
      r := url;
    }

    /** Each setter writes its own field only and returns the item itself. */
    method SetUrl(url: string) returns (self: CacheItem)
      modifies this`url
      ensures this.url == url && self == this
    {
      this.url := url;
      self := this;
    }

    method GetContent() returns (r: string)
      ensures r == content
    {
      r := content;
    }

    method SetContent(content: string) returns (self: CacheItem)
      modifies this`content
      ensures this.content == content && self == this
    {
      this.content := content;
      self := this;
    }

    method IsCached() returns (r: bool)
      ensures r == cached
    {
      r := cached;
    }

    method SetCached(cached: bool) returns (self: CacheItem)
      modifies this`cached
      ensures this.cached == cached && self == this
    {
      this.cached := cached;
      self := this;
    }

    method GetCreation() returns (r: int)
      ensures r == creation
    {
      r := creation;
    }

    method SetCreation(creation: int) returns (self: CacheItem)
      modifies this`creation
      ensures this.creation == creation && self == this
    {
      this.creation := creation;
      self := this;
    }
  }

  /** The URLs of a list of items, in list order. */
  function Urls(items: seq<CacheItem>): (us: seq<string>)
    reads items
    ensures |us| == |items| && forall i :: 0 <= i < |items| ==> us[i] == items[i].url
  {
    seq(|items|, i reads items requires 0 <= i < |items| => items[i].url)
  }

  /** The items whose URL is not `url`, in their original order. */
  function Without(items: seq<CacheItem>, url: string): (r: seq<CacheItem>)
    reads items
    ensures forall x :: x in r ==> x in items && x.url != url
    ensures forall x :: x in items && x.url != url ==> x in r
    ensures |r| <= |items|
  {
    if |items| == 0 then []
    else
      var last := items[|items| - 1];
      var init := items[..|items| - 1];
      assert forall x :: x in items ==> x in init || x == last;
      Without(init, url) + (if last.url != url then [last] else [])
  }

  /** With no item carrying the URL, removing it keeps the list as it is. */
  lemma {:induction false} WithoutAbsent(items: seq<CacheItem>, url: string)
    requires forall i :: 0 <= i < |items| ==> items[i].url != url
    ensures Without(items, url) == items
    decreases |items|
  {
    if |items| > 0 {
      WithoutAbsent(items[..|items| - 1], url);
      assert items[..|items| - 1] + [items[|items| - 1]] == items;
    }
  }

  /** Removing twice removes nothing more. */
  lemma {:induction false} WithoutIdempotent(items: seq<CacheItem>, url: string)
    ensures Without(Without(items, url), url) == Without(items, url)
  {
    var r := Without(items, url);
    forall i | 0 <= i < |r| ensures r[i].url != url {
      assert r[i] in r;
    }
    WithoutAbsent(r, url);
  }

  /** Every item whose URL is `url` replaced, in place, by `item`. */
  function Replaced(items: seq<CacheItem>, item: CacheItem): (r: seq<CacheItem>)
    reads items, item
    ensures |r| == |items|
    ensures forall i :: 0 <= i < |items| ==> r[i] == if items[i].url == item.url then item else items[i]
  {
    if |items| == 0 then []
    else
      var last := items[|items| - 1];
      Replaced(items[..|items| - 1], item) + [if last.url == item.url then item else last]
  }

  /** Some item of the list carries `url`. */
  predicate HasUrl(items: seq<CacheItem>, url: string)
    reads items
  {
    exists i :: 0 <= i < |items| && items[i].url == url
  }

  /** The list `updateItem` leaves, as the code builds it. */
  function UpdatedAsWritten(items: seq<CacheItem>, item: CacheItem, create: bool): seq<CacheItem>
    reads items, item
  {
    Replaced(items, item) + (if !HasUrl(items, item.url) && !create then [item] else [])
  }

  /** The list `updateItem` should leave by its doc comment. */
  function UpdatedIntended(items: seq<CacheItem>, item: CacheItem, create: bool): seq<CacheItem>
    reads items, item
  {
    Replaced(items, item) + (if !HasUrl(items, item.url) && create then [item] else [])
  }

  /** With no item of that URL, replacing changes nothing. */
  lemma ReplacedAbsent(items: seq<CacheItem>, item: CacheItem)
    requires !HasUrl(items, item.url)
    ensures Replaced(items, item) == items
  {
  }

  /** When a match exists, updating keeps the length and puts the item at every match. */
  lemma UpdatedWithMatch(items: seq<CacheItem>, item: CacheItem, create: bool)
    requires HasUrl(items, item.url)
    ensures UpdatedAsWritten(items, item, create) == UpdatedIntended(items, item, create) == Replaced(items, item)
    ensures |UpdatedAsWritten(items, item, create)| == |items|
    ensures item in UpdatedAsWritten(items, item, create)
  {
    var i :| 0 <= i < |items| && items[i].url == item.url;
    assert Replaced(items, item)[i] == item;
  }

  /**
   * As written, the default call `updateItem($item)` (create = true) never
   * adds an item whose URL is not cached yet, and `create = false` does.
   */
  lemma UpdateAsWrittenInverted(items: seq<CacheItem>, item: CacheItem)
    requires !HasUrl(items, item.url)
    ensures UpdatedAsWritten(items, item, true) == items
    ensures UpdatedAsWritten(items, item, false) == items + [item]
  {
    ReplacedAbsent(items, item);
  }

  /** As documented, create = true adds a missing item and create = false leaves the list alone. */
  lemma UpdateIntendedCreates(items: seq<CacheItem>, item: CacheItem)
    requires !HasUrl(items, item.url)
    ensures UpdatedIntended(items, item, true) == items + [item]
    ensures UpdatedIntended(items, item, false) == items
  {
    ReplacedAbsent(items, item);
  }

  class Cache {
    var items: seq<CacheItem>

    constructor ()
      ensures items == []
    {
      items := [];
    }

    /** `gotItems()`. */
    method GotItems() returns (r: bool)
      ensures r <==> |items| > 0
    {
      r := |items| > 0;
    }

    method GetItems() returns (r: seq<CacheItem>)
      ensures r == items
    {
      r := items;
    }

    method SetItems(items: seq<CacheItem>)
      modifies this
      ensures this.items == items
    {
      this.items := items;
    }

    /** `addItem($item)`: an item without URL is ignored; otherwise it is appended, duplicates included. */
    method AddItem(item: CacheItem)
      modifies this
      ensures items == if item.url == "" then old(items) else old(items) + [item]
    {
      if item.url == "" {
        return;
      }
      items := items + [item];
    }

    /** `removeItem($url)`: every item with that URL goes, the others stay in order. */
    method RemoveItem(url: string)
      modifies this
      ensures items == Without(old(items), url)
    {
      var rebuilt: seq<CacheItem> := [];
      var i := 0;
      while i < |items|
        invariant 0 <= i <= |items|
        invariant rebuilt == Without(items[..i], url)
      {
        var item := items[i];
        if item.url != url {
          rebuilt := rebuilt + [item];
        }
        i := i + 1;
        assert items[..i][..i - 1] == items[..i - 1];
      }
      assert items[..i] == items;
      items := rebuilt;
    }

    /** The loop of `updateItem`: the list with every match replaced, and whether there was one. */
    method ReplaceMatches(cacheItem: CacheItem) returns (rebuilt: seq<CacheItem>, updated: bool)
      ensures rebuilt == Replaced(items, cacheItem)
      ensures updated <==> HasUrl(items, cacheItem.url)
    {
      rebuilt := [];
      updated := false;
      var i := 0;
      while i < |items|
        invariant 0 <= i <= |items|
        invariant rebuilt == Replaced(items[..i], cacheItem)
        invariant updated <==> HasUrl(items[..i], cacheItem.url)
      {
        var item := items[i];
        if item.url == cacheItem.url {
          updated := true;
          rebuilt := rebuilt + [cacheItem];
        } else {
          rebuilt := rebuilt + [item];
        }
        i := i + 1;
        assert items[..i][..i - 1] == items[..i - 1];
        assert items[..i][i - 1] == item;
      }
      assert items[..i] == items;
    }

    /**
     * `updateItem($cacheItem, $create)` as written: every item with the same
     * URL is replaced by `$cacheItem` where it stands; when none matched, the
     * item is appended only if `$create` is false.
     */
    method UpdateItem(cacheItem: CacheItem, create: bool)
      modifies this
      ensures cacheItem.url == "" ==> items == old(items)
      ensures cacheItem.url != "" ==> items == UpdatedAsWritten(old(items), cacheItem, create)
    {
      if cacheItem.url == "" {
        return;
      }
      var rebuilt, updated := ReplaceMatches(cacheItem);
      if !updated && !create {
        rebuilt := rebuilt + [cacheItem];
      }
      items := rebuilt;
    }

    /**
     * `updateItem` as its doc comment describes it: with `$create` false a
     * missing item is not created, so a missing item is appended only when
     * `$create` is true.
     */
    method UpdateItemIntended(cacheItem: CacheItem, create: bool)
      modifies this
      ensures cacheItem.url == "" ==> items == old(items)
      ensures cacheItem.url != "" ==> items == UpdatedIntended(old(items), cacheItem, create)
    {
      if cacheItem.url == "" {
        return;
      }
      var rebuilt, updated := ReplaceMatches(cacheItem);
      if !updated && create {
        rebuilt := rebuilt + [cacheItem];
      }
      items := rebuilt;
    }

    /**
     * `jsonSerialize()`: `_items` lists the URLs, `_count` their number, then
     * each URL maps to `json_encode($item)`, which is `"{}"` because a
     * `CacheItem` has no public property.
     */
    method JsonSerialize() returns (r: seq<Entry>)
      ensures r == IndexEntries(Urls(items))
    {
      var ids := Urls(items);
      var head, ks := IndexHead(ids), UrlKeys(ids);
      r := head;
      var i := 0;
      while i < |items|
        invariant 0 <= i <= |items|
        invariant r == WriteEncoded(head, ks[..i])
      {
        assert ToKey(items[i].url) == ks[i];
        r := Set(r, ToKey(items[i].url), Str("{}"));
        WriteEncodedStep(head, ks, i);
        i := i + 1;
      }
      assert ks[..i] == ks;
    }
  }

  function StrValues(ss: seq<string>): (vs: seq<Value>)
    ensures |vs| == |ss| && forall i :: 0 <= i < |ss| ==> vs[i] == Str(ss[i])
  {
    seq(|ss|, i requires 0 <= i < |ss| => Str(ss[i]))
  }

  /** The array keys the URLs address. */
  function UrlKeys(urls: seq<string>): (ks: seq<Key>)
    ensures |ks| == |urls| && forall i :: 0 <= i < |urls| ==> ks[i] == ToKey(urls[i])
  {
    seq(|urls|, i requires 0 <= i < |urls| => ToKey(urls[i]))
  }

  /** Writes `"{}"` under each key in turn. */
  function WriteEncoded(acc: seq<Entry>, ks: seq<Key>): seq<Entry>
  {
    if |ks| == 0 then acc
    else Set(WriteEncoded(acc, ks[..|ks| - 1]), ks[|ks| - 1], Str("{}"))
  }

  /** One more write extends the writes of a prefix. */
  lemma WriteEncodedStep(acc: seq<Entry>, ks: seq<Key>, i: nat)
    requires i < |ks|
    ensures WriteEncoded(acc, ks[..i + 1]) == Set(WriteEncoded(acc, ks[..i]), ks[i], Str("{}"))
  {
    assert ks[..i + 1][..i] == ks[..i];
  }

  /** The `_items` and `_count` entries. */
  function IndexHead(urls: seq<string>): seq<Entry>
  {
    [Entry(StrKey("_items"), Arr(List(StrValues(urls)))), Entry(StrKey("_count"), Int(|urls|))]
  }

  /** The array `jsonSerialize` builds for a list of URLs. */
  function IndexEntries(urls: seq<string>): seq<Entry>
  {
    WriteEncoded(IndexHead(urls), UrlKeys(urls))
  }

  /** After the writes, every written key maps to the encoded item and any other key keeps its value. */
  lemma {:induction false} WriteEncodedLookup(acc: seq<Entry>, ks: seq<Key>, k: Key)
    ensures Lookup(WriteEncoded(acc, ks), k) == if k in ks then Some(Str("{}")) else Lookup(acc, k)
    decreases |ks|
  {
    if |ks| > 0 {
      var init, last := ks[..|ks| - 1], ks[|ks| - 1];
      var before := WriteEncoded(acc, init);
      assert WriteEncoded(acc, ks) == Set(before, last, Str("{}"));
      WriteEncodedLookup(acc, init, k);
      InitOrLast(ks, k);
    }
  }

  /** A non-empty sequence holds exactly what its front part and its last element hold. */
  lemma InitOrLast<T>(s: seq<T>, x: T)
    requires |s| > 0
    ensures x in s <==> x in s[..|s| - 1] || x == s[|s| - 1]
  {
    assert s == s[..|s| - 1] + [s[|s| - 1]];
  }

  /**
   * The serialized cache lists its URLs in order under `_items` and counts
   * them under `_count`, unless an item's URL is one of those two names.
   */
  lemma IndexShape(urls: seq<string>)
    requires "_items" !in urls && "_count" !in urls
    ensures Lookup(IndexEntries(urls), StrKey("_items")) == Some(Arr(List(StrValues(urls))))
    ensures Lookup(IndexEntries(urls), StrKey("_count")) == Some(Int(|urls|))
  {
    var ks := UrlKeys(urls);
    forall i | 0 <= i < |urls| ensures ks[i] != StrKey("_items") && ks[i] != StrKey("_count") {
      assert ks[i] == ToKey(urls[i]);
      assert KeyString(ks[i]) == urls[i] && urls[i] != "_items" && urls[i] != "_count";
    }
    WriteEncodedLookup(IndexHead(urls), ks, StrKey("_items"));
    WriteEncodedLookup(IndexHead(urls), ks, StrKey("_count"));
    IndexHeadLookup(urls);
  }

  /** Before the items are written, `_items` holds the URL list and `_count` its length. */
  lemma IndexHeadLookup(urls: seq<string>)
    ensures Lookup(IndexHead(urls), StrKey("_items")) == Some(Arr(List(StrValues(urls))))
    ensures Lookup(IndexHead(urls), StrKey("_count")) == Some(Int(|urls|))
  {
    assert "_items"[1] != "_count"[1];
    assert Keys(IndexHead(urls)) == [StrKey("_items"), StrKey("_count")];
  }

  /** Every URL of the cache is a key of its serialization. */
  lemma IndexHasUrls(urls: seq<string>, i: nat)
    requires i < |urls|
    ensures Lookup(IndexEntries(urls), ToKey(urls[i])) == Some(Str("{}"))
  {
    WriteEncodedLookup(IndexHead(urls), UrlKeys(urls), ToKey(urls[i]));
    assert ToKey(urls[i]) == UrlKeys(urls)[i];
  }

  /** A URL named `_count` overwrites the count with the encoded item. */
  lemma IndexCountOverwritten(urls: seq<string>)
    requires "_count" in urls
    ensures Lookup(IndexEntries(urls), StrKey("_count")) == Some(Str("{}"))
  {
    var i :| 0 <= i < |urls| && urls[i] == "_count";
    IndexHasUrls(urls, i);
    assert ToKey("_count") == StrKey("_count") by {
      var n := IntVal("_count");
      var t := IntToString(n);
      assert t[0] == '-' || IsDigit(t[0]);
    }
  }
}
