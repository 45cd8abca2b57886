# my-small-php-tools, modelled in Dafny

This project models the core of **my-small-php-tools**, a PHP toolbox of
Nextcloud helpers, and proves properties of the model. The core has three
parts.

- **HTTP request signing** (`NC21Signature`, `NC22Signature` and
  `NC23Signature`), with the signatory traits behind it. The system
  implements the `Signature` header of draft-cavage-http-signatures
  ("Signing HTTP Messages"): section 2.1 defines its parameters and section
  2.3 the signing string. An incoming request passes six checks in order:
  1. the `Date` header is recent;
  2. the body matches `content-length` and `digest`;
  3. the `Signature` header is parsed into an array;
  4. the signing string is rebuilt from the declared headers, and the
     mandatory names must be among them;
  5. `keyId`, `headers` and `signature` are present, and the origin host is
     read from `keyId`;
  6. the signature is verified, with at most one forced refresh of the
     signatory.

  An outgoing request stores its signed headers in a fixed order, joins
  them into the same kind of signing string, signs it and attaches the
  `Signature` header. The local key store `TNC23LocalSignatory` and the
  `NC21Signatory` / `NC21SignedRequest` records belong here too.
- **Small stateful structures:**
  - `SimpleDataStore`, with the dotted-path lookups of `TArrayTools`;
  - `Cache` with its `CacheItem`s;
  - the `TNC20Setup` key store;
  - `NC22TreeNode`, a parent-linked tree with a pre-order cursor;
  - `Request`.
- **String and path logic:**
  - the interactive-shell session path and command completion
    (`NC22InteractiveShellSession`, `NC22InteractiveShell`,
    `InteractiveShell`);
  - `TStringTools::commonPart`;
  - the Accept-header matching of `TNC23Controller` (section 5.3.2 of
    RFC 7231).

## How the model is organised

Files follow the source:

- `PhpStrings.dfy` and `PhpArrays.dfy` state the PHP built-ins the code relies on:
  - `explode`, `implode`, `trim`, `strtolower` and `str_replace`;
  - `intval`/`(int)` on strings: leading whitespace, a sign, digits, a fraction and an exponent, truncated toward zero and saturated at `PHP_INT_MAX`/`PHP_INT_MIN`, computed exactly rather than through a double;
  - PHP's loose `==` on strings, as `in_array` without the strict flag uses it: two numeric strings compare as numbers, anything else as text;
  - ordered arrays whose string keys that spell an integer become integer keys.
- Each PHP class whose fields change in place is a Dafny `class`:
  - its methods carry `modifies` clauses;
  - their `ensures` give the whole new state;
  - each loop carries the invariants that tie it to a specification function.
- The pure parts (the algorithm switches, the header parsers and the key-document check) are functions, with lemmas about them.

How the three signature revisions are handled:

- They share one model, parameterised by `Revision` (`NC21`, `NC22`, `NC23`), wherever their code differs:
  - the host used for the `host` line;
  - whether the `host` name is compared case-insensitively;
  - the error raised for a missing mandatory header;
  - whether the received signature is base64-decoded before it is checked.
- `SignatureSpec.dfy` states each step as a function. It also proves the end-to-end properties: parsing round-trips, agreement between signer and verifier, and, for the NC21 and NC22 revisions only, acceptance of a request signed by the matching key.
- `Signature.dfy` holds the classes. They perform the steps on a `SignedRequest` and an outgoing request one field at a time, each method proved against its function.

Collaborators the code reaches through the framework are parameters of the
model, gathered in a `Collaborators` value:

- the clock and `DateTime` parsing;
- `parse_url`;
- the digest;
- signing and verification;
- base64;
- the signatory download;
- the request's header lookup, which gives `''` for an absent header.

A thrown exception is the `Failure` of a `Result`, or `None`/`false`. A
`TypeError` under `strict_types` is modelled the same way.

## Model

| member | source | states |
|---|---|---|
| PhpStrings.Explode | lib/ActivityPub/Nextcloud/nc23/NC23Signature.php:170 | `explode` with a one-character separator gives at least one part, and no part contains the separator |
| PhpStrings.ImplodeExplode | lib/ActivityPub/Nextcloud/nc23/NC23Signature.php:170 | joining the parts of `explode` with the separator gives back the original string |
| PhpStrings.ExplodeImplode | lib/ActivityPub/Nextcloud/nc22/NC22Signature.php:337-347 | splitting a join gives back the parts, when no part holds the separator |
| PhpStrings.SplitFirst | lib/Traits/TArrayTools.php:57 | `explode('.', $k, 2)`: a second part exists exactly when the separator occurs; the key is then the head, the separator and the rest, with no separator in the head |
| PhpStrings.Trim | lib/Traits/Nextcloud/nc23/TNC23Controller.php:179 | `trim`: neither end of the result is a trimmed character; only trimmed characters are dropped in front; the result is a contiguous part of the input |
| PhpStrings.TrimIdempotent | lib/Traits/Nextcloud/nc23/TNC23Controller.php:179 | trimming an already trimmed string changes nothing |
| PhpStrings.Lower | lib/ActivityPub/Nextcloud/nc23/NC23Signature.php:209 | `strtolower` keeps the length and lower-cases each ASCII letter in place |
| PhpStrings.StrReplace | lib/Model/Request.php:112 | `str_replace`: a subject that does not contain the search text comes back unchanged |
| PhpStrings.StrReplaceMatch | lib/Model/Request.php:112 | a subject that starts with the search text has it replaced and the rest is scanned after it |
| PhpStrings.StrReplaceFirst | lib/Model/Request.php:112 | the first occurrence is replaced, the text before it is kept, and the scan resumes after it, so the replacement is never searched again |
| PhpStrings.ToLong | lib/Traits/TArrayTools.php:103 | the integer a number converts to is within `PHP_INT_MIN`..`PHP_INT_MAX`, and is the number truncated toward zero whenever that fits |
| PhpStrings.IntVal | lib/Traits/TArrayTools.php:103 | `intval` of any string is within `PHP_INT_MIN`..`PHP_INT_MAX` |
| PhpStrings.IntValOfInt | lib/ActivityPub/Nextcloud/nc23/NC23Signature.php:154 | `(int)` of the decimal text of any integer within `PHP_INT_MIN`..`PHP_INT_MAX` gives that integer |
| PhpStrings.IntValSaturates | lib/ActivityPub/Nextcloud/nc23/NC23Signature.php:154 | `(int)` of the decimal text of a number above `PHP_INT_MAX` (below the largest double) gives `PHP_INT_MAX` |
| PhpStrings.IntValExponent | lib/Traits/TArrayTools.php:103 | digits, `e` and digits read as the mantissa times ten to the exponent, saturated at `PHP_INT_MAX` |
| PhpStrings.IntValFraction | lib/Traits/TArrayTools.php:103 | digits with a fraction give the whole part: the fraction is cut off |
| PhpStrings.IntValOfExponentExample | lib/ActivityPub/Nextcloud/nc23/NC23Signature.php:154 | `(int)"1e3"` is 1000 |
| PhpStrings.IntValOfFractionExample | lib/Traits/TArrayTools.php:103 | `intval("1.9")` is 1 |
| PhpStrings.LooseEqualsSymmetric | lib/Console/Nextcloud/nc22/InteractiveShell.php:216 | loose `==` does not depend on the order of its operands |
| PhpStrings.LooseEqualsLeadingZero | lib/Console/Nextcloud/nc22/InteractiveShell.php:216 | `"1" == "01"`: numeric strings compare as numbers |
| PhpStrings.LooseEqualsExponent | lib/Console/Nextcloud/nc22/InteractiveShell.php:216 | `"10" == "1e1"`: the exponent is read |
| PhpStrings.LooseEqualsTrailingText | lib/Console/Nextcloud/nc22/InteractiveShell.php:216 | `"1" != "1a"`: a number followed by text is not numeric and compares as text |
| PhpStrings.LooselyInNonNumeric | lib/Console/Nextcloud/nc22/InteractiveShell.php:216 | for a needle that is not a numeric string, loose `in_array` finds it exactly when it is in the list |
| PhpArrays.ToKey | lib/Model/SimpleDataStore.php:69 | the slot `$arr[$s]` addresses: its text is `$s`, and a string key keeps `$s` as it is |
| PhpArrays.ToKeyInjective | lib/Model/SimpleDataStore.php:69 | two different strings never address the same slot |
| PhpArrays.Set | lib/Model/SimpleDataStore.php:68-72 | `$arr[$k] = $v`: the key then reads `$v` and every other key reads as before; an existing key keeps its place and a new one is appended; distinct keys stay distinct |
| PhpArrays.SetTwice | lib/Model/SimpleDataStore.php:203-211 | a second write to the same key replaces the first |
| PhpArrays.Remove | lib/Traits/Nextcloud/nc23/TNC23LocalSignatory.php:112-118 | `unset($arr[$k])` removes that key and keeps every other key |
| PhpArrays.RemoveLookup | lib/Traits/Nextcloud/nc23/TNC23LocalSignatory.php:112-118 | after `unset` the key is absent and every other key reads as before |
| PhpArrays.Append | lib/Model/SimpleDataStore.php:94 | `$arr[] = $v` appends `$v` under a fresh integer key one above the largest |
| PhpArrays.AppendToList | lib/Model/SimpleDataStore.php:94 | appending to a list `[v0..vn]` gives the list `[v0..vn, v]` |
| PhpArrays.MergeStrKey | lib/Model/SimpleDataStore.php:208 | `array_merge($a, $b)` on a string key gives `$b`'s value when `$b` has the key, else `$a`'s |
| PhpArrays.PushAt | lib/Model/SimpleDataStore.php:90-94 | `$arr[$k][] = $v` fails exactly when the slot holds a scalar; it appends to a stored array or starts `[$v]`, and leaves other keys alone |
| DataStore.SimpleDataStore.constructor | lib/Model/SimpleDataStore.php:57-59 | the store holds the given array |
| DataStore.SimpleDataStore.S | lib/Model/SimpleDataStore.php:68-72 | the new store is the old one with the key set to the string |
| DataStore.SimpleDataStore.G | lib/Model/SimpleDataStore.php:79-81 | returns the `get` lookup of the key with default `''` |
| DataStore.SimpleDataStore.SInt | lib/Model/SimpleDataStore.php:106-110 | the new store is the old one with the key set to the integer |
| DataStore.SimpleDataStore.GInt | lib/Model/SimpleDataStore.php:117-119 | returns the `getInt` lookup with default 0 |
| DataStore.SimpleDataStore.SBool | lib/Model/SimpleDataStore.php:144-148 | the new store is the old one with the key set to the boolean |
| DataStore.SimpleDataStore.GBool | lib/Model/SimpleDataStore.php:155-157 | returns the `getBool` lookup with default false |
| DataStore.SimpleDataStore.SArray | lib/Model/SimpleDataStore.php:182-186 | the new store is the old one with the key set to the array |
| DataStore.SimpleDataStore.GArray | lib/Model/SimpleDataStore.php:193-195 | returns the `getArray` lookup with default `[]` |
| DataStore.SimpleDataStore.SObj | lib/Model/SimpleDataStore.php:220-224 | the new store is the old one with the key set to the object |
| DataStore.SimpleDataStore.Push | lib/Model/SimpleDataStore.php:89-97 | succeeds exactly when the slot is missing or an array, then appends the value there; on failure the store is unchanged |
| DataStore.SimpleDataStore.A | lib/Model/SimpleDataStore.php:89-97 | `a`: appends the string under the key (see `Push`) |
| DataStore.SimpleDataStore.AInt | lib/Model/SimpleDataStore.php:127-135 | `aInt`: appends the integer under the key (see `Push`) |
| DataStore.SimpleDataStore.ABool | lib/Model/SimpleDataStore.php:165-173 | `aBool`: appends the boolean under the key (see `Push`) |
| DataStore.SimpleDataStore.AObj | lib/Model/SimpleDataStore.php:241-249 | `aObj`: appends the object under the key (see `Push`) |
| DataStore.SimpleDataStore.AArray | lib/Model/SimpleDataStore.php:203-211 | fails exactly when the slot holds a non-array; otherwise the key holds `array_merge` of the stored array (or `[]`) and the values |
| DataStore.SimpleDataStore.GAll | lib/Model/SimpleDataStore.php:255-257 | returns the whole stored array |
| DataStore.SimpleDataStore.SAll | lib/Model/SimpleDataStore.php:264-268 | the store becomes the given array |
| DataStore.SimpleDataStore.JsonSerialize | lib/Model/SimpleDataStore.php:274-276 | serializes to the stored array itself |
| DataStore.SetKeepsOthers | lib/Model/SimpleDataStore.php:68-72 | setting one key leaves every other key's value as it was |
| DataStore.PushOntoList | lib/Model/SimpleDataStore.php:89-97 | appending to a list stored under a key extends that list by exactly the value |
| ArrayTools.GetDescends | lib/Traits/TArrayTools.php:57-64 | a dotted key whose head holds an array reads the rest of the key inside that array |
| ArrayTools.GetMissingHead | lib/Traits/TArrayTools.php:59-61 | a dotted key whose head is missing gives the default |
| ArrayTools.GetThroughScalar | lib/Traits/TArrayTools.php:63 | a dotted key whose head holds a scalar is a type error |
| ArrayTools.GetPlain | lib/Traits/TArrayTools.php:66-74 | a plain key gives the stored string or the integer as text, and otherwise the default |
| ArrayTools.GetIntPlain | lib/Traits/TArrayTools.php:99-103 | a plain key gives `intval` of the stored value, or the default when missing or null |
| ArrayTools.GetArrayPlain | lib/Traits/TArrayTools.php:186-203 | a plain key gives the stored array, the decoded string, or the default |
| ArrayTools.GetBoolPlain | lib/Traits/TArrayTools.php:157-161 | `getBool` succeeds exactly when the key is missing or holds a boolean; a missing key gives the default |
| ArrayTools.GetAfterSet | lib/Traits/TArrayTools.php:66-74 | a dot-free key set to a string reads back as that string |
| ArrayTools.GetIntAfterSet | lib/Traits/TArrayTools.php:99-103 | a dot-free key set to an integer reads back through `getInt` as that integer |
| ArrayTools.GetIntOfDecimal | lib/Traits/TArrayTools.php:103 | a dot-free key holding the decimal text of an integer reads back through `getInt` as that integer |
| ArrayTools.GetArrayAfterSet | lib/Traits/TArrayTools.php:186-203 | a dot-free key set to an array reads back through `getArray` as that array |
| ArrayTools.ExtractArray | lib/Traits/TArrayTools.php:215-227 | a success is an array element of the list; not found exactly when every element is an array that does not match; a type error only at a non-array element reached before any match |
| ArrayTools.MustContains | lib/Traits/TArrayTools.php:236-242 | passes exactly when every listed key is present, and fails with a malformed-array error otherwise |
| Setup.SetupStore.Setup | lib/Traits/Nextcloud/nc20/TNC20Setup.php:54-64 | the method is specified by `SetupResult`: its result and new store are the function's; the store never holds `''` |
| Setup.SetupResult | lib/Traits/Nextcloud/nc20/TNC20Setup.php:54-64 | one call: a non-empty value is stored and returned; an empty value changes nothing and returns the stored value or `''` |
| Setup.SetupKeepsOthers | lib/Traits/Nextcloud/nc20/TNC20Setup.php:55-57 | a call for one key leaves every other key's presence and value unchanged |
| Setup.SetupNeverClears | lib/Traits/Nextcloud/nc20/TNC20Setup.php:55-57 | after any sequence of calls, a key once stored still holds a non-empty value |
| StringTools.CommonLength | lib/Traits/TStringTools.php:72-90 | the length fits both strings, the (folded) characters agree below it, and they differ at it unless a string ends there |
| StringTools.CommonPart | lib/Traits/TStringTools.php:72-90 | the loop returns `str1` cut at the common length |
| StringTools.CommonLengthSelf | lib/Traits/TStringTools.php:72-90 | a string's common part with itself is the whole string |
| StringTools.CommonLengthPrefix | lib/Traits/TStringTools.php:72-90 | compared case-sensitively, the common part is a prefix of the second string as well |
| StringTools.CommonLengthUnique | lib/Traits/TStringTools.php:72-90 | any length with a matching prefix that cannot be extended is the common length |
| Controller.TrimHeader | lib/Traits/Nextcloud/nc23/TNC23Controller.php:178-186 | the result is a prefix of the trimmed header, holds no ';', and is the whole trimmed header when it has no ';' |
| Controller.Accepts | lib/Traits/Nextcloud/nc23/TNC23Controller.php:161 | one entry per comma-separated part of the Accept header, each the `trimHeader` of its part |
| Controller.AnyWithin | lib/Traits/Nextcloud/nc23/TNC23Controller.php:163-169 | true exactly when some entry is loosely (`in_array` without the strict flag) one of the needles |
| Controller.AnyWithinExact | lib/Traits/Nextcloud/nc23/TNC23Controller.php:163-169 | against needles that are not numeric strings, the loose match is the exact one |
| Controller.JsonRequestedExact | lib/Traits/Nextcloud/nc23/TNC23Controller.php:143-150 | a request asks for JSON exactly when its Accept header lists one of the three JSON media types as an entry |
| Controller.PublicPageJsonLimited | lib/Traits/Nextcloud/nc23/TNC23Controller.php:128-137 | passes exactly when JSON is requested; otherwise NotLoggedIn exactly when the user is not logged in, JsonNotRequested exactly when they are |
| Controller.AcceptsJoin | lib/Traits/Nextcloud/nc23/TNC23Controller.php:161 | the entries of `a,b` are the entries of `a` followed by those of `b` |
| Controller.AcceptJoin | lib/Traits/Nextcloud/nc23/TNC23Controller.php:159-170 | a header `a,b` matches the needles exactly when `a` or `b` does |
| Controller.AnyWithinAppend | lib/Traits/Nextcloud/nc23/TNC23Controller.php:163-169 | the search over two concatenated lists is the disjunction of the two searches |
| Controller.TrimHeaderBare | lib/Traits/Nextcloud/nc23/TNC23Controller.php:178-186 | an entry without blanks or ';' is returned unchanged |
| Controller.TrimHeaderParams | lib/Traits/Nextcloud/nc23/TNC23Controller.php:178-186 | `type;params` is read as `type` |
| Controller.AcceptsBare | lib/Traits/Nextcloud/nc23/TNC23Controller.php:161 | a header of one bare media type yields exactly that entry |
| Controller.NeedleAmongOthers | lib/Traits/Nextcloud/nc23/TNC23Controller.php:159-170 | a needle listed as a whole entry anywhere in the header matches, whatever surrounds it |
| Controller.JsonAmongOthers | lib/Traits/Nextcloud/nc23/TNC23Controller.php:143-151 | `application/json` anywhere in the Accept header makes the request a JSON request |
| Controller.SuccessResponse | lib/Traits/Nextcloud/nc23/TNC23Controller.php:77-86 | the response carries the given code, and, when no status is asked for, the data as given (the `json_decode(json_encode())` round trip is left out) |
| Controller.FailResponse | lib/Traits/Nextcloud/nc23/TNC23Controller.php:109-113 | the response carries the given code |
| Controller.SuccessStatus | lib/Traits/Nextcloud/nc23/TNC23Controller.php:81-83 | with a status, the payload's 'status' is 1 unless the data brings its own, which then wins (`array_merge`) |
| Controller.FailStatus | lib/Traits/Nextcloud/nc23/TNC23Controller.php:112 | the payload's 'status' is -1 and 'error' the message, unless the data overrides them |
| Controller.PayloadKeepsHead | lib/Traits/Nextcloud/nc23/TNC23Controller.php:112 | the failure payload's first two keys are 'status' and 'error' whatever the data |
| RequestModel.ParsedUrlNoStrings | lib/Model/Request.php:104-116 | data without string values leaves the URL unchanged |
| RequestModel.ParsedUrlNoColon | lib/Model/Request.php:104-116 | a URL with no ':' has no placeholder and comes back unchanged |
| RequestModel.Request.constructor | lib/Model/Request.php:77-80 | the URL and type are kept; no address, headers or data, a 10-second timeout |
| RequestModel.Request.SetAddress | lib/Model/Request.php:95-99 | only the address changes, to the given one |
| RequestModel.Request.GetParsedUrl | lib/Model/Request.php:104-116 | the loop substitutes each string value for its `:key`, key by key in data order (the `ParsedUrl` specification) |
| RequestModel.ParsedUrlPlaceholder | lib/Model/Request.php:104-116 | a URL with one `:key` placeholder and no other ':' gets the string value in its place and is otherwise unchanged |
| RequestModel.Request.AddHeader | lib/Model/Request.php:135-139 | the header is appended after the earlier ones, which are kept in order |
| RequestModel.Request.SetHeaders | lib/Model/Request.php:154-158 | the headers are replaced |
| RequestModel.Request.SetData | lib/Model/Request.php:174-178 | the data is replaced |
| RequestModel.Request.AddData | lib/Model/Request.php:211-215 | the key (normalised as a PHP array key) is written with the string value, every other entry kept |
| RequestModel.Request.AddDataInt | lib/Model/Request.php:224-228 | the key is written with the integer value, every other entry kept |
| RequestModel.Request.SetTimeout | lib/Model/Request.php:272-276 | only the timeout changes |
| RequestModel.Request.SetUserAgent | lib/Model/Request.php:291-295 | only the user agent changes |
| RequestModel.Request.JsonSerialize | lib/Model/Request.php:301-309 | exactly the keys host, url, timeout, type and data, in that order, holding the request's fields |
| CacheModel.CacheItem.constructor | lib/Model/CacheItem.php:45-65 | a new item holds its URL, empty content, not cached, creation 0 |
| CacheModel.CacheItem.GetUrl | lib/Model/CacheItem.php:71-73 | returns the item's URL |
| CacheModel.CacheItem.SetUrl | lib/Model/CacheItem.php:80-84 | writes the URL only and returns the same item |
| CacheModel.CacheItem.GetContent | lib/Model/CacheItem.php:90-92 | returns the content |
| CacheModel.CacheItem.SetContent | lib/Model/CacheItem.php:99-103 | writes the content only and returns the same item |
| CacheModel.CacheItem.IsCached | lib/Model/CacheItem.php:109-111 | returns the cached flag |
| CacheModel.CacheItem.SetCached | lib/Model/CacheItem.php:118-122 | writes the cached flag only and returns the same item |
| CacheModel.CacheItem.GetCreation | lib/Model/CacheItem.php:128-130 | returns the creation time |
| CacheModel.CacheItem.SetCreation | lib/Model/CacheItem.php:137-141 | writes the creation time only and returns the same item |
| CacheModel.Urls | lib/Model/Cache.php:166-171 | one URL per item, in list order |
| CacheModel.Without | lib/Model/Cache.php:101-113 | the result holds exactly the items whose URL differs from the given one, and is no longer than the list |
| CacheModel.WithoutAbsent | lib/Model/Cache.php:101-113 | removing a URL no item carries leaves the list unchanged |
| CacheModel.WithoutIdempotent | lib/Model/Cache.php:101-113 | removing the same URL twice is removing it once |
| CacheModel.Replaced | lib/Model/Cache.php:127-135 | same length; each position holds the new item where the URL matched and the old item elsewhere |
| CacheModel.ReplacedAbsent | lib/Model/Cache.php:127-135 | without a match, replacing changes nothing |
| CacheModel.UpdatedWithMatch | lib/Model/Cache.php:122-144 | with a match, the list as written and as documented agree, keep their length and contain the new item |
| CacheModel.UpdateAsWrittenInverted | lib/Model/Cache.php:137-139 | as written, a missing item is appended only when `$create` is false (see Findings) |
| CacheModel.UpdateIntendedCreates | lib/Model/Cache.php:114-122 | as documented, a missing item is appended exactly when `$create` is true |
| CacheModel.Cache.constructor | lib/Model/Cache.php:49-53 | a new cache has no items |
| CacheModel.Cache.GotItems | lib/Model/Cache.php:59-61 | true exactly when the list is non-empty |
| CacheModel.Cache.GetItems | lib/Model/Cache.php:66-68 | returns the list |
| CacheModel.Cache.SetItems | lib/Model/Cache.php:75-79 | replaces the list |
| CacheModel.Cache.AddItem | lib/Model/Cache.php:86-94 | an item with an empty URL is ignored; any other is appended, even when its URL is already present |
| CacheModel.Cache.RemoveItem | lib/Model/Cache.php:101-113 | the loop leaves the list `Without` the URL: every match gone, the rest in order |
| CacheModel.Cache.ReplaceMatches | lib/Model/Cache.php:126-135 | the loop builds `Replaced` and its flag is true exactly when some item matched |
| CacheModel.Cache.UpdateItem | lib/Model/Cache.php:122-144 | as written: an empty URL changes nothing; otherwise every match is replaced in place and a missing item is appended when `$create` is false |
| CacheModel.Cache.UpdateItemIntended | lib/Model/Cache.php:114-144 | corrected: every match replaced in place and a missing item appended when `$create` is true |
| CacheModel.Cache.JsonSerialize | lib/Model/Cache.php:165-183 | the loop builds the `_items`/`_count` head then writes `"{}"` under each URL's array key in item order |
| CacheModel.WriteEncodedLookup | lib/Model/Cache.php:178-180 | after the writes every written key maps to `"{}"` and any other key keeps its earlier value |
| CacheModel.IndexShape | lib/Model/Cache.php:165-183 | unless a URL is `_items` or `_count`, the serialization lists the URLs in order under `_items` and their number under `_count` |
| CacheModel.IndexHeadLookup | lib/Model/Cache.php:173-176 | before the items are written, `_items` holds the URL list and `_count` its length |
| CacheModel.IndexHasUrls | lib/Model/Cache.php:178-180 | every item's URL is a key of the serialization |
| CacheModel.IndexCountOverwritten | lib/Model/Cache.php:178-180 | an item whose URL is `_count` overwrites the count |
| ShellSession.Dedup | lib/Model/Nextcloud/nc22/NC22InteractiveShellSession.php:174 | the result holds exactly the values of the list, each once |
| ShellSession.DedupDistinct | lib/Model/Nextcloud/nc22/NC22InteractiveShellSession.php:174 | a list without repeats comes back unchanged |
| ShellSession.TrimmedIsTrim | lib/Model/Nextcloud/nc22/NC22InteractiveShellSession.php:96-100 | a path with no dot at either end is its own `trim($path, '.')` |
| ShellSession.TrimTrailingDot | lib/Model/Nextcloud/nc22/NC22InteractiveShellSession.php:118-123 | adding an empty segment to a trimmed path leaves the path |
| ShellSession.AddPathIsPathWith | lib/Model/Nextcloud/nc22/NC22InteractiveShellSession.php:105-123 | on a trimmed path, `addPath($c)` stores exactly what `getPath($c)` returned before |
| ShellSession.AddPathThenParent | lib/Model/Nextcloud/nc22/NC22InteractiveShellSession.php:118-136 | `addPath($c)` then `goParent()` restores a trimmed path, for a non-empty `$c` without dots |
| ShellSession.ParentIsPrefix | lib/Model/Nextcloud/nc22/NC22InteractiveShellSession.php:128-136 | the parent path is a prefix of the path |
| ShellSession.ParentOfEmpty | lib/Model/Nextcloud/nc22/NC22InteractiveShellSession.php:128-136 | `goParent()` on the empty path leaves it empty |
| ShellSession.NC22InteractiveShellSession.constructor | lib/Model/Nextcloud/nc22/NC22InteractiveShellSession.php:45-70 | prompt `%PATH%>`, empty path and command lists, a fresh empty data store |
| ShellSession.NC22InteractiveShellSession.SetPrompt | lib/Model/Nextcloud/nc22/NC22InteractiveShellSession.php:77-81 | only the prompt changes |
| ShellSession.NC22InteractiveShellSession.SetPath | lib/Model/Nextcloud/nc22/NC22InteractiveShellSession.php:96-100 | the stored path is the given one with its leading and trailing dots stripped, so it is trimmed |
| ShellSession.NC22InteractiveShellSession.GetPath | lib/Model/Nextcloud/nc22/NC22InteractiveShellSession.php:105-111 | with no command, the stored path; with one, a trimmed path |
| ShellSession.NC22InteractiveShellSession.AddPath | lib/Model/Nextcloud/nc22/NC22InteractiveShellSession.php:118-123 | the new path is trimmed and, from a trimmed path, equals `getPath($c)` |
| ShellSession.NC22InteractiveShellSession.GoParent | lib/Model/Nextcloud/nc22/NC22InteractiveShellSession.php:128-136 | the last dot-separated segment is dropped |
| ShellSession.NC22InteractiveShellSession.SetCommands | lib/Model/Nextcloud/nc22/NC22InteractiveShellSession.php:142-146 | only the command list changes |
| ShellSession.NC22InteractiveShellSession.SetGlobalCommands | lib/Model/Nextcloud/nc22/NC22InteractiveShellSession.php:161-165 | only the global command list changes |
| ShellSession.NC22InteractiveShellSession.SetAvailableCommands | lib/Model/Nextcloud/nc22/NC22InteractiveShellSession.php:173-177 | the list is stored without duplicates (`Dedup`) |
| ShellSession.NC22InteractiveShellSession.GetAvailableCommands | lib/Model/Nextcloud/nc22/NC22InteractiveShellSession.php:182-184 | the available commands followed by the global ones |
| ShellSession.NC22InteractiveShellSession.IsCommandAvailable | lib/Model/Nextcloud/nc22/NC22InteractiveShellSession.php:192-200 | true exactly when some listed command starts with `getPath($c)` |
| NC22Shell.LexTotal | lib/Console/Nextcloud/nc22/NC22InteractiveShell.php:92 | any two strings are ordered one way or the other by byte-wise order |
| NC22Shell.Insert | lib/Console/Nextcloud/nc22/NC22InteractiveShell.php:92 | inserting into a sorted list keeps it sorted and adds exactly one copy of the value |
| NC22Shell.SortStrings | lib/Console/Nextcloud/nc22/NC22InteractiveShell.php:92 | `sort($commands)`: the result is sorted and a permutation of the input |
| NC22Shell.KeepTruthy | lib/Console/Nextcloud/nc22/NC22InteractiveShell.php:217 | `array_filter`: exactly the truthy strings of the list, never more of them |
| NC22Shell.KeepTruthyAppend | lib/Console/Nextcloud/nc22/NC22InteractiveShell.php:217 | filtering a concatenation is concatenating the filtered halves |
| NC22Shell.KeepTruthyIdempotent | lib/Console/Nextcloud/nc22/NC22InteractiveShell.php:217 | filtering twice is filtering once |
| NC22Shell.Offers | lib/Console/Nextcloud/nc22/NC22InteractiveShell.php:210-215 | one offer per part; the last is all parts space-separated |
| NC22Shell.OffersPrefix | lib/Console/Nextcloud/nc22/NC22InteractiveShell.php:210-215 | the offers of the first n parts are the first n offers |
| NC22Shell.OffersAt | lib/Console/Nextcloud/nc22/NC22InteractiveShell.php:210-215 | offer i is the first i + 1 parts joined by spaces |
| NC22Shell.Available | lib/Console/Nextcloud/nc22/NC22InteractiveShell.php:203-221 | the completions handed to the session are all truthy and without repeats |
| NC22Shell.SpacedExplode | lib/Console/Nextcloud/nc22/NC22InteractiveShell.php:212-214 | splitting on dots and joining with spaces reads every dot as a space |
| NC22Shell.DeepestOffer | lib/Console/Nextcloud/nc22/NC22InteractiveShell.php:210-215 | the deepest offer of a command is its remainder with dots read as spaces |
| NC22Shell.KeepTruthyStep | lib/Console/Nextcloud/nc22/NC22InteractiveShell.php:217 | filtering at every step equals filtering everything once at the end |
| NC22Shell.CandidatesCover | lib/Console/Nextcloud/nc22/NC22InteractiveShell.php:205-218 | every offer of every command under the path is among the candidates |
| NC22Shell.FullCompletionOffered | lib/Console/Nextcloud/nc22/NC22InteractiveShell.php:203-221 | every command under the session path is offered down to its full remainder, unless that remainder is falsy |
| NC22Shell.CandidatesOnlyUnder | lib/Console/Nextcloud/nc22/NC22InteractiveShell.php:206-208 | when no command lies under the path there are no completions |
| NC22Shell.TopLevel | lib/Console/Nextcloud/nc22/NC22InteractiveShell.php:227-233 | exactly the listed commands without a space |
| NC22Shell.NextPathLeads | lib/Console/Nextcloud/nc22/NC22InteractiveShell.php:113-145 | when the path is empty or starts some command, it still does after any answer |
| NC22Shell.NextPathDescends | lib/Console/Nextcloud/nc22/NC22InteractiveShell.php:144 | a plain word that starts a known command under the path is entered, and `goParent` comes back from it |
| NC22Shell.NC22InteractiveShell.constructor | lib/Console/Nextcloud/nc22/NC22InteractiveShell.php:76-85 | no commands and no client calls yet |
| NC22Shell.NC22InteractiveShell.SetCommands | lib/Console/Nextcloud/nc22/NC22InteractiveShell.php:91-94 | the commands sorted (a sorted permutation), followed by 'quit' and 'help' |
| NC22Shell.NC22InteractiveShell.AddCommand | lib/Console/Nextcloud/nc22/NC22InteractiveShell.php:99-101 | the command is appended |
| NC22Shell.NC22InteractiveShell.Begin | lib/Console/Nextcloud/nc22/NC22InteractiveShell.php:107-112 | the given session, or a fresh empty one, holding the shell's commands |
| NC22Shell.NC22InteractiveShell.ManageAvailableCommands | lib/Console/Nextcloud/nc22/NC22InteractiveShell.php:203-221 | the loop stores `Available` for the session's path |
| NC22Shell.NC22InteractiveShell.CommandOffers | lib/Console/Nextcloud/nc22/NC22InteractiveShell.php:210-215 | the inner loop builds `Offers` of the parts |
| NC22Shell.NC22InteractiveShell.ListCurrentAvailableCommands | lib/Console/Nextcloud/nc22/NC22InteractiveShell.php:227-233 | the lines written are `TopLevel` of the list |
| NC22Shell.NC22InteractiveShell.ManageCommand | lib/Console/Nextcloud/nc22/NC22InteractiveShell.php:240-250 | the spaced command is read with dots; when some command starts with the new path the session enters it and the client is told, otherwise nothing changes |
| NC22Shell.NC22InteractiveShell.Step | lib/Console/Nextcloud/nc22/NC22InteractiveShell.php:113-145 | one loop pass: the client is told of the prompt, completions are stored, and the lowercased answer quits, lists the top-level completions, goes to the parent, or descends (`NextPath`); a path that leads somewhere keeps leading somewhere |
| Shell.Row | lib/Console/Nextcloud/nc22/InteractiveShell.php:214-221 | one command per root, in root order |
| Shell.Product | lib/Console/Nextcloud/nc22/InteractiveShell.php:212-225 | the new root has one entry per listed value and root |
| Shell.AddMissing | lib/Console/Nextcloud/nc22/InteractiveShell.php:216-218 | the old list is kept as a prefix, the result holds only old and new values, and a list without repeats stays without repeats |
| Shell.AddMissingCovers | lib/Console/Nextcloud/nc22/InteractiveShell.php:216-218 | every new value ends up loosely (`in_array` without the strict flag) in the list |
| Shell.AddMissingDistinct | lib/Console/Nextcloud/nc22/InteractiveShell.php:216-218 | a list without two loosely equal values stays so |
| Shell.WalkApart | lib/Console/Nextcloud/nc22/InteractiveShell.php:173-179 | walking an entry keeps the commands pairwise loosely different |
| Shell.CollectApart | lib/Console/Nextcloud/nc22/InteractiveShell.php:162-183 | the completion list never holds two commands that PHP's `==` calls equal |
| Shell.WalkStuck | lib/Console/Nextcloud/nc22/InteractiveShell.php:173-179 | once a segment raises the `TypeError`, the whole entry does |
| Shell.CollectStuck | lib/Console/Nextcloud/nc22/InteractiveShell.php:164-180 | once an entry raises the `TypeError`, `availableCommands` does |
| Shell.WalkGrows | lib/Console/Nextcloud/nc22/InteractiveShell.php:173-179 | walking an entry keeps the commands found so far as a prefix and adds no repeat |
| Shell.CollectDistinct | lib/Console/Nextcloud/nc22/InteractiveShell.php:162-183 | the completion list has no repeats and only grows from entry to entry |
| Shell.WalkPlain | lib/Console/Nextcloud/nc22/InteractiveShell.php:172-179 | at the top level an entry of plain segments keeps one root, its segments so far joined by spaces, which is loosely among the commands |
| Shell.PlainStep | lib/Console/Nextcloud/nc22/InteractiveShell.php:203-226 | a plain segment after a single root yields that root extended by the segment |
| Shell.ReplaceImplode | lib/Console/Nextcloud/nc22/InteractiveShell.php:170 | joining dot-free parts with dots and reading dots as spaces joins them with spaces |
| Shell.PlainEntryOffered | lib/Console/Nextcloud/nc22/InteractiveShell.php:162-183 | at the top level an entry of plain segments is offered whole, dots read as spaces, or a command PHP's `==` calls equal to it is |
| Shell.Proposals | lib/Console/Nextcloud/nc22/InteractiveShell.php:133-134 | one proposal per known command, in order |
| Shell.Longest | lib/Console/Nextcloud/nc22/InteractiveShell.php:133-138 | never shorter than the old path |
| Shell.Deepest | lib/Console/Nextcloud/nc22/InteractiveShell.php:132-138 | the path after a missing command is never shorter than the old path |
| Shell.LongestIsLongest | lib/Console/Nextcloud/nc22/InteractiveShell.php:135-137 | no proposal is longer than the path kept |
| Shell.LongestIsProposal | lib/Console/Nextcloud/nc22/InteractiveShell.php:133-138 | the path kept is the old path or one of the proposals |
| Shell.DeepestChoice | lib/Console/Nextcloud/nc22/InteractiveShell.php:132-138 | after a missing command the path is the old one or the proposal of a known command, and none proposes anything longer |
| Shell.ProposalFromCommand | lib/Console/Nextcloud/nc22/InteractiveShell.php:134 | a proposal is the trimmed common prefix of the dotted command and a known command |
| Shell.CommandDotted | lib/Console/Nextcloud/nc22/InteractiveShell.php:128 | for space-free path and answer, the command sent, read with dots, is the path extended by the answer |
| Shell.InteractiveShell.constructor | lib/Console/Nextcloud/nc22/InteractiveShell.php:74-89 | no commands yet |
| Shell.InteractiveShell.SetCommands | lib/Console/Nextcloud/nc22/InteractiveShell.php:95-97 | the commands as given, followed by 'quit' and 'help' |
| Shell.InteractiveShell.ParseSubCommand | lib/Console/Nextcloud/nc22/InteractiveShell.php:203-226 | the `ParseSub` specification: a `?source_field` segment is expanded by the client (a `TypeError` without '_'), then every value after every root |
| Shell.InteractiveShell.AddProduct | lib/Console/Nextcloud/nc22/InteractiveShell.php:212-225 | the outer loop builds the `Product` root and adds it with `AddMissing` |
| Shell.InteractiveShell.AddRow | lib/Console/Nextcloud/nc22/InteractiveShell.php:214-221 | the inner loop appends one `Row` and keeps the commands equal to `AddMissing` of the root so far |
| Shell.InteractiveShell.WalkEntry | lib/Console/Nextcloud/nc22/InteractiveShell.php:169-179 | the loop over one entry's segments computes `Walk` |
| Shell.InteractiveShell.AvailableCommands | lib/Console/Nextcloud/nc22/InteractiveShell.php:162-183 | the loop over the entries computes `Collect` |
| Shell.InteractiveShell.MissingCommandPath | lib/Console/Nextcloud/nc22/InteractiveShell.php:132-138 | the loop over the known commands computes `Deepest` |
| Shell.InteractiveShell.Step | lib/Console/Nextcloud/nc22/InteractiveShell.php:103-154 | one loop pass: a `TypeError` while building completions, exit, the top-level completions on help, the empty path on an empty answer, the deepest proposal after a missing command, or the lines written for the other client exceptions |
| Shell.InteractiveShell.ListCurrentAvailableCommands | lib/Console/Nextcloud/nc22/InteractiveShell.php:189-195 | the lines written are `TopLevel` of the list |
| TreeNodes.NC22TreeNode.constructor | lib/Model/Nextcloud/nc22/NC22TreeNode.php:46-79 | a fresh node with its parent and item, no children, no current child, neither displayed nor split; with a parent it is appended to the parent's children, the parent otherwise unchanged, and the tree stays a tree |
| TreeNodes.NC22TreeNode.AddChild | lib/Model/Nextcloud/nc22/NC22TreeNode.php:105-109 | the child is appended; nothing else changes |
| TreeNodes.NC22TreeNode.Root | lib/Model/Nextcloud/nc22/NC22TreeNode.php:133-139 | a node without parent: the first ancestor, or the node itself |
| TreeNodes.NC22TreeNode.Path | lib/Model/Nextcloud/nc22/NC22TreeNode.php:145-151 | the ancestors from the root down, then the node |
| TreeNodes.NC22TreeNode.Level | lib/Model/Nextcloud/nc22/NC22TreeNode.php:157-163 | one less than the path's length; zero exactly for a node without parent |
| TreeNodes.NC22TreeNode.IsRoot | lib/Model/Nextcloud/nc22/NC22TreeNode.php:84-86 | true exactly when the node is its own root, and exactly when its level is zero |
| TreeNodes.NC22TreeNode.GetItem | lib/Model/Nextcloud/nc22/NC22TreeNode.php:115-119 | returns the item and marks the node displayed, nothing else changes |
| TreeNodes.NC22TreeNode.Next | lib/Model/Nextcloud/nc22/NC22TreeNode.php:193-197 | the first child is removed and becomes the current child; the tree stays a tree |
| TreeNodes.NC22TreeNode.InitCurrentChild | lib/Model/Nextcloud/nc22/NC22TreeNode.php:210-219 | true exactly when a current child exists afterwards; it picks the first child only when there was no current child |
| TreeNodes.NC22TreeNode.Current | lib/Model/Nextcloud/nc22/NC22TreeNode.php:169-187 | an undisplayed node is returned itself with nothing changed; a displayed one becomes split and returns a node of its subtree, or null only when it has no children left and its current child is exhausted; children are only consumed from the front |
| TreeNodes.AncestorsLinked | lib/Model/Nextcloud/nc22/NC22TreeNode.php:133-163 | every ancestor's own chain is the part of the chain above it |
| TreeNodes.ChildBelow | lib/Model/Nextcloud/nc22/NC22TreeNode.php:169-187 | a child's subtree lies strictly inside its parent's, which is what makes the recursion of `current()` end |
| Signatories.OpenSSLAlgo | lib/ActivityPub/Nextcloud/nc22/NC22Signature.php:389-398 | SHA-512 exactly for a SHA-512 signatory, SHA-256 for every other algorithm |
| Signatories.KeyOrigin | lib/Traits/Nextcloud/nc22/TNC22Signatory.php:145-152 | succeeds exactly when the URL's host is a non-empty string and then returns it; otherwise InvalidOrigin with the key id in the message |
| Signatories.CheckSignatory | lib/Traits/Nextcloud/nc22/TNC22Signatory.php:125-135 | passes exactly for a valid signatory; a failure is 'invalid origin' exactly when identity and ownership pass and an origin cannot be read, 'invalid format' otherwise |
| Signatories.UpdateSignatory | lib/Traits/Nextcloud/nc22/TNC22Signatory.php:117-136 | the imported signatory is returned exactly when it is valid for the given key id, or for its own key id when none is given; failures are 'invalid format' or 'invalid origin' |
| Signatories.UpdateOwnKeyId | lib/Traits/Nextcloud/nc22/TNC22Signatory.php:121-123 | with no key id given, the identity test always passes and only ownership, origins and public key decide |
| Signatories.ForeignKeyRefused | lib/Traits/Nextcloud/nc22/TNC22Signatory.php:128 | a key on another host than the signatory's id is refused as 'invalid format', whatever key id is asked for |
| Signatories.DownloadRequest | lib/Traits/Nextcloud/nc22/TNC22Signatory.php:91-99 | the request targets the key id (or the signatory's id), carries the params, ends its headers with `Accept: application/ld+json`, and a request built here follows redirects with a 5-second timeout |
| Signatories.DownloadSignatory | lib/Traits/Nextcloud/nc22/TNC22Signatory.php:84-107 | succeeds exactly when the fetch succeeds and the update passes, and then the signatory is valid; a network failure becomes a SignatoryError with the revision's prefix, any other failure passes through |
| Signatories.RetrieveSignatory | lib/Traits/Nextcloud/nc22/TNC22Signatory.php:64-73 | without refresh a SignatoryError; with refresh the download of a new signatory for the key id |
| Signatories.RetrievedIsValid | lib/Traits/Nextcloud/nc22/TNC22Signatory.php:64-73 | a retrieved signatory was asked with refresh and is valid for the requested key id |
| Signatories.RetrieveFetchesKeyId | lib/Traits/Nextcloud/nc21/TNC21Signatory.php:83-101 | the default retrieval fetches exactly the key id with no params, only the Accept header, redirects followed, 5-second timeout, and local addresses allowed only in the earlier revision |
| Signatories.SignString | lib/Traits/Nextcloud/nc22/TNC22Signatory.php:190-199 | fails exactly on an empty private key ('empty private key'); otherwise the base64 of the signature with the signatory's algorithm |
| Signatories.VerifyString | lib/Traits/Nextcloud/nc22/TNC22Signatory.php:210-216 | passes exactly when the verifier answers 1; otherwise SignatureError 'signature issue' |
| Signatories.SignThenVerify | lib/Traits/Nextcloud/nc22/TNC22Signatory.php:190-216 | for a matching key pair, what `signString` produces verifies after base64 decoding |
| NC21Records.NC21Signatory.constructor | lib/Model/Nextcloud/nc21/NC21Signatory.php:49-70 | the owner argument is ignored: id, owner and both keys start empty |
| NC21Records.NC21Signatory.SetId | lib/Model/Nextcloud/nc21/NC21Signatory.php:85-89 | only the id changes; the same object is returned |
| NC21Records.NC21Signatory.SetOwner | lib/Model/Nextcloud/nc21/NC21Signatory.php:97-101 | only the owner changes; the same object is returned |
| NC21Records.NC21Signatory.SetPublicKey | lib/Model/Nextcloud/nc21/NC21Signatory.php:116-120 | only the public key changes, and `hasPublicKey()` then holds exactly when it is non-empty |
| NC21Records.NC21Signatory.SetPrivateKey | lib/Model/Nextcloud/nc21/NC21Signatory.php:127-131 | only the private key changes, and `hasPrivateKey()` then holds exactly when it is non-empty |
| NC21Records.NC21Signatory.JsonSerialize | lib/Model/Nextcloud/nc21/NC21Signatory.php:165-174 | the `PublicDocument` of the signatory's fields |
| NC21Records.PublicDocument | lib/Model/Nextcloud/nc21/NC21Signatory.php:165-174 | a single key 'publicKey' holding exactly the keys id, owner and publicKeyPem, in that order |
| NC21Records.PublicDocumentHidesPrivateKey | lib/Model/Nextcloud/nc21/NC21Signatory.php:165-174 | the published document is the same whatever the private key |
| NC21Records.PublicDocumentReadBack | lib/Model/Nextcloud/nc21/NC21Signatory.php:165-174 | the document gives back the id, owner and public key, and has no private key entry |
| NC21Records.NC21SignedRequest.constructor | lib/Model/Nextcloud/nc21/NC21SignedRequest.php:48-82 | the body as given, time 0, empty host and signatures, no origin, data or signatory |
| NC21Records.NC21SignedRequest.SetBody | lib/Model/Nextcloud/nc21/NC21SignedRequest.php:116-120 | only the body changes; the same object is returned |
| NC21Records.NC21SignedRequest.SetTime | lib/Model/Nextcloud/nc21/NC21SignedRequest.php:135-139 | only the time changes |
| NC21Records.NC21SignedRequest.SetOrigin | lib/Model/Nextcloud/nc21/NC21SignedRequest.php:154-158 | only the origin changes |
| NC21Records.NC21SignedRequest.SetData | lib/Model/Nextcloud/nc21/NC21SignedRequest.php:173-177 | only the data changes |
| NC21Records.NC21SignedRequest.SetHost | lib/Model/Nextcloud/nc21/NC21SignedRequest.php:222-226 | only the host changes |
| NC21Records.NC21SignedRequest.SetSignature | lib/Model/Nextcloud/nc21/NC21SignedRequest.php:184-188 | only the signature header changes |
| NC21Records.NC21SignedRequest.SetSigned | lib/Model/Nextcloud/nc21/NC21SignedRequest.php:203-207 | only the signed signature changes |
| NC21Records.NC21SignedRequest.SetSignatory | lib/Model/Nextcloud/nc21/NC21SignedRequest.php:239-241 | only the signatory changes, and `hasSignatory()` then holds |
| NC21Records.NC21SignedRequest.JsonSerialize | lib/Model/Nextcloud/nc21/NC21SignedRequest.php:261-263 | always the empty array |
| SignatureText.Quoted | lib/ActivityPub/Nextcloud/nc23/NC23Signature.php:176-179 | a value is found exactly when the text holds a quoted non-empty run, and the value found is non-empty and quote-free |
| SignatureText.ParseEntry | lib/ActivityPub/Nextcloud/nc23/NC23Signature.php:171-178 | an entry is kept exactly when it has an '=' after its first character; its key is the non-empty part before the first '=' and its value is read from the rest |
| SignatureText.ParseEntries | lib/ActivityPub/Nextcloud/nc23/NC23Signature.php:170-181 | the parsed entries form an array without repeated keys, holding only strings |
| SignatureText.ParseSignatureHeader | lib/ActivityPub/Nextcloud/nc23/NC23Signature.php:167-184 | the `Signature` header is parsed into an array without repeated keys |
| SignatureText.EntryValueQuoted | lib/ActivityPub/Nextcloud/nc23/NC23Signature.php:176-179 | a quoted non-empty value without quotes reads back as itself |
| SignatureText.ParseHeaderElement | lib/ActivityPub/Nextcloud/nc23/NC23Signature.php:171-180 | one `name="value"` element the sender writes parses back to that name and value |
| SignatureText.ParseStep | lib/ActivityPub/Nextcloud/nc23/NC23Signature.php:170-181 | parsing one more sender element sets its parameter under a string key |
| SignatureText.ParseAll | lib/ActivityPub/Nextcloud/nc23/NC23Signature.php:170-181 | elements with distinct names parse into exactly those parameters, in order |
| SignatureText.ElementsExplode | lib/ActivityPub/Nextcloud/nc23/NC23Signature.php:170 | elements without ',' come apart again at the commas |
| SignatureText.ParameterNames | lib/ActivityPub/Nextcloud/nc23/NC23Signature.php:339-344 | the four parameter names are distinct and free of ',' |
| SignatureText.ParseComposed | lib/ActivityPub/Nextcloud/nc23/NC23Signature.php:336-347 | round trip: the header the sender composes is parsed by the receiver into exactly keyId, algorithm, headers and signature, when each value is non-empty and has no ',' or '"' |
| SignatureText.UsedEncryption | lib/ActivityPub/Nextcloud/nc23/NC23Signature.php:355-364 | SHA-512 exactly for the label 'rsa-sha512', SHA-256 for anything else |
| SignatureText.ChosenEncryption | lib/ActivityPub/Nextcloud/nc23/NC23Signature.php:371-380 | as written: 'ras-sha512' exactly for SHA-512, 'ras-sha256' otherwise |
| SignatureText.ChosenLabelReadAsSHA256 | lib/ActivityPub/Nextcloud/nc23/NC23Signature.php:355-380 | whatever the signatory's algorithm, the receiver reads the label the sender writes as SHA-256 (see Findings) |
| SignatureText.IntendedLabelRoundTrip | lib/ActivityPub/Nextcloud/nc23/NC23Signature.php:355-380 | with the 'rsa-' labels the receiver reads back the sender's algorithm, and the label is a safe header value |
| SignatureText.ChosenLabelSafe | lib/ActivityPub/Nextcloud/nc23/NC23Signature.php:341 | the label written is a safe header value |
| LocalSignatories.WritableTable | lib/Traits/Nextcloud/nc23/TNC23LocalSignatory.php:94-96 | the stored document can be written into exactly when it is unset, an array, null or false, and then it reads as its array (empty when unset, null or false) |
| LocalSignatories.Created | lib/Traits/Nextcloud/nc23/TNC23LocalSignatory.php:90-92 | the key id is the id followed by '#main-key', the owner is the id, the keys are the generated pair, id and algorithm are kept |
| LocalSignatories.Copied | lib/Traits/Nextcloud/nc23/TNC23LocalSignatory.php:69-72 | copying the record's fields keeps the signatory's id and algorithm |
| LocalSignatories.LocalSignatoryStore.constructor | lib/Traits/Nextcloud/nc23/TNC23LocalSignatory.php:62 | the app value starts unset |
| LocalSignatories.LocalSignatoryStore.CreateSimpleSignatory | lib/Traits/Nextcloud/nc23/TNC23LocalSignatory.php:88-104 | result and stored value are `CreateSpec`: the record written under the id, or the write error with nothing stored |
| LocalSignatories.LocalSignatoryStore.FillSimpleSignatory | lib/Traits/Nextcloud/nc23/TNC23LocalSignatory.php:60-82 | as written: result and stored value are `FillAsWritten`, the record looked up with the dotted-path `getArray` (see Findings) |
| LocalSignatories.LocalSignatoryStore.FillSimpleSignatoryByKey | lib/Traits/Nextcloud/nc23/TNC23LocalSignatory.php:60-82 | corrected: result and stored value are `FillIntended`, the record looked up under the raw id |
| LocalSignatories.LocalSignatoryStore.FillFound | lib/Traits/Nextcloud/nc23/TNC23LocalSignatory.php:68-81 | a non-empty record is copied into the signatory; otherwise 'signatory not found', or a new signatory created when `$generate` |
| LocalSignatories.LocalSignatoryStore.RemoveSimpleSignatory | lib/Traits/Nextcloud/nc23/TNC23LocalSignatory.php:110-119 | the stored array without the id's entry |
| LocalSignatories.RecordReadBack | lib/Traits/Nextcloud/nc23/TNC23LocalSignatory.php:96-101 | the record a signatory is stored as reads back as that signatory |
| LocalSignatories.CreateStores | lib/Traits/Nextcloud/nc23/TNC23LocalSignatory.php:88-104 | creating returns the created signatory, stores its record under its id over any earlier one, and keeps every other entry |
| LocalSignatories.CreateOnScalarFails | lib/Traits/Nextcloud/nc23/TNC23LocalSignatory.php:94-96 | a stored number, non-empty text or true makes the write fail and nothing is stored |
| LocalSignatories.CreateThenFill | lib/Traits/Nextcloud/nc23/TNC23LocalSignatory.php:60-104 | round trip: after creating, filling any signatory with that id yields the created signatory and stores nothing |
| LocalSignatories.FillNotFound | lib/Traits/Nextcloud/nc23/TNC23LocalSignatory.php:77-81 | without a record: 'signatory not found' without `$generate`, creation with it |
| LocalSignatories.FillReadOnly | lib/Traits/Nextcloud/nc23/TNC23LocalSignatory.php:60-79 | without `$generate`, filling never changes the stored value |
| LocalSignatories.FillAgreesOnPlainIds | lib/Traits/Nextcloud/nc23/TNC23LocalSignatory.php:67 | for an id without '.', the dotted-path lookup and the raw-id lookup agree |
| LocalSignatories.DottedIdMissed | lib/Traits/Nextcloud/nc23/TNC23LocalSignatory.php:60-104 | from an empty store, a signatory whose id holds '.' is created, yet filling it as written answers 'signatory not found' while the raw-id lookup finds it |
| LocalSignatories.GetArrayMissingHead | lib/Traits/Nextcloud/nc23/TNC23LocalSignatory.php:67 | a dotted id whose first segment is not a key reads as the default empty array |
| LocalSignatories.RemoveForgets | lib/Traits/Nextcloud/nc23/TNC23LocalSignatory.php:110-119 | after removal, filling that signatory answers 'signatory not found' and every other entry is kept |
| SignatureSpec.RequestTime | lib/ActivityPub/Nextcloud/nc23/NC23Signature.php:129-143 | the date is accepted exactly when it parses to a timestamp no older than `now - TTL`, and the result is that timestamp; an unparsable date is "datetime exception", a stale one "object is too old" |
| SignatureSpec.FreshnessWindow | lib/ActivityPub/Nextcloud/nc23/NC23Signature.php:140-142 | a request exactly `TTL` seconds old, or dated in the future, is accepted; one second older is "object is too old" |
| SignatureSpec.ContentCheck | lib/ActivityPub/Nextcloud/nc23/NC23Signature.php:151-162 | the content passes exactly when the body length equals the integer value of 'content-length' and, when a 'digest' header is sent, the body's digest equals it; the length is checked first |
| SignatureSpec.MissingLengthMeansEmptyBody | lib/ActivityPub/Nextcloud/nc23/NC23Signature.php:154-156 | without a 'content-length' header only an empty body passes; any other body is "issue with content-length" |
| SignatureSpec.DeclaredHeaders | lib/ActivityPub/Nextcloud/nc23/NC23Signature.php:194 | the 'headers' parameter split on ' ' gives at least one name, none holding ' ' |
| SignatureSpec.Required | lib/ActivityPub/Nextcloud/nc23/NC23Signature.php:196-199 | the required names hold content-length, date, host and every configured name |
| SignatureSpec.EnforcementError | lib/ActivityPub/Nextcloud/nc21/NC21Signature.php:201-203 | a missing required name raises a plain exception exactly in the NC21 revision, a signature exception otherwise |
| SignatureSpec.SignedLinesOutcome | lib/ActivityPub/Nextcloud/nc23/NC23Signature.php:207-217 | the lines are built exactly when every declared name has a non-empty value; then there is one 'name: value' line per name, in order; otherwise "empty elements in 'headers'" |
| SignatureSpec.ClearSignatureOutcome | lib/ActivityPub/Nextcloud/nc23/NC23Signature.php:192-219 | the signing string is built exactly when every required name is declared and every declared value is non-empty; a missing required name gives the revision's enforcement error, an empty value "empty elements in 'headers'" |
| SignatureSpec.HostNames | lib/ActivityPub/Nextcloud/nc21/NC21Signature.php:209-214 | in NC21 only the name 'host' reads the host, and it reads the caller's host argument; later revisions read the server host for any case spelling of 'host' |
| SignatureSpec.HostArgumentIgnored | lib/ActivityPub/Nextcloud/nc23/NC23Signature.php:207-211 | from NC22 on, the result of the validation does not depend on the caller's host argument |
| SignatureSpec.ParseIncoming | lib/ActivityPub/Nextcloud/nc23/NC23Signature.php:228-234 | parsing succeeds exactly when keyId, headers and signature are present and keyId has a host; a missing one is `MalformedArray`; the result is the host of keyId and the signature |
| SignatureSpec.VerifySigned | lib/ActivityPub/Nextcloud/nc23/NC23Signature.php:261-278 | the signature verifies exactly when the signatory has a public key and the signature checks against it with the algorithm the label names; an empty key is "empty public key"; every failure is a signature error |
| SignatureSpec.Attempt | lib/ActivityPub/Nextcloud/nc23/NC23Signature.php:247-248 | one attempt succeeds exactly when the signatory is retrieved and the signature verifies with it, and it returns that signatory |
| SignatureSpec.VerifyIncoming | lib/ActivityPub/Nextcloud/nc23/NC23Signature.php:243-253 | an accepted signatory has a public key under which the signature verifies, and it is the one retrieved with or without a refresh |
| SignatureSpec.RetryOnlyOnSignatoryError | lib/ActivityPub/Nextcloud/nc23/NC23Signature.php:246-252 | the second, refreshed attempt runs exactly when the first fails with a signatory error, and its result is final |
| SignatureSpec.EmptyPublicKeyNotRetried | lib/ActivityPub/Nextcloud/nc23/NC23Signature.php:262-265 | a retrieved signatory without a public key fails with "empty public key" and no refresh |
| SignatureSpec.BadSignatureNotRetried | lib/ActivityPub/Nextcloud/nc23/NC23Signature.php:267-277 | a signature that does not verify with the retrieved key fails with "signature issue" and no refresh |
| SignatureSpec.DefaultRetrievalDownloads | lib/ActivityPub/Nextcloud/nc23/NC23Signature.php:247-251 | with the traits' default retrieval, the verification is always the refreshed attempt |
| SignatureSpec.AcceptedPassedEveryCheck | lib/ActivityPub/Nextcloud/nc23/NC23Signature.php:82-100 | an accepted request has a fresh date, matching content, every required name declared, the rebuilt signing string, the origin of its keyId, and a signature that verifies with the signatory's public key |
| SignatureSpec.FirstFailureWins | lib/ActivityPub/Nextcloud/nc23/NC23Signature.php:92-97 | the checks run in the order time, content, signing string, parameters, signature, and the first failure is the result |
| SignatureSpec.SetAllFresh | lib/ActivityPub/Nextcloud/nc23/NC23Signature.php:287-292 | setting new, pairwise different keys appends them to the store in order |
| SignatureSpec.OutgoingDataInOrder | lib/ActivityPub/Nextcloud/nc23/NC23Signature.php:284-295 | the sender stores exactly request target, content-length, date, digest and host, in that order, with those values |
| SignatureSpec.ClearLinesOutcome | lib/ActivityPub/Nextcloud/nc23/NC23Signature.php:301-316 | one 'name: value' line per stored entry, in the store's order |
| SignatureSpec.AddedHeadersExactly | lib/ActivityPub/Nextcloud/nc23/NC23Signature.php:308-310 | a header is added to the outgoing request exactly when it is a stored entry other than the request target |
| SignatureSpec.AdvertisedNames | lib/ActivityPub/Nextcloud/nc23/NC23Signature.php:337 | the advertised names are the stored names without the request target, in order |
| SignatureSpec.AdvertisedAreAdded | lib/ActivityPub/Nextcloud/nc23/NC23Signature.php:336-347 | the names advertised in the `Signature` header are exactly the headers added to the request, in the same order |
| SignatureSpec.OutgoingHeaders | lib/ActivityPub/Nextcloud/nc23/NC23Signature.php:301-316 | the sender advertises, and adds as headers, content-length, date, digest and host, in that order |
| SignatureSpec.OutgoingLines | lib/ActivityPub/Nextcloud/nc23/NC23Signature.php:301-316 | the sender signs the request target line first, then the content-length, date, digest and host lines |
| SignatureSpec.SignOutgoing | lib/ActivityPub/Nextcloud/nc23/NC23Signature.php:110-121 | signing fails exactly for an empty private key; otherwise the signing string is the one of the stored data, the signature is the encoded signature of that string, and the header is composed from them |
| SignatureSpec.NamesJoin | lib/ActivityPub/Nextcloud/nc23/NC23Signature.php:342 | names of lower-case letters and '-', joined by ' ', are a header value free of quotes and commas that splits back into the names |
| SignatureSpec.SignedNamesText | lib/ActivityPub/Nextcloud/nc23/NC23Signature.php:342 | the advertised list of names is a safe header value that splits back into the names |
| SignatureSpec.ComposedParams | lib/ActivityPub/Nextcloud/nc23/NC23Signature.php:339-344 | the receiver reads each of the four composed parameters back as the value the sender wrote |
| SignatureSpec.SignedNamesValues | lib/ActivityPub/Nextcloud/nc23/NC23Signature.php:207-211 | on the advertised names only 'host' takes the receiver's host; the others take the request header of that name |
| SignatureSpec.ClearOfDeclared | lib/ActivityPub/Nextcloud/nc23/NC23Signature.php:204-218 | once every required name is declared and every declared value is present, the signing string is the target line followed by the value lines |
| SignatureSpec.SentHeaderParses | lib/ActivityPub/Nextcloud/nc23/NC23Signature.php:167-184 | the receiver parses the sender's `Signature` header into exactly its four parameters |
| SignatureSpec.ReceiverRebuildsSigningString | lib/ActivityPub/Nextcloud/nc23/NC23Signature.php:192-219 | a receiver that sees the sender's method, path, content-length, date, digest and host rebuilds exactly the string the sender signed, whatever extra names it enforces among the advertised ones |
| SignatureSpec.ParsesSentParameters | lib/ActivityPub/Nextcloud/nc23/NC23Signature.php:228-234 | the receiver finds the sender's signature and the origin of its key id |
| SignatureSpec.VerifiesFirstTime | lib/ActivityPub/Nextcloud/nc23/NC23Signature.php:243-253 | for the NC21 and NC22 revisions only: with a matching key pair and a label naming the signing algorithm, the first attempt accepts, returning the retrieved signatory |
| SignatureSpec.SentContentPasses | lib/ActivityPub/Nextcloud/nc23/NC23Signature.php:151-162 | a request whose length and digest are the body's, and whose date is fresh, passes the time and content checks |
| SignatureSpec.SignedRequestAcceptedWith | lib/ActivityPub/Nextcloud/nc23/NC23Signature.php:82-100 | for the NC21 and NC22 revisions only: a request signed by the sender and received intact is accepted, with the sender's signing string, the origin of its key id and the retrieved signatory, when the label names the signing algorithm |
| SignatureSpec.SignedRequestAccepted | lib/ActivityPub/Nextcloud/nc23/NC23Signature.php:110-121 | a request signed with the label as written, for any algorithm but SHA-512, and received intact is accepted by NC21 and NC22 |
| SignatureSpec.IntendedLabelAccepted | lib/ActivityPub/Nextcloud/nc23/NC23Signature.php:355-364 | for the NC21 and NC22 revisions only: with the label the receiver recognises, a request signed with SHA-256 or SHA-512 and received intact is accepted and yields the retrieved signatory |
| Signatures.SignedRequest.constructor | lib/ActivityPub/Nextcloud/nc23/NC23Signature.php:89 | a signed request starts with the body it is given, time 0, no host, an empty store and signatures, no origin and no signatory |
| Signatures.OutgoingRequest.AddHeader | lib/ActivityPub/Nextcloud/nc23/NC23Signature.php:309 | the header is appended after the ones already added, and nothing else changes |
| Signatures.SignatureService.VerifyIncomingRequestTime | lib/ActivityPub/Nextcloud/nc23/NC23Signature.php:129-143 | the outcome is `RequestTime`'s; the time is stored whenever the date parses, even when it is then rejected as too old |
| Signatures.SignatureService.VerifyIncomingRequestContent | lib/ActivityPub/Nextcloud/nc23/NC23Signature.php:151-162 | the outcome is `ContentCheck`'s on the stored body, and the request is left unchanged |
| Signatures.SignatureService.SetIncomingSignatureHeader | lib/ActivityPub/Nextcloud/nc23/NC23Signature.php:167-184 | the store becomes the parsed `Signature` header, entry by entry |
| Signatures.SignatureService.EstimatedLines | lib/ActivityPub/Nextcloud/nc23/NC23Signature.php:207-217 | the loop builds exactly `SignedLines`: one line per declared name, stopping with "empty elements in 'headers'" at the first empty value |
| Signatures.SignatureService.EstimatedClear | lib/ActivityPub/Nextcloud/nc23/NC23Signature.php:193-218 | the signing string it builds, or the error it raises, is exactly `ClearSignature`: the enforcement error when a required name is missing, then the lines of the declared names after the request-target line |
| Signatures.SignatureService.SetIncomingClearSignature | lib/ActivityPub/Nextcloud/nc23/NC23Signature.php:192-219 | the outcome is `ClearSignature`'s; the signing string is stored only when it is built |
| Signatures.SignatureService.ParseIncomingSignatureHeader | lib/ActivityPub/Nextcloud/nc23/NC23Signature.php:228-234 | the outcome is `ParseIncoming`'s; on success the origin and the signed signature are stored, on failure both are unchanged |
| Signatures.SignatureService.VerifyIncomingRequestSignature | lib/ActivityPub/Nextcloud/nc23/NC23Signature.php:243-253 | the outcome is `VerifyIncoming`'s; the signatory stored is the last one retrieved, even when its signature then fails |
| Signatures.SignatureService.RunIncomingSteps | lib/ActivityPub/Nextcloud/nc23/NC23Signature.php:92-97 | the six steps, run in order on the request, end with the outcome of `Incoming`, and on success the request holds the time, store, signing string, origin, signature and signatory it validated |
| Signatures.SignatureService.IncomingSignedRequest | lib/ActivityPub/Nextcloud/nc23/NC23Signature.php:82-100 | an empty body is replaced by the request input; the new signed request and the outcome agree with `Incoming` on that body |
| Signatures.SignatureService.SetOutgoingSignatureHeader | lib/ActivityPub/Nextcloud/nc23/NC23Signature.php:284-295 | the store becomes the request target, content-length, date, digest and host, in that order |
| Signatures.SignatureService.SetOutgoingClearSignature | lib/ActivityPub/Nextcloud/nc23/NC23Signature.php:301-316 | the signing string is one line per stored entry, and exactly the entries other than the request target are appended as headers, in order |
| Signatures.SignatureService.SetOutgoingSignedSignature | lib/ActivityPub/Nextcloud/nc23/NC23Signature.php:324-328 | the outcome is `SignString`'s on the stored signing string; the signature is stored only on success |
| Signatures.SignatureService.SigningOutgoingRequest | lib/ActivityPub/Nextcloud/nc23/NC23Signature.php:336-347 | exactly one header, `Signature`, is appended, composed from the store, the signatory and the signed signature |
| Signatures.SignatureService.SignOutgoingRequest | lib/ActivityPub/Nextcloud/nc23/NC23Signature.php:110-121 | the outcome is `SignOutgoing`'s; the request ends with the signed headers and, on success, the `Signature` header; when signing fails the signed headers are already added |

## Left out

- Input and output are not modelled. This covers `php://input`, which becomes a parameter, and the console `Question`/autocompleter dialogue. It also covers the shells' `asking`/`confirming` helpers and the endless `run` loop with its `exit`.
- The clock, `DateTime` parsing, `gmdate`, `parse_url`, the digest, OpenSSL signing and verification, base64 and the signatory download are parameters of the model. The model does not define them; it proves its results for whatever they return.
- Key generation (`generateKeys`, OpenSSL) is not modelled. A generated key pair is a parameter.
- Logging, dependency injection, the `IConfig`/`IRequest` framework objects, query builders and webfinger are not modelled.
- `uuid` (`mt_rand`), `getFloat` and the application configuration helpers are not modelled.
- `gObj` calls an undefined `getObj` and is left out.
- Cache: `Cache::import` calls `CacheItem::import`, which does not exist, so it is left out.
- CacheModel.Cache.JsonSerialize: each item is written as `"{}"`, because `json_encode` of a `CacheItem` sees only its private fields.
- Controller: `successObj` and its `json_decode(json_encode(...))` round trip are not modelled.
- Controller.SuccessResponse: the `json_decode(json_encode($data), true)` round trip is not modelled. It turns objects into arrays and fails on text that is not valid UTF-8; the model returns the data as built.
- Request: `setDataJson`, `setDataSerialize`, `getDataBody`, `getUrlData` and the plain getters are not modelled.
- NC22InteractiveShellSession: `getPrompt`, `getCommands`, `setData`, `getData` and `jsonSerialize` are plain accessors and are not modelled.
- ShellSession.NC22InteractiveShellSession.IsCommandAvailable: an empty prefix matches every command. The PHP 8 `strpos` gives this for an empty needle; the PHP 7 warning is not modelled.
- NC22Shell.SortStrings: orders strings byte by byte. PHP `sort` compares two numeric strings as numbers, and that case is not modelled.
- The commented-out `availableCommands`/`parseSubCommand` code in `NC22InteractiveShell` is dead and is not modelled.
- Shell.InteractiveShell.WalkEntry: a path shorter than the entry reads `$subPath[$i]` past its end. PHP then warns and compares with `null`, so the segment is not skipped. The warning itself is not modelled.
- NC22TreeNode: `setChildren` with foreign nodes, and `getParent`, are not modelled. Adopting nodes from another tree could create cycles that the model's invariant excludes.
- NC21SignedRequest: `setRequest`/`getRequest`, which hold an `IRequest`, and the plain getters are not modelled.
- Signatories.VerifyString: the algorithm argument is an `Algorithm` value, not the PHP string.
- The signature pipeline is modelled on what `NC2xSignature` calls: `keys()`, `gItem`, `hasKeys` and `setSignatureHeader`, together with `getKeyId`, `getKeyOwner`, `getAlgorithm`, `setClearSignature` and `getDigest`. The `SimpleDataStore`, `NC21SignedRequest` and `NC21Signatory` files in this repository lack some of these members.
- `NC22SignedRequest`, `NC23SignedRequest`, `NC22Signatory`, `NC23Signatory`, `TNC23Signatory` and `NC23Request` are not part of this model. The fields and constants the signature code uses from them are modelled in `Signatures.SignedRequest`, `Signatures.OutgoingRequest` and `Signatories`.
- SignatureSpec.ClearLines: `gItem` is not part of this model, because this repository's `SimpleDataStore` lacks it. Each stored value is converted to text the way the '.' operator converts it. The `ItemNotFoundException` branch, which would skip an entry, is not modelled.
- SignatureText.ParseSignatureHeader: the store is modelled as the parsed sequence of entries, not as a `SimpleDataStore` object.
- PhpStrings.IntVal: the number is truncated exactly, not first rounded to a double. Spellings with more than about 15 significant digits that have a fractional part or an exponent (such as `"0.99999999999999999999"`, which PHP reads as 1) can differ. Whitespace, signs, fractions, exponents, saturation at `PHP_INT_MAX`/`PHP_INT_MIN` and the 0 for a value past the largest double follow PHP.
- PhpStrings.LooseEquals: numbers are compared exactly, not as doubles, and two numbers that both overflow are not given PHP's fallback to a string comparison. Trailing whitespace is allowed, as in PHP 8; PHP 7 did not allow it.
- DataStore.SimpleDataStore.GInt: inherits the `PhpStrings.IntVal` gap for stored strings whose number needs double rounding.
- ArrayTools.GetIntPlain: inherits the `PhpStrings.IntVal` gap for stored strings whose number needs double rounding.
- SignatureSpec.ContentCheck: inherits the `PhpStrings.IntVal` gap for a 'content-length' header whose number needs double rounding.
- Signatures.SignatureService.VerifyIncomingRequestContent: inherits the `PhpStrings.IntVal` gap through `ContentCheck`.
- Shell.AddMissing: `in_array` is modelled with `PhpStrings.LooseEquals`, so it inherits that predicate's gaps.
- SignatureSpec.VerifiesFirstTime: covers NC21 and NC22 only. NC23 passes the signature to `TNC23Signatory::verifyString` without base64-decoding it (lib/ActivityPub/Nextcloud/nc23/NC23Signature.php:268-271). That trait is not part of this model, so whether NC23 accepts depends on how it reads the signature.
- SignatureSpec.SignedRequestAcceptedWith: covers NC21 and NC22 only, for the same reason as `VerifiesFirstTime`.
- SignatureSpec.SignedRequestAccepted: covers NC21 and NC22 only, for the same reason as `VerifiesFirstTime`.
- SignatureSpec.IntendedLabelAccepted: covers NC21 and NC22 only, for the same reason as `VerifiesFirstTime`.

## Findings

| source | as written | input that shows it | evidently intended | confidence | as-written member | corrected member |
|---|---|---|---|---|---|---|
| lib/Model/Cache.php:137-139 | a missing item is appended only when `$create` is false | an empty cache, an item with URL "a" and `$create = true`: the cache stays empty; with `$create = false` the item is added | the item is appended when `$create` is true, as the parameter name says | not executed | CacheModel.Cache.UpdateItem, CacheModel.UpdateAsWrittenInverted | CacheModel.Cache.UpdateItemIntended, CacheModel.UpdateIntendedCreates |
| lib/Traits/Nextcloud/nc23/TNC23LocalSignatory.php:67 | the stored key pair is looked up with the dotted-path `getArray($id, ...)` | a signatory with id "a.b", created with `createSimpleSignatory` and then filled with `$generate = false`: the lookup walks "a" then "b" and misses the entry stored under "a.b", so the fill fails with 'signatory not found' | the id is looked up as one key, the same key it was stored under | not executed | LocalSignatories.LocalSignatoryStore.FillSimpleSignatory, LocalSignatories.DottedIdMissed | LocalSignatories.LocalSignatoryStore.FillSimpleSignatoryByKey, LocalSignatories.CreateThenFill |
| lib/ActivityPub/Nextcloud/nc23/NC23Signature.php:371-380 | the outgoing `algorithm` label is 'ras-sha512' or 'ras-sha256' | a signatory using SHA-512: the receiver does not recognise 'ras-sha512', verifies with SHA-256 and rejects the correctly signed request | the labels 'rsa-sha512' and 'rsa-sha256' that the receiver reads | not executed | SignatureText.ChosenEncryption, SignatureText.ChosenLabelReadAsSHA256 | SignatureText.IntendedLabelRoundTrip, SignatureSpec.IntendedLabelAccepted |
