/**
 * `TNC20Setup::setup`: a per-object key store where a non-empty value writes
 * and an empty one only reads.
 */
module Setup {

  class SetupStore {
    var setup: map<string, string>

    /** Only non-empty values are ever stored. */
    ghost predicate Valid()
      reads this
    {
      forall k :: k in setup ==> setup[k] != ""
    }

    constructor ()
      ensures setup == map[] && Valid()
    {
      setup := map[];
    }

    /**
     * `setup($key, $value)`: a non-empty value is stored; the result is the
     * stored value, or '' when the key has none.
     */
    method Setup(key: string, value: string) returns (r: string)
      requires Valid()
      modifies this
      ensures Valid()
      ensures setup == if value != "" then old(setup)[key := value] else old(setup)
      ensures value != "" ==> r == value
      ensures value == "" ==> r == if key in old(setup) then old(setup)[key] else ""
    {
      if value != "" {
        setup := setup[key := value];
      }
      if key in setup {
        r := setup[key];
      } else {
        r := "";
      }
    }
  }

  /** What `setup` returns and leaves, as a function of the store before the call. */
  function SetupResult(setup: map<string, string>, key: string, value: string): (r: (string, map<string, string>))
    ensures r.1 == if value != "" then setup[key := value] else setup
    ensures r.0 == if key in r.1 then r.1[key] else ""
  {
    var s := if value != "" then setup[key := value] else setup;
    (if key in s then s[key] else "", s)
  }

  /** Setting one key leaves every other key as it was. */
  lemma SetupKeepsOthers(setup: map<string, string>, key: string, value: string, other: string)
    requires other != key
    ensures other in SetupResult(setup, key, value).1 <==> other in setup
    ensures other in setup ==> SetupResult(setup, key, value).1[other] == setup[other]
  {
  }

  /** Once stored, a key can be overwritten by a non-empty value but never cleared back to ''. */
  lemma {:induction false} SetupNeverClears(setup: map<string, string>, calls: seq<(string, string)>, key: string)
    requires key in setup && setup[key] != ""
    ensures key in Replay(setup, calls) && Replay(setup, calls)[key] != ""
    decreases |calls|
  {
    if |calls| > 0 {
      var next := SetupResult(setup, calls[0].0, calls[0].1).1;
      SetupNeverClears(next, calls[1..], key);
    }
  }

  /** The store after a series of `setup` calls. */
  function Replay(setup: map<string, string>, calls: seq<(string, string)>): map<string, string>
    decreases |calls|
  {
    if |calls| == 0 then setup else Replay(SetupResult(setup, calls[0].0, calls[0].1).1, calls[1..])
  }
}
