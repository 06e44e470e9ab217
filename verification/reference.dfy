/**
 * The Reference Set: the retained-message snapshot an agent checks its
 * subscriptions against. It maps exact topic names to payloads, answers
 * topic-filter queries with the sub-map of matching topics, and remembers
 * every answer under its filter string.
 */
module Reference {
  import opened Wrappers
  import opened Topics

  newtype byte = x: int | 0 <= x < 256

  type Payload = seq<byte>

  /** Topic name to payload. */
  type Messages = map<string, Payload>

  /** Why a snapshot could not be loaded. */
  datatype LoadError = InvalidPayload

  /**
   * Loading the snapshot: `snapshot` is the parsed JSON object (topic name to
   * base64 text) and `decode` the base64 decoder. Every payload is the decoded
   * text; a text that does not decode makes the load fail.
   */
  function Load(snapshot: map<string, string>, decode: string -> Option<Payload>): (r: Result<Messages, LoadError>)
    ensures r.Ok? <==> forall t :: t in snapshot ==> decode(snapshot[t]).Some?
    ensures r.Ok? ==> r.value.Keys == snapshot.Keys
    ensures r.Ok? ==> forall t :: t in snapshot ==> Some(r.value[t]) == decode(snapshot[t])
  {
    if forall t :: t in snapshot ==> decode(snapshot[t]).Some? then
      Ok(map t | t in snapshot :: decode(snapshot[t]).value)
    else
      Err(InvalidPayload)
  }

  /** The answer to a query: every stored topic the filter matches, with its payload. */
  function Select(messages: Messages, filter: string): Messages {
    map t | t in messages && Matches(filter, t) :: messages[t]
  }

  /**
   * The answer for a filter without wildcards: at most the one entry stored
   * under exactly that name, which is all that the matcher would select.
   */
  function ExactLookup(messages: Messages, filter: string): (r: Messages)
    requires !HasWildcard(filter)
    ensures r == Select(messages, filter)
    ensures |r| <= 1
    ensures filter in messages ==> r == map[filter := messages[filter]]
    ensures filter !in messages ==> r == map[]
  {
    forall t | t in messages ensures Matches(filter, t) <==> filter == t {
      LiteralMatchIsEquality(filter, t);
    }
    if filter in messages then map[filter := messages[filter]] else map[]
  }

  /** The answer for "P/#" with P wildcard-free: P itself and everything below it. */
  lemma SelectBelow(messages: Messages, prefix: string)
    requires !HasWildcard(prefix)
    ensures Select(messages, prefix + "/" + MultiLevel)
         == map t | t in messages && (t == prefix || prefix + "/" <= t) :: messages[t]
  {
    forall t | t in messages
      ensures Matches(prefix + "/" + MultiLevel, t) <==> t == prefix || prefix + "/" <= t
    {
      TrailingMultiLevelTopics(prefix, t);
    }
  }

  /** A wildcard query resolved by checking every stored topic against the filter. */
  method Scan(messages: Messages, filter: string) returns (r: Messages)
    ensures r == Select(messages, filter)
  {
    r := map[];
    var todo := messages.Keys;
    while todo != {}
      invariant todo <= messages.Keys
      invariant r == map t | t in messages && t !in todo && Matches(filter, t) :: messages[t]
      decreases todo
    {
      var t :| t in todo;
      if Matches(filter, t) {
        r := r[t := messages[t]];
      }
      todo := todo - {t};
    }
  }

  /**
   * A loaded snapshot with its memo of answers. `scans` logs, for the proof
   * only, each filter a full scan was run for.
   */
  class ReferenceSet {
    const messages: Messages
    var cache: map<string, Messages>
    ghost var scans: seq<string>

    /** Every remembered answer is the true answer, and no filter was scanned twice. */
    ghost predicate Valid()
      reads this
    {
      && (forall f :: f in cache ==> cache[f] == Select(messages, f))
      && (forall i :: 0 <= i < |scans| ==> scans[i] in cache)
      && (forall i, j :: 0 <= i < j < |scans| ==> scans[i] != scans[j])
    }

    constructor (messages: Messages)
      ensures Valid()
      ensures this.messages == messages && cache == map[] && scans == []
    {
      this.messages := messages;
      cache := map[];
      scans := [];
    }

    /**
     * The stored topics matching `filter`, with their payloads. A filter asked
     * before is answered from the memo; otherwise a wildcard-free filter is
     * one lookup, a wildcard filter one scan, and the answer is remembered.
     */
    method GetMessages(filter: string) returns (r: Messages)
      requires Valid()
      modifies this`cache, this`scans
      ensures Valid()
      ensures r == Select(messages, filter)
      ensures cache == old(cache)[filter := r]
      ensures scans == if filter !in old(cache) && HasWildcard(filter) then old(scans) + [filter] else old(scans)
    {
      if filter in cache {
        return cache[filter];
      }
      if HasWildcard(filter) {
        r := Scan(messages, filter);
        scans := scans + [filter];
      } else {
        r := ExactLookup(messages, filter);
      }
      cache := cache[filter := r];
    }
  }

  /** Each filter occurs at most once in a log without repeats. */
  lemma {:induction false} DistinctOccursOnce(log: seq<string>, f: string)
    requires forall i, j :: 0 <= i < j < |log| ==> log[i] != log[j]
    ensures multiset(log)[f] <= 1
    decreases |log|
  {
    if log != [] {
      var last := log[|log| - 1];
      var init := log[..|log| - 1];
      assert log == init + [last];
      DistinctOccursOnce(init, f);
      if last == f {
        assert f !in init by {
          forall i | 0 <= i < |init| ensures init[i] != f {
            assert init[i] == log[i];
          }
        }
      }
    }
  }

  /** However many queries were made, no filter has been scanned for more than once. */
  lemma AtMostOneScan(rs: ReferenceSet, filter: string)
    requires rs.Valid()
    ensures multiset(rs.scans)[filter] <= 1
  {
    DistinctOccursOnce(rs.scans, filter);
  }

  /** The topics of the snapshot loaded in `TestReferenceSetCache`. */
  const LongTopic: string := "/this/is/a/lengthy/key/name"
  const ShortTopic: string := "/this/is/shorter"

  /** The snapshot object of the test, with the two base64 texts it stores. */
  function TestObject(long64: string, short64: string): map<string, string> {
    map[LongTopic := long64, ShortTopic := short64]
  }

  /** Loading the test's snapshot gives the two decoded payloads under their topics. */
  lemma LoadTestObject(long64: string, short64: string, longPayload: Payload, shortPayload: Payload,
                       decode: string -> Option<Payload>)
    requires decode(long64) == Some(longPayload) && decode(short64) == Some(shortPayload)
    ensures Load(TestObject(long64, short64), decode) == Ok(TestMessages(longPayload, shortPayload))
  {
    var r := Load(TestObject(long64, short64), decode);
    assert r.Ok?;
    assert r.value == TestMessages(longPayload, shortPayload);
  }

  /** The snapshot of the test, once loaded. */
  function TestMessages(longPayload: Payload, shortPayload: Payload): Messages {
    map[LongTopic := longPayload, ShortTopic := shortPayload]
  }

  /** The test's exact query gives the one entry stored under that topic. */
  lemma TestExactQuery(longPayload: Payload, shortPayload: Payload)
    ensures Select(TestMessages(longPayload, shortPayload), LongTopic) == map[LongTopic := longPayload]
  {
    assert !HasWildcard(LongTopic);
    var m := TestMessages(longPayload, shortPayload);
    assert ExactLookup(m, LongTopic) == map[LongTopic := longPayload];
  }

  /** The test's "/this/is/#" query gives both stored topics, at both depths. */
  lemma TestBelowQuery(longPayload: Payload, shortPayload: Payload)
    ensures Select(TestMessages(longPayload, shortPayload), "/this/is/#") == TestMessages(longPayload, shortPayload)
  {
    var prefix := "/this/is";
    assert !HasWildcard(prefix);
    assert "/this/is/#" == prefix + "/" + MultiLevel;
    SelectBelow(TestMessages(longPayload, shortPayload), prefix);
    assert prefix + "/" <= LongTopic;
    assert prefix + "/" <= ShortTopic;
  }

  /** The test's "/not/existing/#" query matches no stored topic and gives an empty answer. */
  lemma TestMissQuery(longPayload: Payload, shortPayload: Payload)
    ensures Select(TestMessages(longPayload, shortPayload), "/not/existing/#") == map[]
  {
    var absent := "/not/existing";
    var m := TestMessages(longPayload, shortPayload);
    assert !HasWildcard(absent);
    assert "/not/existing/#" == absent + "/" + MultiLevel;
    SelectBelow(m, absent);
    forall t | t in m ensures t != absent && !(absent + "/" <= t) {
      assert t[1] == 't' && (absent + "/")[1] == 'n';
    }
    assert Select(m, "/not/existing/#").Keys == {};
  }

  /**
   * The queries of `TestReferenceSetCache`, each asked twice: the exact topic
   * gives its one entry, "/this/is/#" gives both topics, "/not/existing/#"
   * gives nothing, and a repeated query gives the same answer as the first.
   */
  method TestReferenceSetCache(long64: string, short64: string, longPayload: Payload, shortPayload: Payload,
                               decode: string -> Option<Payload>)
    returns (exact: Messages, exactAgain: Messages, below: Messages, belowAgain: Messages,
             miss: Messages, missAgain: Messages)
    requires decode(long64) == Some(longPayload) && decode(short64) == Some(shortPayload)
    ensures exact == exactAgain == map[LongTopic := longPayload]
    ensures below == belowAgain == map[LongTopic := longPayload, ShortTopic := shortPayload]
    ensures miss == missAgain == map[]
  {
    LoadTestObject(long64, short64, longPayload, shortPayload, decode);
    var loaded := Load(TestObject(long64, short64), decode);
    var rs := new ReferenceSet(loaded.value);
    TestExactQuery(longPayload, shortPayload);
    TestBelowQuery(longPayload, shortPayload);
    TestMissQuery(longPayload, shortPayload);

    exact := rs.GetMessages(LongTopic);
    exactAgain := rs.GetMessages(LongTopic);
    below := rs.GetMessages("/this/is/#");
    belowAgain := rs.GetMessages("/this/is/#");
    miss := rs.GetMessages("/not/existing/#");
    missAgain := rs.GetMessages("/not/existing/#");
  }
}
