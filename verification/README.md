# MQ Hammer start-up validation and Reference Set, in Dafny

MQ Hammer is an MQTT load-testing tool: it starts a number of agents that
replay a scenario against a broker, and can compare what each agent receives
with a reference snapshot of retained topics. This project models two pieces
of it and proves their properties.

- **Start-up validation** (`startup.dfy`, module `Startup`): the `PreRunE`
  hook of the root command and the credentials step of `RunE`. The
  package-level configuration variables are the fields of class `Config`.
  `PreRun` rejects an empty broker address before it touches anything. It
  then appends the default MQTT port for the transport when the address has no
  `:` (":1883" for plain TCP, ":8883" for TLS). It caps the agent count at 4
  for an address naming `iot.eclipse.org`. Last, it rejects an empty scenario
  path, after both updates have been made. `SelectCredentials` chooses the
  fixed identity when no credentials file is given. Otherwise it chooses the
  loaded pool, and refuses a pool smaller than the agent count.
  `text.dfy` (module `Text`) models Go's `strings.Contains`, which both checks
  use.
- **Topic filters** (`topics.dfy`, module `Topics`): splitting topics into
  `/`-separated levels as Go's `strings.Split` does, and matching a filter
  against a topic by the rules of section 4.7.1 of MQTT Version 3.1.1.
  `+` (section 4.7.1.3) matches exactly one level. `#` (section 4.7.1.2) is
  the last level and matches the rest of the topic, the parent level included.
  The recursive matcher `MatchLevels` is proved equal to a direct statement of
  those rules (`FilterAdmits`).
- **Reference Set** (`reference.dfy`, module `Reference`): loading the
  snapshot, and `GetMessages` with its memo. `Select` is the specification: the
  sub-map of stored topics that the filter matches. `GetMessages` answers a
  filter it has seen before from the cache. A wildcard-free filter is one exact
  lookup, and a wildcard filter is one scan of all topics. Every answer is
  recorded in the cache. The class invariant says that every cached answer
  equals `Select`, so the cache never changes a result. A ghost log of scans
  shows that no filter is scanned twice. `TestReferenceSetCache` replays the
  queries of the repository's test, and its contract states the test's
  expected answers.

The implementation file of the Reference Set is not part of this model. Its
behaviour is taken from the test that exercises it (`ref_test.go`) and from
the MQTT rules above. The scan over every stored topic is modelled as a loop
over the key set.

`wrappers.dfy` holds the `Option`, `Result` and `Outcome` types.

Behaviour of the code worth knowing: the port check looks for a `:` anywhere
in the address. An IPv6 literal such as `[::1]` therefore gets no default
port. The Eclipse cap is a substring test on the whole normalised address.

## Model

| member | source | states |
|---|---|---|
| `Text.ContainsIff` | main.go:109 | `strings.Contains(s, sub)` holds exactly when `sub` occurs at some position of `s` |
| `Text.ContainsChar` | main.go:109 | searching for a one-character string finds it exactly when that character is in the string |
| `Startup.WithDefaultPort` | main.go:108-115 | the result keeps the address as a prefix and always contains `:`; an address with `:` is unchanged; one without it gains ":1883" when TLS is disabled and ":8883" otherwise |
| `Startup.WithDefaultPortIdempotent` | main.go:109-115 | normalising an already normalised address changes nothing, whatever the TLS flag |
| `Startup.WithDefaultPortKeepsHost` | main.go:109-118 | an address naming a host still names it after the port is appended, so the Eclipse test sees the host given |
| `Startup.ClampAgents` | main.go:117-120 | the count never rises; for an address containing `iot.eclipse.org` it is at most 4; it changes (to exactly 4) if and only if the address names that broker and the count exceeds 4 |
| `Startup.ClampAgentsIdempotent` | main.go:118-120 | applying the cap twice gives the same count as once |
| `Startup.Config.PreRun` | main.go:103-127 | empty broker: `EmptyBroker`, address and count unchanged; otherwise the address is normalised and the count capped, then an empty scenario path gives `EmptyScenario`; it passes exactly when both are non-empty |
| `Startup.Config.SelectCredentials` | main.go:160-173 | no credentials file: the fixed identity from prefix, username and password; a load error is fatal; a pool is accepted if and only if the agent count is at most its size, and is then used as is; a smaller pool gives `TooFewCredentials` with the agent count and the pool size |
| `Startup.CredentialFor` | main.go:62 | for the providers chosen at main.go:161-171: the fixed identity gives every agent the prefix plus its own suffix with the shared username and password; a pool gives the entry at the agent's ordinal when there is one |
| `Startup.StartUp` | main.go:103-173 | the credentials step runs only after the pre-run checks pass; their errors are returned as they are, and an empty broker address leaves the address and count unchanged; otherwise the address is normalised, the count capped, and the result is the credentials selected for the capped count |
| `Startup.EclipseCapMeetsPool` | main.go:118-170 | 10 agents on `iot.eclipse.org` with a pool of 4 credentials are accepted with that pool, because the cap lowers the count before the pool guard reads it |
| `Startup.EveryAgentHasCredential` | main.go:168-171 | once credentials are selected, every agent ordinal below the agent count has a credential |
| `Startup.PoolSizeBoundary` | main.go:168-170 | a pool exactly as large as the agent count is accepted; one entry fewer is rejected with the requested and available counts |
| `Topics.Split` | ref_test.go:36-40 | a topic splits into at least one level, and no level holds `/` |
| `Topics.JoinSplit` | ref_test.go:36-40 | joining a topic's levels with `/` gives the topic back |
| `Topics.SplitJoin` | ref_test.go:36-40 | levels without `/` join into a string that splits back into the same levels |
| `Topics.SplitAppend` | ref_test.go:36-40 | splitting `a/b` gives the levels of `a` followed by the levels of `b` |
| `Topics.SplitInjective` | ref_test.go:24-28 | two topics with the same levels are the same topic |
| `Topics.MatchLevelsIff` | ref_test.go:36-52 | the matcher holds exactly when the filter admits the topic under section 4.7.1: a trailing `#` after levels admitting the topic's leading levels, or, with no `#`, as many levels as the topic, each `+` or equal |
| `Topics.LiteralMatchIsEquality` | ref_test.go:24-28 | a filter without `+` or `#` matches a topic if and only if it is the same string |
| `Topics.MultiLevelMatchesAll` | ref_test.go:36-40 | the filter `#` matches every topic |
| `Topics.SingleLevelMatchesOneLevel` | ref_test.go:36-40 | the filter `+` matches a topic if and only if the topic has no `/`, that is one level |
| `Topics.TrailingMultiLevel` | ref_test.go:36-40 | a filter ending in `#` matches a topic if and only if its other levels match the topic's leading levels, whatever the topic's depth |
| `Topics.TrailingMultiLevelTopics` | ref_test.go:36-40 | for wildcard-free `P`, `P/#` matches `P` itself and every topic starting with `P/`, and nothing else |
| `Reference.Load` | ref_test.go:12-22 | loading succeeds if and only if every text decodes; the loaded map has the same topics and each payload is the decoded text |
| `Reference.LoadTestObject` | ref_test.go:12-22 | the test's two-entry object loads to the two decoded payloads under their topics |
| `Reference.ExactLookup` | ref_test.go:24-28 | for a wildcard-free filter, the single-key lookup equals the matcher's selection: the one stored entry under that name, or nothing |
| `Reference.SelectBelow` | ref_test.go:36-40 | the answer to `P/#` is exactly the stored topics equal to `P` or under `P/`, with their payloads |
| `Reference.Scan` | ref_test.go:36-52 | the scan over all stored topics returns exactly the selection of matching topics |
| `Reference.ReferenceSet.constructor` | ref_test.go:15-18 | a new set holds the loaded messages and an empty cache |
| `Reference.ReferenceSet.GetMessages` | ref_test.go:24-58 | the answer is the selection of matching topics, whether cached or not; the cache gains exactly this filter's answer; a scan is logged only for a wildcard filter not seen before; the invariant is kept |
| `Reference.AtMostOneScan` | ref_test.go:30-58 | in any reachable state, no filter has been scanned more than once |
| `Reference.TestExactQuery` | ref_test.go:24-28 | the exact query for the long topic gives one entry, that topic and its payload |
| `Reference.TestBelowQuery` | ref_test.go:36-40 | `/this/is/#` gives both stored topics, the short and the deep one |
| `Reference.TestMissQuery` | ref_test.go:48-52 | `/not/existing/#` gives an empty map |
| `Reference.TestReferenceSetCache` | ref_test.go:11-60 | each of the test's three queries, asked twice, gives the expected answer both times |

## Left out

- Flag and environment-variable binding (main.go:53-80), the command's help text and the version command (main.go:82-102, 216-222): library configuration and output only.
- Logging setup and redirecting the MQTT client's loggers (main.go:129-141): side effects only.
- File I/O: loading the scenario (main.go:143-148), opening the reference file (main.go:150-158), reading the credentials CSV (main.go:164-167) and opening the TLS key-log file (main.go:176-184). The model takes the values these produce. The credentials read arrives as a `Result` parameter of `SelectCredentials`.
- JSON parsing and base64 decoding of the snapshot: library calls. `Load` takes the parsed object and the decoder as a function parameter.
- The Prometheus exporter and the console metrics (main.go:186-196), the event funnel and the agent controller (main.go:198-212), and the profiling server (main.go:224-227): I/O and concurrency whose implementations are not part of this model.
- The ordering of the fatal steps of `RunE` before and after the credentials step (scenario load, reference load, key-log file): each is a file operation left out above.
- Locking around the Reference Set's cache: the model is sequential, and the cache is a plain map.
- Section 4.7.2 of MQTT 3.1.1 (topics starting with `$` are not matched by a leading wildcard) and the rejection of malformed filters: the rules the test exercises are those of section 4.7.1. A `#` that is not the last level makes `MatchLevels` match nothing. A `+` or `#` inside a longer level is compared as ordinary text.
- `Startup.CredentialFor`: the per-agent unique suffix (a UUID in the flag's description, main.go:62) is a parameter, since it comes from randomness. What happens to a pool ordinal beyond its size is given as `None`, because the pooled provider's code is not part of this model.
- `Reference.ReferenceSet.GetMessages`: answers are map values. In Go a map taken from the memo is the same object the memo holds, so a caller that edited it would change later cached answers; the model does not capture this sharing.
- Strings are sequences of characters, while Go's `strings.Contains` compares bytes. The two agree for the ASCII needles main.go uses (":" and "iot.eclipse.org"); `WithDefaultPortKeepsHost` and the `Text` lemmas are stated for character sequences only.
- Go's `int` is 64 bits wide. Agent counts are unbounded integers here; no arithmetic is done on them, so no wrap-around can arise.
