/**
 * MQTT topic names and topic filters (section 4.7 of MQTT Version 3.1.1):
 * splitting into '/'-separated levels, and matching a filter with the
 * single-level wildcard '+' (section 4.7.1.3) and the trailing multi-level
 * wildcard '#' (section 4.7.1.2) against a topic name.
 */
module Topics {

  const SingleLevel: string := "+"
  const MultiLevel: string := "#"

  /** A filter with no wildcard character is a plain topic name, looked up as is. */
  predicate HasWildcard(filter: string) {
    '+' in filter || '#' in filter
  }

  /**
   * The levels of a topic, split at every '/', as Go's `strings.Split(s, "/")`:
   * there is always at least one level, no level holds a '/', and a leading,
   * trailing or doubled '/' yields an empty level.
   */
  function Split(s: string): (levels: seq<string>)
    ensures |levels| >= 1
    ensures forall i :: 0 <= i < |levels| ==> '/' !in levels[i]
    decreases |s|
  {
    if s == [] then [[]]
    else
      var rest := Split(s[1..]);
      if s[0] == '/' then [[]] + rest
      else [[s[0]] + rest[0]] + rest[1..]
  }

  /** The levels put back together with '/' between them. */
  function Join(levels: seq<string>): string
    requires |levels| >= 1
    decreases |levels|
  {
    if |levels| == 1 then levels[0] else levels[0] + "/" + Join(levels[1..])
  }

  ghost predicate NoSeparator(levels: seq<string>) {
    forall i :: 0 <= i < |levels| ==> '/' !in levels[i]
  }

  lemma {:induction false} JoinPrepend(x: string, levels: seq<string>)
    requires |levels| >= 1
    ensures Join([x + levels[0]] + levels[1..]) == x + Join(levels)
  {
    var ls := [x + levels[0]] + levels[1..];
    if |levels| > 1 {
      assert ls[1..] == levels[1..];
    }
  }

  /** Joining the levels of a topic gives the topic back. */
  lemma {:induction false} JoinSplit(s: string)
    ensures Join(Split(s)) == s
    decreases |s|
  {
    if s != [] {
      var rest := Split(s[1..]);
      JoinSplit(s[1..]);
      if s[0] == '/' {
        assert ([[]] + rest)[1..] == rest;
      } else {
        JoinPrepend([s[0]], rest);
      }
      assert s == [s[0]] + s[1..];
    }
  }

  /** Topics with the same levels are the same topic. */
  lemma SplitInjective(a: string, b: string)
    requires Split(a) == Split(b)
    ensures a == b
  {
    JoinSplit(a);
    JoinSplit(b);
  }

  /** A string without '/' is a single level. */
  lemma {:induction false} SplitNoSeparator(s: string)
    requires '/' !in s
    ensures Split(s) == [s]
    decreases |s|
  {
    if s != [] {
      assert '/' !in s[1..] by {
        forall k | 0 <= k < |s[1..]| ensures s[1..][k] != '/' {
          assert s[1..][k] == s[k + 1];
        }
      }
      SplitNoSeparator(s[1..]);
      assert s == [s[0]] + s[1..];
    }
  }

  /** Splitting at a '/' splits the levels there. */
  lemma {:induction false} SplitAppend(a: string, b: string)
    ensures Split(a + "/" + b) == Split(a) + Split(b)
    decreases |a|
  {
    var s := a + "/" + b;
    if a == [] {
      assert s == "/" + b;
      assert s[1..] == b;
    } else {
      assert s[1..] == a[1..] + "/" + b;
      SplitAppend(a[1..], b);
      var ra := Split(a[1..]);
      if a[0] != '/' {
        assert (ra + Split(b))[0] == ra[0];
        assert (ra + Split(b))[1..] == ra[1..] + Split(b);
      }
    }
  }

  /** Levels with a '/' between each pair join to a string that splits back into them. */
  lemma {:induction false} SplitJoin(levels: seq<string>)
    requires |levels| >= 1 && NoSeparator(levels)
    ensures Split(Join(levels)) == levels
    decreases |levels|
  {
    SplitNoSeparator(levels[0]);
    if |levels| > 1 {
      SplitJoin(levels[1..]);
      SplitAppend(levels[0], Join(levels[1..]));
      assert levels == [levels[0]] + levels[1..];
    }
  }

  /** Joining two runs of levels joins their strings with a '/'. */
  lemma {:induction false} JoinAppend(a: seq<string>, b: seq<string>)
    requires |a| >= 1 && |b| >= 1
    ensures Join(a + b) == Join(a) + "/" + Join(b)
    decreases |a|
  {
    if |a| == 1 {
      assert (a + b)[1..] == b;
    } else {
      assert (a + b)[1..] == a[1..] + b;
      JoinAppend(a[1..], b);
    }
  }

  /** Every character of a level occurs in the string it was split from. */
  lemma {:induction false} LevelCharsFromTopic(s: string, i: nat, c: char)
    requires i < |Split(s)| && c in Split(s)[i]
    ensures c in s
    decreases |s|
  {
    if s != [] {
      var rest := Split(s[1..]);
      if s[0] == '/' {
        if i > 0 {
          LevelCharsFromTopic(s[1..], i - 1, c);
        }
      } else if i == 0 {
        if c != s[0] {
          LevelCharsFromTopic(s[1..], 0, c);
        }
      } else {
        LevelCharsFromTopic(s[1..], i, c);
      }
    }
  }

  /**
   * The level-by-level matcher: '#' must be the last filter level and matches
   * whatever levels remain, none included; '+' matches exactly one level of
   * any content; any other filter level must equal the topic level.
   */
  predicate MatchLevels(filter: seq<string>, topic: seq<string>)
    decreases |filter|
  {
    if filter == [] then topic == []
    else if filter[0] == MultiLevel then |filter| == 1
    else topic != [] && (filter[0] == SingleLevel || filter[0] == topic[0]) && MatchLevels(filter[1..], topic[1..])
  }

  /** A topic filter matches a topic name. */
  predicate Matches(filter: string, topic: string) {
    MatchLevels(Split(filter), Split(topic))
  }

  /** One filter level admits one topic level. */
  ghost predicate LevelAdmits(f: string, t: string) {
    f == SingleLevel || f == t
  }

  /** The first `|f|` topic levels are admitted, one by one, by the levels of `f`. */
  ghost predicate LevelsAdmit(f: seq<string>, topic: seq<string>)
    requires |f| <= |topic|
  {
    forall i :: 0 <= i < |f| ==> LevelAdmits(f[i], topic[i])
  }

  /**
   * Matching stated directly from section 4.7.1 of MQTT 3.1.1: a filter whose
   * last level is '#' (and no other '#' level) matches every topic whose
   * leading levels its other levels admit, whatever the depth; a filter with no
   * '#' level matches the topics with as many levels, each admitted.
   */
  ghost predicate FilterAdmits(filter: seq<string>, topic: seq<string>) {
    if |filter| > 0 && filter[|filter| - 1] == MultiLevel then
      var p := filter[..|filter| - 1];
      MultiLevel !in p && |p| <= |topic| && LevelsAdmit(p, topic)
    else
      MultiLevel !in filter && |filter| == |topic| && LevelsAdmit(filter, topic)
  }

  /** The matcher agrees with the rules of section 4.7.1 on every filter and topic. */
  lemma {:induction false} MatchLevelsIff(filter: seq<string>, topic: seq<string>)
    ensures MatchLevels(filter, topic) <==> FilterAdmits(filter, topic)
    decreases |filter|
  {
    if filter == [] {
    } else if filter[0] == MultiLevel {
      if |filter| > 1 {
        assert filter[..|filter| - 1][0] == MultiLevel;
      }
    } else if topic == [] {
      if |filter| > 0 && filter[|filter| - 1] == MultiLevel {
        assert |filter[..|filter| - 1]| > 0;
      }
    } else {
      var f', t' := filter[1..], topic[1..];
      MatchLevelsIff(f', t');
      var trailing := filter[|filter| - 1] == MultiLevel;
      if trailing && |filter| > 1 {
        var p, p' := filter[..|filter| - 1], f'[..|f'| - 1];
        assert p == [filter[0]] + p';
        assert MultiLevel !in p <==> MultiLevel !in p';
        if |p| <= |topic| {
          assert LevelsAdmit(p, topic) <==> LevelAdmits(filter[0], topic[0]) && LevelsAdmit(p', t') by {
            forall i | 0 <= i < |p'| ensures p'[i] == p[i + 1] && t'[i] == topic[i + 1] { }
            if LevelAdmits(filter[0], topic[0]) && LevelsAdmit(p', t') {
              forall i | 0 <= i < |p| ensures LevelAdmits(p[i], topic[i]) {
                if i > 0 { assert p[i] == p'[i - 1]; }
              }
            }
          }
        }
      } else if !trailing {
        assert |f'| == 0 || f'[|f'| - 1] != MultiLevel;
        assert MultiLevel !in filter <==> MultiLevel !in f' by {
          assert filter == [filter[0]] + f';
        }
        if |filter| == |topic| {
          assert LevelsAdmit(filter, topic) <==> LevelAdmits(filter[0], topic[0]) && LevelsAdmit(f', t') by {
            if LevelAdmits(filter[0], topic[0]) && LevelsAdmit(f', t') {
              forall i | 0 <= i < |filter| ensures LevelAdmits(filter[i], topic[i]) {
                if i > 0 { assert filter[i] == f'[i - 1] && topic[i] == t'[i - 1]; }
              }
            }
            if LevelsAdmit(filter, topic) {
              forall i | 0 <= i < |f'| ensures LevelAdmits(f'[i], t'[i]) {
                assert f'[i] == filter[i + 1] && t'[i] == topic[i + 1];
              }
            }
          }
        }
      }
    }
  }

  /** No level is a wildcard. */
  ghost predicate Literal(levels: seq<string>) {
    forall i :: 0 <= i < |levels| ==> levels[i] != SingleLevel && levels[i] != MultiLevel
  }

  /** Without wildcard levels, matching is equality of levels. */
  lemma {:induction false} LiteralLevelsMatch(filter: seq<string>, topic: seq<string>)
    requires Literal(filter)
    ensures MatchLevels(filter, topic) <==> filter == topic
    decreases |filter|
  {
    if filter != [] && topic != [] {
      LiteralLevelsMatch(filter[1..], topic[1..]);
      assert filter == [filter[0]] + filter[1..];
      assert topic == [topic[0]] + topic[1..];
    }
  }

  /** A filter without wildcard characters has no wildcard level. */
  lemma WildcardFreeIsLiteral(filter: string)
    requires !HasWildcard(filter)
    ensures Literal(Split(filter))
  {
    var levels := Split(filter);
    forall i | 0 <= i < |levels| ensures levels[i] != SingleLevel && levels[i] != MultiLevel {
      if levels[i] == SingleLevel {
        LevelCharsFromTopic(filter, i, '+');
      } else if levels[i] == MultiLevel {
        LevelCharsFromTopic(filter, i, '#');
      }
    }
  }

  /**
   * A filter without wildcards matches exactly the topic spelled the same, so
   * resolving it by one exact-key lookup gives what the matcher gives.
   */
  lemma LiteralMatchIsEquality(filter: string, topic: string)
    requires !HasWildcard(filter)
    ensures Matches(filter, topic) <==> filter == topic
  {
    WildcardFreeIsLiteral(filter);
    LiteralLevelsMatch(Split(filter), Split(topic));
    if Split(filter) == Split(topic) {
      SplitInjective(filter, topic);
    }
  }

  /** The filter "#" matches every topic. */
  lemma MultiLevelMatchesAll(topic: string)
    ensures Matches(MultiLevel, topic)
  {
    SplitNoSeparator(MultiLevel);
  }

  /** The filter "+" matches exactly the topics of one level. */
  lemma SingleLevelMatchesOneLevel(topic: string)
    ensures Matches(SingleLevel, topic) <==> '/' !in topic
  {
    SplitNoSeparator(SingleLevel);
    var t := Split(topic);
    assert Matches(SingleLevel, topic) <==> |t| == 1 by {
      assert MatchLevels([SingleLevel], t) <==> t != [] && MatchLevels([], t[1..]);
    }
    if |t| == 1 {
      SplitNoSeparatorOnly(topic);
    } else if '/' !in topic {
      SplitNoSeparator(topic);
    }
  }

  /** A topic that splits into a single level holds no '/'. */
  lemma SplitNoSeparatorOnly(s: string)
    requires |Split(s)| == 1
    ensures '/' !in s
  {
    JoinSplit(s);
  }

  /** A trailing '#' level matches whatever follows the levels before it. */
  lemma {:induction false} TrailingMultiLevel(prefix: seq<string>, topic: seq<string>)
    requires MultiLevel !in prefix
    ensures MatchLevels(prefix + [MultiLevel], topic) <==> |prefix| <= |topic| && MatchLevels(prefix, topic[..|prefix|])
    decreases |prefix|
  {
    var f := prefix + [MultiLevel];
    if prefix == [] {
      assert f == [MultiLevel];
    } else {
      assert f[1..] == prefix[1..] + [MultiLevel];
      if topic != [] {
        assert prefix == [prefix[0]] + prefix[1..];
        TrailingMultiLevel(prefix[1..], topic[1..]);
        if |prefix| <= |topic| {
          assert topic[..|prefix|][1..] == topic[1..][..|prefix| - 1];
        }
      }
    }
  }

  /**
   * Section 4.7.1.2 on strings: "P/#", for a wildcard-free P, matches P itself
   * and every topic below P, whatever its depth, and nothing else.
   */
  lemma TrailingMultiLevelTopics(prefix: string, topic: string)
    requires !HasWildcard(prefix)
    ensures Matches(prefix + "/" + MultiLevel, topic) <==> topic == prefix || prefix + "/" <= topic
  {
    var p, t := Split(prefix), Split(topic);
    SplitAppend(prefix, MultiLevel);
    SplitNoSeparator(MultiLevel);
    WildcardFreeIsLiteral(prefix);
    assert MultiLevel !in p by {
      forall i | 0 <= i < |p| ensures p[i] != MultiLevel { }
    }
    TrailingMultiLevel(p, t);
    if |p| <= |t| {
      LiteralLevelsMatch(p, t[..|p|]);
    }
    if topic == prefix {
      assert t[..|p|] == p;
    } else if prefix + "/" <= topic {
      var rest := topic[|prefix| + 1..];
      assert topic == prefix + "/" + rest;
      SplitAppend(prefix, rest);
      assert t[..|p|] == p;
    }
    if |p| <= |t| && t[..|p|] == p && topic != prefix {
      if |t| == |p| {
        assert t == p;
        SplitInjective(topic, prefix);
      } else {
        var rest := t[|p|..];
        assert t == p + rest;
        JoinAppend(p, rest);
        JoinSplit(topic);
        JoinSplit(prefix);
        assert topic == prefix + "/" + Join(rest);
      }
    }
  }
}
