/**
 Matching topics and filters against filters (src/topic.rs). Both matchers are one loop over levels,
 `match_topic`. They are compared with index-wise definitions, and filter inclusion with the set of
 topics a filter stands for.
 */
module TopicMatch {
  import opened TopicFilter

  // ---------------------------------------------------------------- the code's matchers

  /** `MatchLevel for AsRef<str>`: does topic level `s` fit filter level `level`? */
  predicate TopicLevelFits(s: string, level: Level, index: nat)
  {
    match level
    case Normal(t) => t == s
    case System(t) => IsSystem(s) && t == s
    case Blank => s == ""
    case _ => !(index == 0 && IsSystem(s))
  }

  /** `match_level_impl`: is filter level `sub` included in filter level `sup`? */
  predicate FilterLevelFits(sub: Level, sup: Level)
  {
    match sup
    case Normal(t) => sub == Normal(t)
    case System(t) => sub == System(t)
    case Blank => sub == Blank
    case SingleWildcard => sub != MultiWildcard
    case MultiWildcard => true
  }

  /** `match_topic` from a given index on, over topic levels. */
  predicate MatchTopicFrom(sup: Filter, sub: seq<string>, index: nat)
    decreases |sub|
  {
    if sub == [] then sup == [] || sup[0].MultiWildcard?
    else if sup == [] then false
    else if sup[0].MultiWildcard? then TopicLevelFits(sub[0], MultiWildcard, index)
    else TopicLevelFits(sub[0], sup[0], index) && MatchTopicFrom(sup[1..], sub[1..], index + 1)
  }

  /** `match_topic` over filter levels. */
  predicate MatchFilterFrom(sup: Filter, sub: Filter)
    decreases |sub|
  {
    if sub == [] then sup == [] || sup[0].MultiWildcard?
    else if sup == [] then false
    else if sup[0].MultiWildcard? then true
    else FilterLevelFits(sub[0], sup[0]) && MatchFilterFrom(sup[1..], sub[1..])
  }

  /** `TopicFilter::matches_topic`. */
  method MatchesTopic(filter: Filter, topic: string) returns (ok: bool)
    ensures ok == MatchTopicFrom(filter, Split(topic), 0)
  {
    var subset := Split(topic);
    var i := 0;
    while i < |subset|
      invariant i <= |subset| && i <= |filter|
      invariant MatchTopicFrom(filter, subset, 0) == MatchTopicFrom(filter[i..], subset[i..], i)
    {
      if i == |filter| { return false; }
      match filter[i] {
        case MultiWildcard => return TopicLevelFits(subset[i], MultiWildcard, i);
        case level => if !TopicLevelFits(subset[i], level, i) { return false; }
      }
      assert filter[i..][1..] == filter[i + 1..] && subset[i..][1..] == subset[i + 1..];
      i := i + 1;
    }
    return i == |filter| || filter[i].MultiWildcard?;
  }

  /** `TopicFilter::matches_filter`. */
  method MatchesFilter(filter: Filter, subset: Filter) returns (ok: bool)
    ensures ok == MatchFilterFrom(filter, subset)
  {
    var i := 0;
    while i < |subset|
      invariant i <= |subset| && i <= |filter|
      invariant MatchFilterFrom(filter, subset) == MatchFilterFrom(filter[i..], subset[i..])
    {
      if i == |filter| { return false; }
      match filter[i] {
        case MultiWildcard => return FilterLevelFits(subset[i], MultiWildcard);
        case level => if !FilterLevelFits(subset[i], level) { return false; }
      }
      assert filter[i..][1..] == filter[i + 1..] && subset[i..][1..] == subset[i + 1..];
      i := i + 1;
    }
    return i == |filter| || filter[i].MultiWildcard?;
  }

  // ---------------------------------------------------------------- what the matchers decide

  /** Number of levels before a trailing `#`. */
  function Stem(f: Filter): nat
  {
    if f != [] && f[|f| - 1].MultiWildcard? then |f| - 1 else |f|
  }

  predicate Open(f: Filter) { Stem(f) < |f| }

  predicate Wildcard(l: Level) { l.SingleWildcard? || l.MultiWildcard? }

  /** A filter level allows a topic level: `+` anything, every other level its own text. */
  predicate Allows(l: Level, s: string) { l.SingleWildcard? || LevelText(l) == s }

  /**
   Section 4.7 of MQTT 5.0, index by index: `#` stands for the parent and any number of further
   levels, `+` for exactly one, and a filter starting with a wildcard does not match a topic
   starting with `$`.
   */
  predicate Covers(f: Filter, t: seq<string>)
  {
    && t != [] && f != []
    && !(Wildcard(f[0]) && t[0] != "" && t[0][0] == '$')
    && (if Open(f) then Stem(f) <= |t| else Stem(f) == |t|)
    && forall i :: 0 <= i < Stem(f) ==> Allows(f[i], t[i])
  }

  /** Index-wise inclusion: same level, or a level under `+`. */
  predicate Includes(a: Filter, b: Filter)
  {
    && (if Open(a) then Stem(a) <= |b| else Stem(a) == |b|)
    && forall i :: 0 <= i < Stem(a) ==> b[i] == a[i] || (a[i].SingleWildcard? && !b[i].MultiWildcard?)
  }

  lemma {:induction false} MatchTopicIs(f: Filter, t: seq<string>, index: nat)
    requires forall i :: 0 <= i < |f| && f[i].MultiWildcard? ==> i == |f| - 1
    requires forall i :: 0 <= i < |f| ==> LevelParsed(f[i], index + i)
    ensures MatchTopicFrom(f, t, index) <==>
      && !(index == 0 && t != [] && f != [] && Wildcard(f[0]) && IsSystem(t[0]))
      && (if Open(f) then Stem(f) <= |t| else Stem(f) == |t|)
      && forall i :: 0 <= i < Stem(f) ==> Allows(f[i], t[i])
    decreases |t|
  {
    if t != [] && f != [] && !f[0].MultiWildcard? {
      var f', t' := f[1..], t[1..];
      assert forall i :: 0 <= i < |f'| ==> f'[i] == f[i + 1] && LevelParsed(f[i + 1], index + (i + 1));
      MatchTopicIs(f', t', index + 1);
      assert Stem(f') == Stem(f) - 1;
      assert LevelParsed(f[0], index + 0);
      assert TopicLevelFits(t[0], f[0], index)
        <==> (Allows(f[0], t[0]) && !(index == 0 && Wildcard(f[0]) && IsSystem(t[0])));
      assert forall i :: 0 <= i < Stem(f') && i < |t'| ==> (Allows(f'[i], t'[i]) <==> Allows(f[i + 1], t[i + 1]));
      assert forall i :: 1 <= i < Stem(f) && i < |t| ==> (Allows(f[i], t[i]) <==> Allows(f'[i - 1], t'[i - 1]));
    }
  }

  /** The topic matcher decides section 4.7 for every parsed filter and every topic. */
  lemma MatchTopicMeansCovers(f: Filter, topic: string)
    requires Parsed(f)
    ensures MatchTopicFrom(f, Split(topic), 0) <==> Covers(f, Split(topic))
  {
    assert forall i :: 0 <= i < |f| ==> LevelParsed(f[i], 0 + i);
    MatchTopicIs(f, Split(topic), 0);
  }

  lemma {:induction false} MatchFilterIs(a: Filter, b: Filter)
    requires forall i :: 0 <= i < |a| && a[i].MultiWildcard? ==> i == |a| - 1
    ensures MatchFilterFrom(a, b) <==> Includes(a, b)
    decreases |b|
  {
    if b != [] && a != [] && !a[0].MultiWildcard? {
      var a', b' := a[1..], b[1..];
      assert forall i :: 0 <= i < |a'| ==> a'[i] == a[i + 1];
      MatchFilterIs(a', b');
      assert Stem(a') == Stem(a) - 1;
      assert forall i :: 0 <= i < Stem(a') && i < |b'| ==> a'[i] == a[i + 1] && b'[i] == b[i + 1];
      assert forall i :: 1 <= i < Stem(a) && i < |b| ==> a[i] == a'[i - 1] && b[i] == b'[i - 1];
    }
  }

  // ---------------------------------------------------------------- inclusion is a preorder

  lemma MatchesFilterReflexive(a: Filter)
    requires Valid(a)
    ensures MatchFilterFrom(a, a)
  {
    MatchFilterIs(a, a);
  }

  lemma MatchesFilterTransitive(a: Filter, b: Filter, c: Filter)
    requires Valid(a) && Valid(b) && Valid(c)
    requires MatchFilterFrom(a, b) && MatchFilterFrom(b, c)
    ensures MatchFilterFrom(a, c)
  {
    MatchFilterIs(a, b);
    MatchFilterIs(b, c);
    MatchFilterIs(a, c);
    IncludesStem(a, b);
  }

  /** An included filter has its `#`, if any, behind the stem of the including one. */
  lemma IncludesStem(a: Filter, b: Filter)
    requires Valid(a) && Valid(b) && Includes(a, b)
    ensures Stem(a) <= Stem(b) && (!Open(a) ==> !Open(b) && Stem(a) == Stem(b))
  {
  }

  // ---------------------------------------------------------------- inclusion and topics

  /** Every topic that `b` matches is matched by `a`. */
  ghost predicate Superset(a: Filter, b: Filter)
  {
    forall topic: string :: MatchTopicFrom(b, Split(topic), 0) ==> MatchTopicFrom(a, Split(topic), 0)
  }

  /** `a` starts with a wildcard and `b` with a `$` level: the case the inclusion matcher forgets. */
  predicate SystemClash(a: Filter, b: Filter)
  {
    a != [] && b != [] && Wildcard(a[0]) && b[0].System?
  }

  lemma IncludesIsSound(a: Filter, b: Filter, t: seq<string>)
    requires Parsed(a) && Parsed(b) && Includes(a, b) && !SystemClash(a, b) && Covers(b, t)
    ensures Covers(a, t)
  {
    IncludesStem(a, b);
    assert LevelParsed(b[0], 0);
    forall i | 0 <= i < Stem(a) ensures Allows(a[i], t[i]) {
      assert Allows(b[i], t[i]);
    }
    if Wildcard(a[0]) && IsSystem(t[0]) && !Wildcard(b[0]) {
      assert Allows(b[0], t[0]);
    }
  }

  /** A level text longer than every text in the filter: no level but `+` and `#` allows it. */
  function Longest(f: Filter): nat
  {
    if f == [] then 1
    else
      var rest := Longest(f[1..]);
      if |LevelText(f[0])| > rest then |LevelText(f[0])| else rest
  }

  lemma {:induction false} LongestBounds(f: Filter, i: nat)
    requires i < |f|
    ensures |LevelText(f[i])| <= Longest(f)
  {
    if i > 0 {
      LongestBounds(f[1..], i - 1);
    }
  }

  function Fresh(f: Filter): string { seq(Longest(f) + 1, _ => 'x') }

  lemma FreshIsFresh(f: Filter)
    ensures Fresh(f) != "" && !IsSystem(Fresh(f)) && '/' !in Fresh(f)
    ensures forall i :: 0 <= i < |f| ==> LevelText(f[i]) != Fresh(f)
  {
    forall i | 0 <= i < |f| ensures LevelText(f[i]) != Fresh(f) {
      LongestBounds(f, i);
    }
  }

  /** A topic that `b` matches, with `x` in place of every `+` and `k` more levels for a `#`. */
  function Instance(b: Filter, x: string, k: nat): seq<string>
  {
    seq(Stem(b) + k, i requires 0 <= i < Stem(b) + k =>
      if i >= Stem(b) || b[i].SingleWildcard? then x else LevelText(b[i]))
  }

  lemma InstanceCovered(b: Filter, x: string, k: nat)
    requires Parsed(b) && '/' !in x && !IsSystem(x)
    requires Open(b) || k == 0
    requires Stem(b) + k > 0
    ensures Covers(b, Instance(b, x, k)) && Split(Join(Instance(b, x, k))) == Instance(b, x, k)
  {
    var t := Instance(b, x, k);
    forall i | 0 <= i < |t| ensures '/' !in t[i] {
      if i < Stem(b) { assert LevelParsed(b[i], i); }
    }
    SplitJoin(t);
  }

  /** If `a` covers the instances of `b` with fresh levels, every level of `a`'s stem includes its partner. */
  lemma LevelsForced(a: Filter, b: Filter, k: nat)
    requires Parsed(a) && Parsed(b) && Covers(a, Instance(b, Fresh(a), k))
    ensures forall i :: 0 <= i < Stem(a) && i < Stem(b) ==>
      b[i] == a[i] || (a[i].SingleWildcard? && !b[i].MultiWildcard?)
    ensures forall i :: Stem(b) <= i < Stem(a) ==> a[i].SingleWildcard?
  {
    var t := Instance(b, Fresh(a), k);
    FreshIsFresh(a);
    forall i | 0 <= i < Stem(a) && i < Stem(b)
      ensures b[i] == a[i] || (a[i].SingleWildcard? && !b[i].MultiWildcard?)
    {
      assert Allows(a[i], t[i]) && LevelParsed(a[i], i) && LevelParsed(b[i], i);
      assert !b[i].MultiWildcard?;
    }
    forall i | Stem(b) <= i < Stem(a) ensures a[i].SingleWildcard? {
      assert Allows(a[i], t[i]) && LevelText(a[i]) != Fresh(a);
    }
  }

  lemma SupersetCovers(a: Filter, b: Filter, x: string, k: nat)
    requires Parsed(a) && Parsed(b) && Superset(a, b)
    requires '/' !in x && !IsSystem(x) && (Open(b) || k == 0) && Stem(b) + k > 0
    ensures Covers(a, Instance(b, x, k))
  {
    var topic := Join(Instance(b, x, k));
    InstanceCovered(b, x, k);
    MatchTopicMeansCovers(b, topic);
    MatchTopicMeansCovers(a, topic);
  }

  /** `+/#` and `#` match the same topics, since a topic has at least one level. */
  predicate SameTopics(a: Filter, b: Filter)
  {
    a == [SingleWildcard, MultiWildcard] && b == [MultiWildcard]
  }

  lemma IncludesIsComplete(a: Filter, b: Filter)
    requires Parsed(a) && Parsed(b) && Superset(a, b)
    ensures Includes(a, b) || SameTopics(a, b)
  {
    var x := Fresh(a);
    FreshIsFresh(a);
    if !Open(b) {
      SupersetCovers(a, b, x, 0);
      LevelsForced(a, b, 0);
    } else {
      SupersetCovers(a, b, x, |a| + 1);
      var k := if Stem(b) == 0 then 1 else 0;
      SupersetCovers(a, b, x, k);
      LevelsForced(a, b, k);
    }
  }

  lemma NoSystemClash(a: Filter, b: Filter)
    requires Parsed(a) && Parsed(b) && Superset(a, b)
    ensures !SystemClash(a, b)
  {
    if b[0].System? {
      SupersetCovers(a, b, "x", 0);
      assert LevelParsed(b[0], 0) && Instance(b, "x", 0)[0] == LevelText(b[0]);
    }
  }

  /**
   The documented intent of `matches_filter` (CHANGES.md:249-250) and exactly how far the code meets
   it: for parsed filters, `a` matches every topic of `b` if and only if the code says so and `a`
   does not start with a wildcard where `b` starts with a system level; the only inclusion the code
   misses is `+/#` over `#`.
   */
  lemma MatchesFilterExactly(a: Filter, b: Filter)
    requires Parsed(a) && Parsed(b)
    ensures Superset(a, b) <==> (MatchFilterFrom(a, b) && !SystemClash(a, b)) || SameTopics(a, b)
  {
    MatchFilterIs(a, b);
    if Superset(a, b) {
      IncludesIsComplete(a, b);
      NoSystemClash(a, b);
    }
    if (Includes(a, b) && !SystemClash(a, b)) || SameTopics(a, b) {
      forall topic: string | MatchTopicFrom(b, Split(topic), 0) ensures MatchTopicFrom(a, Split(topic), 0) {
        MatchTopicMeansCovers(b, topic);
        MatchTopicMeansCovers(a, topic);
        if !SameTopics(a, b) {
          IncludesIsSound(a, b, Split(topic));
        }
      }
    }
  }

  /** `#` is said to include `$SYS`, yet does not match the topic `$SYS`. */
  lemma HashClaimsSystemTopics()
    ensures var hash, sys := [MultiWildcard], [System("$SYS")];
      && Parsed(hash) && Parsed(sys) && Print(hash) == "#" && Print(sys) == "$SYS"
      && MatchFilterFrom(hash, sys)
      && MatchTopicFrom(sys, Split("$SYS"), 0) && !MatchTopicFrom(hash, Split("$SYS"), 0)
  {
    SplitText("$SYS", "");
    assert Texts([MultiWildcard]) == ["#"] && Texts([System("$SYS")]) == ["$SYS"];
  }
}
