/** Topic filters as text: which strings are filters, and which topics they match (section 4.7 of MQTT 5.0). */
module TopicText {
  import opened Prelude
  import opened TopicFilter
  import opened TopicMatch

  /** `#` only alone in the last level, `+` only alone in a level. */
  predicate WellFormed(levels: seq<string>)
  {
    forall i :: 0 <= i < |levels| ==>
      ('#' in levels[i] ==> levels[i] == "#" && i == |levels| - 1) && ('+' in levels[i] ==> levels[i] == "+")
  }

  lemma {:induction false} LevelsAreWellFormed(ls: seq<string>)
    ensures LevelsOk(ls) <==> WellFormed(ls)
  {
    if ls != [] {
      LevelsAreWellFormed(ls[1..]);
      var tail := ls[1..];
      assert forall i :: 0 <= i < |tail| ==> tail[i] == ls[i + 1];
      assert forall i :: 0 < i < |ls| ==> ls[i] == tail[i - 1];
    }
  }

  /** A string is a topic filter exactly when it is not empty and its levels are well-formed. */
  lemma FilterGrammar(s: string)
    ensures Parse(s).Ok? <==> s != "" && WellFormed(Split(s))
  {
    hide Parse, Scan, LevelsOk, WellFormed;
    ScanMeansParse(s);
    ScanSplit(Start, s);
    LevelsAreWellFormed(Split(s));
  }

  /**
   Level by level: `+` stands for any one level, a final `#` for the parent level and everything below, and
   neither for a first level that starts with `$`.
   */
  predicate TextMatches(filter: seq<string>, topic: seq<string>)
    requires filter != [] && topic != []
  {
    var open := filter[|filter| - 1] == "#";
    var stem := if open then |filter| - 1 else |filter|;
    && !((filter[0] == "+" || filter[0] == "#") && topic[0] != "" && topic[0][0] == '$')
    && (if open then stem <= |topic| else stem == |topic|)
    && forall i :: 0 <= i < stem ==> filter[i] == "+" || filter[i] == topic[i]
  }

  lemma LevelMeans(l: Level, i: nat, text: string)
    requires LevelParsed(l, i)
    ensures l.MultiWildcard? <==> LevelText(l) == "#"
    ensures l.SingleWildcard? <==> LevelText(l) == "+"
    ensures !l.MultiWildcard? ==> (Allows(l, text) <==> LevelText(l) == "+" || LevelText(l) == text)
  {
  }

  lemma TextsOf(s: string)
    requires Parse(s).Ok?
    ensures Texts(Parse(s).value) == Split(s)
  {
    hide Split, Texts;
    SplitNoSlash(s);
    ParseLevelsTexts(0, Split(s));
  }

  lemma TextAt(f: Filter, i: nat)
    requires i < |f|
    ensures |Texts(f)| == |f| && Texts(f)[i] == LevelText(f[i])
  {
  }

  lemma CoversAsText(f: Filter, t: seq<string>)
    requires Parsed(f) && t != []
    ensures Texts(f) != [] && (Covers(f, t) <==> TextMatches(Texts(f), t))
  {
    hide Texts, LevelText, Allows, LevelParsed, Valid;
    var ls := Texts(f);
    forall i | 0 <= i < |f|
      ensures |ls| == |f| && (f[i].MultiWildcard? <==> ls[i] == "#") && (f[i].SingleWildcard? <==> ls[i] == "+")
    {
      TextAt(f, i);
      LevelMeans(f[i], i, "");
    }
    assert |ls| == |f| by { TextAt(f, 0); }
    forall i | 0 <= i < Stem(f) && i < |t| ensures Allows(f[i], t[i]) <==> ls[i] == "+" || ls[i] == t[i] {
      TextAt(f, i);
      LevelMeans(f[i], i, t[i]);
      StemIsPlain(f, i);
    }
  }

  lemma StemIsPlain(f: Filter, i: nat)
    requires Parsed(f) && i < Stem(f)
    ensures !f[i].MultiWildcard?
  {
  }

  /** Whether a parsed filter matches a topic can be read off the two strings. */
  lemma MatchesAsText(s: string, topic: string)
    requires Parse(s).Ok?
    ensures MatchTopicFrom(Parse(s).value, Split(topic), 0) <==> TextMatches(Split(s), Split(topic))
  {
    hide Parse, MatchTopicFrom, Covers, TextMatches, Parsed, Split;
    PrintParsed(s);
    MatchTopicMeansCovers(Parse(s).value, topic);
    TextsOf(s);
    CoversAsText(Parse(s).value, Split(topic));
  }
}
