/**
 Topic filters (src/topic.rs; section 4.7 of MQTT 5.0): two validators, a parser and a printer, the
 topic matcher and the filter-inclusion matcher.
 */
module TopicFilter {
  import opened Prelude

  datatype Level = Normal(text: string) | System(text: string) | Blank | SingleWildcard | MultiWildcard

  datatype FilterError = InvalidTopic | InvalidLevel

  type Filter = seq<Level>

  // ---------------------------------------------------------------- strings and levels

  predicate Wild(s: string) { '+' in s || '#' in s }

  predicate IsSystem(s: string) { s != "" && s[0] == '$' }

  /** `str::split('/')`: never empty. */
  function Split(s: string): (ls: seq<string>)
    ensures ls != []
  {
    if s == "" then [""]
    else
      var rest := Split(s[1..]);
      if s[0] == '/' then [""] + rest else [[s[0]] + rest[0]] + rest[1..]
  }

  function Join(ls: seq<string>): string
    requires ls != []
  {
    if |ls| == 1 then ls[0] else ls[0] + "/" + Join(ls[1..])
  }

  lemma {:induction false} JoinSplit(s: string)
    ensures Join(Split(s)) == s
  {
    if s != "" {
      JoinSplit(s[1..]);
      var rest := Split(s[1..]);
      if s[0] == '/' {
        assert Split(s)[1..] == rest;
      } else {
        assert Split(s)[1..] == rest[1..];
        if |rest| == 1 {
          assert [s[0]] + rest[0] == s;
        } else {
          assert [s[0]] + rest[0] + "/" + Join(rest[1..]) == [s[0]] + (rest[0] + "/" + Join(rest[1..]));
        }
      }
    }
  }

  lemma {:induction false} SplitText(s: string, rest: string)
    requires '/' !in s
    ensures Split(s) == [s]
    ensures Split(s + "/" + rest) == [s] + Split(rest)
  {
    if s == "" {
      assert "" + "/" + rest == "/" + rest;
      assert ("/" + rest)[1..] == rest;
    } else {
      SplitText(s[1..], rest);
      assert (s + "/" + rest)[1..] == s[1..] + "/" + rest;
      assert [s[0]] + s[1..] == s;
    }
  }

  lemma {:induction false} SplitJoin(ls: seq<string>)
    requires ls != [] && forall i :: 0 <= i < |ls| ==> '/' !in ls[i]
    ensures Split(Join(ls)) == ls
  {
    if |ls| == 1 {
      SplitText(ls[0], "");
    } else {
      SplitText(ls[0], Join(ls[1..]));
      SplitJoin(ls[1..]);
    }
  }

  lemma {:induction false} SplitNoSlash(s: string)
    ensures forall i :: 0 <= i < |Split(s)| ==> '/' !in Split(s)[i]
  {
    if s != "" {
      SplitNoSlash(s[1..]);
    }
  }

  // ---------------------------------------------------------------- parsing

  function ParseLevel(idx: nat, level: string): Result<Level, FilterError>
  {
    if level == "+" then Ok(SingleWildcard)
    else if level == "#" then Ok(MultiWildcard)
    else if level == "" then Ok(Blank)
    else if Wild(level) then Err(InvalidLevel)
    else if idx == 0 && IsSystem(level) then Ok(System(level))
    else Ok(Normal(level))
  }

  /** `map(..).collect::<Result<Vec<_>, _>>()`: the first error wins. */
  function ParseLevels(idx: nat, ls: seq<string>): Result<Filter, FilterError>
    decreases |ls|
  {
    if ls == [] then Ok([])
    else
      var level :- ParseLevel(idx, ls[0]);
      var rest :- ParseLevels(idx + 1, ls[1..]);
      Ok([level] + rest)
  }

  predicate LevelValid(l: Level) { (l.Normal? || l.System?) ==> !Wild(l.text) }

  /** `TopicFilter::is_valid`: `#` only in last and system levels only in first position. */
  predicate Valid(f: Filter)
  {
    && (forall i :: 0 <= i < |f| ==> LevelValid(f[i]))
    && (forall i :: 0 <= i < |f| && f[i].MultiWildcard? ==> i == |f| - 1)
    && (forall i :: 0 <= i < |f| && f[i].System? ==> i == 0)
  }

  /** `TopicFilter::try_from(ByteString)`. */
  function Parse(s: string): Result<Filter, FilterError>
  {
    if s == "" then Err(InvalidTopic)
    else
      var f :- ParseLevels(0, Split(s));
      if Valid(f) then Ok(f) else Err(InvalidTopic)
  }

  function LevelText(l: Level): string
  {
    match l
    case Normal(s) => s
    case System(s) => s
    case Blank => ""
    case SingleWildcard => "+"
    case MultiWildcard => "#"
  }

  function Texts(f: Filter): seq<string> { seq(|f|, i requires 0 <= i < |f| => LevelText(f[i])) }

  /** What a filter parsed from a string looks like. */
  predicate LevelParsed(l: Level, idx: nat)
  {
    match l
    case Normal(s) => s != "" && !Wild(s) && '/' !in s && (idx == 0 ==> !IsSystem(s))
    case System(s) => idx == 0 && IsSystem(s) && !Wild(s) && '/' !in s
    case _ => true
  }

  predicate Parsed(f: Filter)
  {
    && f != [] && f != [Blank] && Valid(f)
    && forall i :: 0 <= i < |f| ==> LevelParsed(f[i], i)
  }

  lemma {:induction false} ParseLevelsTexts(idx: nat, ls: seq<string>)
    requires forall i :: 0 <= i < |ls| ==> '/' !in ls[i]
    ensures ParseLevels(idx, ls).Ok? ==>
      var f := ParseLevels(idx, ls).value;
      |f| == |ls| && Texts(f) == ls && forall i :: 0 <= i < |f| ==> LevelParsed(f[i], idx + i)
    decreases |ls|
  {
    if ls != [] && ParseLevels(idx, ls).Ok? {
      ParseLevelsTexts(idx + 1, ls[1..]);
      var f, g := ParseLevels(idx, ls).value, ParseLevels(idx + 1, ls[1..]).value;
      assert f == [f[0]] + g;
      assert forall i :: 1 <= i < |f| ==> f[i] == g[i - 1] && LevelParsed(g[i - 1], idx + 1 + (i - 1));
      assert Texts(f) == [LevelText(f[0])] + Texts(g);
    }
  }

  lemma {:induction false} ParseTexts(idx: nat, f: Filter)
    requires forall i :: 0 <= i < |f| ==> LevelParsed(f[i], idx + i)
    ensures ParseLevels(idx, Texts(f)) == Ok(f)
    decreases |f|
  {
    if f != [] {
      assert Texts(f)[1..] == Texts(f[1..]);
      assert forall i :: 0 <= i < |f[1..]| ==> LevelParsed(f[1..][i], (idx + 1) + i) by {
        assert forall i :: 0 <= i < |f[1..]| ==> f[1..][i] == f[i + 1] && LevelParsed(f[i + 1], idx + (i + 1));
      }
      ParseTexts(idx + 1, f[1..]);
      assert LevelParsed(f[0], idx + 0);
      assert ParseLevel(idx, Texts(f)[0]) == Ok(f[0]);
      assert [f[0]] + f[1..] == f;
    }
  }

  /** `Display`: the specification of `PrintFilter`. */
  function Print(f: Filter): string
    requires f != []
  {
    Join(Texts(f))
  }

  /** Printing a parsed filter gives back the original string. */
  lemma PrintParsed(s: string)
    requires Parse(s).Ok?
    ensures Parsed(Parse(s).value) && Print(Parse(s).value) == s
  {
    SplitNoSlash(s);
    ParseLevelsTexts(0, Split(s));
    JoinSplit(s);
    assert Texts([Blank]) == [""];
  }

  /** Parsing a printed filter gives back the filter; so strings and parsed filters correspond. */
  lemma ParsePrinted(f: Filter)
    requires Parsed(f)
    ensures Parse(Print(f)) == Ok(f)
  {
    assert forall i :: 0 <= i < |f| ==> LevelParsed(f[i], 0 + i);
    ParseTexts(0, f);
    assert forall i :: 0 <= i < |f| ==> '/' !in Texts(f)[i];
    SplitJoin(Texts(f));
    PrintNonEmpty(f);
  }

  lemma PrintNonEmpty(f: Filter)
    requires Parsed(f)
    ensures Print(f) != ""
  {
    if |f| == 1 {
      assert LevelParsed(f[0], 0);
    }
  }

  // ---------------------------------------------------------------- the one-pass validator

  datatype Prev = Start | LevelSep | Single | Multi | Other

  /** One transition; `None` is the `return false`. */
  function Next(c: char, prev: Prev): Option<Prev>
  {
    if prev.Multi? then None
    else if c == '+' then if prev.Start? || prev.LevelSep? then Some(Single) else None
    else if c == '#' then if prev.Start? || prev.LevelSep? then Some(Multi) else None
    else if c == '/' then Some(LevelSep)
    else if prev.Single? then None
    else Some(Other)
  }

  predicate Scan(prev: Prev, s: string)
    decreases |s|
  {
    s == "" || (Next(s[0], prev).Some? && Scan(Next(s[0], prev).value, s[1..]))
  }

  /** Every level is `+`, a trailing `#`, or free of wildcards. */
  predicate LevelsOk(ls: seq<string>)
  {
    ls == [] || (LevelsOk(ls[1..]) && (ls[0] == "+" || !Wild(ls[0]) || (ls[0] == "#" && |ls| == 1)))
  }

  lemma {:induction false} ScanSplit(prev: Prev, s: string)
    ensures var ls := Split(s);
      match prev
      case Start => Scan(prev, s) <==> LevelsOk(ls)
      case LevelSep => Scan(prev, s) <==> LevelsOk(ls)
      case Single => Scan(prev, s) <==> ls[0] == "" && LevelsOk(ls[1..])
      case Multi => Scan(prev, s) <==> s == ""
      case Other => Scan(prev, s) <==> !Wild(ls[0]) && LevelsOk(ls[1..])
    decreases |s|
  {
    if s == "" {
      assert LevelsOk([""]);
    } else if !prev.Multi? {
      var c, tail := s[0], s[1..];
      var rest := Split(tail);
      assert c == '/' ==> Split(s)[1..] == rest;
      assert c != '/' ==> Split(s)[1..] == rest[1..] && Split(s)[0] == [c] + rest[0];
      if Next(c, prev).Some? {
        ScanSplit(Next(c, prev).value, tail);
        if c == '#' {
          assert Split(s)[0][0] == '#' && Wild(Split(s)[0]);
          if tail != "" {
            assert Split(s)[0] == "#" ==> rest[0] == "" && |rest| > 1;
          }
        }
      }
    }
  }

  lemma {:induction false} ParseLevelsOk(idx: nat, ls: seq<string>)
    ensures LevelsOk(ls) <==>
      ParseLevels(idx, ls).Ok? && forall i :: 0 <= i < |ls| && ls[i] == "#" ==> i == |ls| - 1
    decreases |ls|
  {
    if ls != [] {
      ParseLevelsOk(idx + 1, ls[1..]);
      assert forall i :: 0 <= i < |ls[1..]| ==> ls[1..][i] == ls[i + 1];
      assert forall i :: 0 < i < |ls| ==> ls[i] == ls[1..][i - 1];
    }
  }

  /** The byte automaton and the splitting parser accept the same strings. */
  lemma ScanMeansParse(s: string)
    ensures s != "" && Scan(Start, s) <==> Parse(s).Ok?
  {
    ScanSplit(Start, s);
    ParseLevelsOk(0, Split(s));
    SplitNoSlash(s);
    ParseLevelsTexts(0, Split(s));
    if ParseLevels(0, Split(s)).Ok? {
      HashPlaces(ParseLevels(0, Split(s)).value);
    }
  }

  lemma HashPlaces(f: Filter)
    requires forall i :: 0 <= i < |f| ==> LevelParsed(f[i], 0 + i)
    ensures Valid(f) <==> forall i :: 0 <= i < |f| && Texts(f)[i] == "#" ==> i == |f| - 1
  {
    forall i | 0 <= i < |f| ensures f[i].MultiWildcard? <==> Texts(f)[i] == "#" {
      assert LevelParsed(f[i], 0 + i);
    }
    forall i | 0 <= i < |f| ensures LevelValid(f[i]) && (f[i].System? ==> i == 0) {
      assert LevelParsed(f[i], 0 + i);
    }
  }

  /** `is_valid(&str)`: the loop over bytes. */
  method IsValidTopic(topic: string) returns (ok: bool)
    ensures ok <==> Parse(topic).Ok?
  {
    ScanMeansParse(topic);
    if topic == "" { return false; }
    var prev := Start;
    for k := 0 to |topic|
      invariant Scan(Start, topic) == Scan(prev, topic[k..])
    {
      assert topic[k..][0] == topic[k] && topic[k..][1..] == topic[k + 1..];
      match Next(topic[k], prev) {
        case None => return false;
        case Some(p) => prev := p;
      }
    }
    return true;
  }

  /** `Display for TopicFilter`: the loop that writes `/` before every level but the first. */
  method PrintFilter(f: Filter) returns (s: string)
    requires f != []
    ensures s == Print(f)
  {
    s := LevelText(f[0]);
    for k := 1 to |f|
      invariant s == Join(Texts(f[..k]))
    {
      assert Texts(f[..k + 1]) == Texts(f[..k]) + [LevelText(f[k])];
      JoinSnoc(Texts(f[..k]), LevelText(f[k]));
      s := s + "/" + LevelText(f[k]);
    }
    assert f[..|f|] == f;
  }

  lemma {:induction false} JoinSnoc(ls: seq<string>, l: string)
    requires ls != []
    ensures Join(ls + [l]) == Join(ls) + "/" + l
  {
    if |ls| == 1 {
      assert (ls + [l])[1..] == [l];
    } else {
      assert (ls + [l])[1..] == ls[1..] + [l];
      JoinSnoc(ls[1..], l);
    }
  }
}
