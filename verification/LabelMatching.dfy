/** Label matchers and the cardinality score they are sorted by. Scores are reals. */
module LabelMatching {
  datatype MatchType = Equal | NotEqual | RegexMatch | RegexNoMatch

  /** The compiled, anchored regular expression is an arbitrary predicate on values. */
  datatype Matcher = Matcher(typ: MatchType, name: string, value: string, re: string -> bool)

  const INSTANCE := "instance"
  const JOB := "job"
  const BUCKET := "le"
  const QUANTILE := "quantile"
  const METRIC_NAME := "__name__"

  predicate Match(m: Matcher, v: string) {
    match m.typ
    case Equal => m.value == v
    case NotEqual => m.value != v
    case RegexMatch => m.re(v)
    case RegexNoMatch => !m.re(v)
  }

  /** An equality matcher accepts its value and nothing else, an anchored expression what it
      matches, and the two negations exactly what these reject. */
  lemma MatchMeans(name: string, value: string, re: string -> bool, v: string)
    ensures Match(Matcher(Equal, name, value, re), v) <==> v == value
    ensures Match(Matcher(RegexMatch, name, value, re), v) <==> re(v)
    ensures Match(Matcher(NotEqual, name, value, re), v) != Match(Matcher(Equal, name, value, re), v)
    ensures Match(Matcher(RegexNoMatch, name, value, re), v) != Match(Matcher(RegexMatch, name, value, re), v)
  {
  }

  /** Between 0 for length 0 and 0.1 for arbitrarily long matchers. */
  function LengthCorrection(m: Matcher): real {
    0.1 * (1.0 - 1.0 / (|m.name| + |m.value| + 1) as real)
  }

  /** One more than the letters of name and value together. */
  function Size(m: Matcher): (n: real)
    ensures n >= 1.0 && n == |m.name| as real + |m.value| as real + 1.0
  {
    (|m.name| + |m.value| + 1) as real
  }

  lemma CorrectionBounds(m: Matcher)
    ensures 0.0 <= LengthCorrection(m) < 0.1
    ensures LengthCorrection(m) == 0.1 - 0.1 / Size(m)
  {
    var n := (|m.name| + |m.value| + 1) as real;
    assert n >= 1.0;
    assert 0.0 < 1.0 / n <= 1.0;
  }

  /** The classes of matchers, from the one expected to match least to the one that matches
      a missing label. */
  function Class(m: Matcher): nat {
    if Match(m, "") then 4
    else match m.typ
      case Equal => 0
      case RegexMatch => 1
      case RegexNoMatch => 2
      case NotEqual => 3
  }

  /** Four classes for the four types of those that do not match the empty string, in their order,
      and a last one for those that do. */
  lemma ClassMeans(m: Matcher)
    ensures Class(m) == 4 <==> Match(m, "")
    ensures !Match(m, "") ==>
              && (Class(m) == 0 <==> m.typ.Equal?) && (Class(m) == 1 <==> m.typ.RegexMatch?)
              && (Class(m) == 2 <==> m.typ.RegexNoMatch?) && (Class(m) == 3 <==> m.typ.NotEqual?)
  {
  }

  /** The range of scores of each class: above the first bound, up to the second. */
  predicate ScoreFits(rank: nat, score: real) {
    match rank
    case 0 => 0.0 < score <= 0.5
    case 1 => 0.5 < score <= 0.6
    case 2 => 0.8 <= score < 0.9
    case 3 => 0.9 <= score < 1.0
    case _ => score == 1.0
  }

  class LabelMatcher {
    const m: Matcher
    var score: real

    constructor (m: Matcher)
      ensures this.m == m && ScoreFits(Class(m), score)
    {
      this.m := m;
      score := 0.0;
      new;
      CalculateScore();
    }

    /** Every matcher gets a score of its own class, whatever its name, value and expression: 1
        exactly if it matches the empty string, at most 0.5 for any other equality matcher, and
        the other types above that in their order. The rest is a correction for the length, up to
        0.1, and the known special names. */
    method CalculateScore()
      modifies this`score
      ensures ScoreFits(Class(m), score)
      ensures score == 1.0 <==> Match(m, "")
      ensures 0.0 < score <= 1.0
      ensures !Match(m, "") && m.typ.Equal? ==> score <= 0.5
      ensures !Match(m, "") && m.typ.RegexMatch? ==> score == 0.5 + 0.1 / Size(m)
      ensures !Match(m, "") && m.typ.RegexNoMatch? ==> score == 0.9 - 0.1 / Size(m)
      ensures !Match(m, "") && m.typ.NotEqual? ==> score == 1.0 - 0.1 / Size(m)
      ensures !Match(m, "") && m.typ.Equal? ==>
                match m.name
                case "instance" => score == 0.0 + 0.1 / Size(m)
                case "job" => score == 0.3 + 0.1 / Size(m)
                case "le" => score == 0.4 + 0.1 / Size(m)
                case "quantile" => score == 0.4 + 0.1 / Size(m)
                case "__name__" =>
                  if ':' in m.value then score == 0.1 + 0.1 / Size(m)
                  else if m.value in ["up", "scrape_duration_seconds"] then score == 0.15 + 0.1 / Size(m)
                  else score == 0.2 + 0.1 / Size(m)
                case _ => score == 0.2 + 0.1 / Size(m)
    {
      if Match(m, "") {
        score := 1.0;
        return;
      }
      CorrectionBounds(m);
      var lengthCorrection := LengthCorrection(m);
      match m.typ {
        case Equal => score := 0.3 - lengthCorrection;
        case RegexMatch => score := 0.6 - lengthCorrection;
        case RegexNoMatch => score := 0.8 + lengthCorrection;
        case NotEqual => score := 0.9 + lengthCorrection;
      }
      if !m.typ.Equal? {
        return;
      }
      if m.name == INSTANCE {
        score := score - 0.2;
      } else if m.name == JOB {
        score := score + 0.1;
      } else if m.name == BUCKET || m.name == QUANTILE {
        score := score + 0.2;
      } else if m.name == METRIC_NAME {
        if ':' in m.value {
          score := score - 0.1;
          return;
        }
        if m.value == "up" || m.value == "scrape_duration_seconds" {
          score := score - 0.05;
          return;
        }
      }
    }

    /** The cached score says whether a missing label matches. */
    method MatchesEmptyString() returns (b: bool)
      requires ScoreFits(Class(m), score)
      ensures b <==> Match(m, "")
    {
      b := score >= 1.0;
    }
  }

  datatype Scored = Scored(m: Matcher, score: real)

  predicate Less(a: Scored, b: Scored) {
    a.score < b.score
  }

  /** What any sort with this Less leaves behind. */
  predicate LessSorted(s: seq<Scored>) {
    forall i, j :: 0 <= i < j < |s| ==> !Less(s[j], s[i])
  }

  predicate WellScored(s: seq<Scored>) {
    forall i :: 0 <= i < |s| ==> ScoreFits(Class(s[i].m), s[i].score)
  }

  lemma ClassSeparation(a: Scored, b: Scored)
    requires ScoreFits(Class(a.m), a.score) && ScoreFits(Class(b.m), b.score)
    ensures Class(a.m) < Class(b.m) ==> Less(a, b)
    ensures Less(a, b) ==> Class(a.m) <= Class(b.m)
  {
  }

  /** After sorting, matchers stand in the order of their classes: the ones that match the
      empty string are last, and before them equality matchers, then expressions, then negated
      expressions, then inequalities. */
  lemma SortedByClass(s: seq<Scored>, i: nat, j: nat)
    requires WellScored(s) && LessSorted(s) && i < j < |s|
    ensures Class(s[i].m) <= Class(s[j].m)
    ensures Match(s[i].m, "") ==> Match(s[j].m, "")
    ensures !Match(s[j].m, "") ==>
              && (s[j].m.typ.Equal? ==> s[i].m.typ.Equal?)
              && (s[j].m.typ.RegexMatch? ==> s[i].m.typ.Equal? || s[i].m.typ.RegexMatch?)
              && (s[j].m.typ.RegexNoMatch? ==> !s[i].m.typ.NotEqual?)
  {
    ClassSeparation(s[j], s[i]);
    assert !Less(s[j], s[i]);
  }
}
