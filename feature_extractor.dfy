/**
 * `FeatureExtractor.extract_features`: for each feature type in table order,
 * for each of its patterns in order, for each match of the pattern in the
 * text, one feature record. Resolutions join their two numbers with "x" and
 * get the unit "pixels"; other features take the first group as value and
 * the second group, if the pattern has one, as unit, normalised through a
 * fixed table.
 *
 * The regular-expression engine is abstract: a function from a pattern to
 * the matches it has in the text (case-insensitively, in text order), each
 * match carrying as many groups as its pattern has.
 */
module Features {
  import opened Wrappers

  /** `ProductFeature`; the confidence stays at its default 1.0. */
  datatype Feature = Feature(name: string, value: string, unit: Option<string>, confidence: real)

  /** A pattern and the number of groups it captures. */
  datatype Pattern = Pattern(regex: string, groups: nat)

  /** A feature type and its patterns, in order. */
  datatype FeatureType = FeatureType(name: string, patterns: seq<Pattern>)

  /** One match: the texts its groups captured. */
  datatype Match = Match(groups: seq<string>)

  /** `self.patterns`, in the order the dictionary is written. */
  const PatternTable: seq<FeatureType> := [
    FeatureType("memory", [
      Pattern(@"(\d+)\s*(ГБ|GB)", 2),
      Pattern(@"(\d+)\s*(ТБ|TB)", 2),
      Pattern(@"(\d+)\s*(МБ|MB)", 2)]),
    FeatureType("screen_size", [
      Pattern(@"(\d+[.,]\d+)\s*(дюйм|inch|\"")", 2),
      Pattern(@"(\d+[.,]\d+)\s*\""", 1)]),
    FeatureType("resolution", [
      Pattern(@"(\d+)\s*x\s*(\d+)", 2),
      Pattern(@"(\d+)\s*на\s*(\d+)", 2)]),
    FeatureType("camera", [
      Pattern(@"(\d+)\s*(Мп|MP)", 2),
      Pattern(@"(\d+)\s*мегапиксел", 1)]),
    FeatureType("battery", [
      Pattern(@"(\d+)\s*(мАч|mAh)", 2)]),
    FeatureType("color", [
      Pattern(@"цвет\s*:\s*([а-яА-Я]+)", 1),
      Pattern(@"колір\s*:\s*([а-яА-Яії]+)", 1),
      Pattern(@"color\s*:\s*([a-zA-Z]+)", 1)])
  ]

  /** The names of the feature types. */
  const FeatureNames: seq<string> := ["memory", "screen_size", "resolution", "camera", "battery", "color"]

  /** `self.unit_normalizers`. */
  const UnitNormalizers: map<string, string> :=
    map["ГБ" := "GB", "МБ" := "MB", "ТБ" := "TB", "Мп" := "MP", "мАч" := "mAh", "дюйм" := "inch"]

  /** A unit that is a key of the table is replaced; any other unit, and no unit, stays. */
  function Normalize(unit: Option<string>): Option<string> {
    if unit.Some? && unit.value in UnitNormalizers then Some(UnitNormalizers[unit.value]) else unit
  }

  /** The Cyrillic units are replaced; units captured in any other spelling stay as captured. */
  lemma NormalizeExamples()
    ensures Normalize(Some("ГБ")) == Some("GB") && Normalize(Some("мАч")) == Some("mAh")
    ensures Normalize(Some("дюйм")) == Some("inch")
    ensures Normalize(Some("GB")) == Some("GB") && Normalize(Some("gb")) == Some("gb")
    ensures Normalize(Some("гб")) == Some("гб")
    ensures Normalize(None) == None
  {
    assert "GB" !in UnitNormalizers by {
      assert forall k :: k in UnitNormalizers ==> k[0] != 'G';
    }
    assert "gb" !in UnitNormalizers by {
      assert forall k :: k in UnitNormalizers ==> k[0] != 'g';
    }
    assert "гб" !in UnitNormalizers by {
      assert forall k :: k in UnitNormalizers ==> k[0] != 'г';
    }
  }

  /** "pixels" is not a key of the table, so resolutions keep it. */
  lemma PixelsNotNormalized()
    ensures Normalize(Some("pixels")) == Some("pixels")
  {
    assert "pixels" !in UnitNormalizers by {
      assert forall k :: k in UnitNormalizers ==> k[0] != 'p';
    }
  }

  /** A match has the groups a feature of that type reads. */
  predicate Fits(name: string, m: Match) {
    |m.groups| >= 1 && (name == "resolution" ==> |m.groups| >= 2)
  }

  /** The feature one match gives. */
  function MakeFeature(name: string, m: Match): (f: Feature)
    requires Fits(name, m)
    ensures f.name == name
    ensures name == "resolution" ==> f.value == m.groups[0] + "x" + m.groups[1] && f.unit == Some("pixels")
    ensures name != "resolution" ==> f.value == m.groups[0]
    ensures name != "resolution" && |m.groups| == 1 ==> f.unit == None
    ensures name != "resolution" && |m.groups| > 1 ==> f.unit == Normalize(Some(m.groups[1]))
  {
    PixelsNotNormalized();
    var value := if name == "resolution" then m.groups[0] + "x" + m.groups[1] else m.groups[0];
    var unit := if name == "resolution" then Some("pixels")
                else if |m.groups| > 1 then Some(m.groups[1]) else None;
    Feature(name, value, Normalize(unit), 1.0)
  }

  /** Every match the engine gives has as many groups as its pattern. */
  predicate Grouped(finditer: string -> seq<Match>) {
    forall k, j, m ::
      0 <= k < |PatternTable| && 0 <= j < |PatternTable[k].patterns| && m in finditer(PatternTable[k].patterns[j].regex)
      ==> |m.groups| == PatternTable[k].patterns[j].groups
  }

  /** Every pattern captures at least one group, and the resolution patterns two. */
  lemma TableShape()
    ensures |PatternTable| == 6
    ensures forall k :: 0 <= k < 6 ==> PatternTable[k].name == FeatureNames[k]
    ensures forall k, j :: 0 <= k < |PatternTable| && 0 <= j < |PatternTable[k].patterns| ==>
              PatternTable[k].patterns[j].groups >= 1
              && (PatternTable[k].name == "resolution" ==> PatternTable[k].patterns[j].groups == 2)
  {
    assert "resolution"[0] == 'r';
    assert forall k :: 0 <= k < 6 && k != 2 ==> PatternTable[k].name[0] != 'r';
  }

  /**
   * The feature of a match, read by `MakeFeature`. A match without the groups
   * its type reads does not occur under `Grouped`; it gets an empty feature.
   */
  function FeatureOf(name: string, m: Match): Feature {
    if Fits(name, m) then MakeFeature(name, m) else Feature(name, "", None, 1.0)
  }

  /** The features of a list of matches, one each, in order. */
  function MatchFeatures(name: string, matches: seq<Match>): (fs: seq<Feature>)
    ensures |fs| == |matches|
    decreases |matches|
  {
    if matches == [] then []
    else MatchFeatures(name, matches[..|matches| - 1]) + [FeatureOf(name, matches[|matches| - 1])]
  }

  /** The matches of one pattern can be read by the pattern's type. */
  lemma MatchesFit(finditer: string -> seq<Match>, k: nat, j: nat)
    requires Grouped(finditer)
    requires k < |PatternTable| && j < |PatternTable[k].patterns|
    ensures forall m :: m in finditer(PatternTable[k].patterns[j].regex) ==> Fits(PatternTable[k].name, m)
  {
    TableShape();
  }

  /** The features of the first `j` patterns of the type at index `k`. */
  function PatternFeatures(table: seq<FeatureType>, finditer: string -> seq<Match>, k: nat, j: nat): seq<Feature>
    requires k < |table| && j <= |table[k].patterns|
    decreases j
  {
    if j == 0 then []
    else PatternFeatures(table, finditer, k, j - 1) + MatchFeatures(table[k].name, finditer(table[k].patterns[j - 1].regex))
  }

  /** The features of the first `k` types. */
  function TypeFeatures(table: seq<FeatureType>, finditer: string -> seq<Match>, k: nat): seq<Feature>
    requires k <= |table|
    decreases k
  {
    if k == 0 then []
    else TypeFeatures(table, finditer, k - 1) + PatternFeatures(table, finditer, k - 1, |table[k - 1].patterns|)
  }

  /** What `extract_features` returns: type order, then pattern order, then match order. */
  function AllFeatures(finditer: string -> seq<Match>): seq<Feature>
    requires Grouped(finditer)
  {
    TypeFeatures(PatternTable, finditer, |PatternTable|)
  }

  /** `f` is the feature of a match of pattern `j` of the type at index `k`. */
  predicate FromMatch(table: seq<FeatureType>, finditer: string -> seq<Match>, f: Feature, k: nat, j: nat)
    requires k < |table| && j < |table[k].patterns|
  {
    exists m :: m in finditer(table[k].patterns[j].regex) && f == FeatureOf(table[k].name, m)
  }

  lemma {:induction false} MatchFeaturesMeaning(name: string, matches: seq<Match>)
    ensures forall f :: f in MatchFeatures(name, matches) <==> exists m :: m in matches && f == FeatureOf(name, m)
    decreases |matches|
  {
    if matches != [] {
      var init := matches[..|matches| - 1];
      assert forall m :: m in init ==> m in matches;
      MatchFeaturesMeaning(name, init);
      assert forall m :: m in matches ==> m in init || m == matches[|matches| - 1];
    }
  }

  /** The features of one pattern's matches are exactly the features from a match of that pattern. */
  lemma PatternMatchesMeaning(table: seq<FeatureType>, finditer: string -> seq<Match>, k: nat, j: nat)
    requires k < |table| && j < |table[k].patterns|
    ensures forall f ::
              f in MatchFeatures(table[k].name, finditer(table[k].patterns[j].regex)) <==>
              FromMatch(table, finditer, f, k, j)
  {
    MatchFeaturesMeaning(table[k].name, finditer(table[k].patterns[j].regex));
  }

  lemma {:induction false} PatternFeaturesMeaning(table: seq<FeatureType>, finditer: string -> seq<Match>, k: nat, j: nat)
    requires k < |table| && j <= |table[k].patterns|
    ensures forall f :: f in PatternFeatures(table, finditer, k, j) <==> exists p :: 0 <= p < j && FromMatch(table, finditer, f, k, p)
    decreases j
  {
    if j > 0 {
      PatternFeaturesMeaning(table, finditer, k, j - 1);
      PatternMatchesMeaning(table, finditer, k, j - 1);
      var prev := PatternFeatures(table, finditer, k, j - 1);
      var more := MatchFeatures(table[k].name, finditer(table[k].patterns[j - 1].regex));
      assert PatternFeatures(table, finditer, k, j) == prev + more;
      forall f ensures f in prev + more <==> exists p :: 0 <= p < j && FromMatch(table, finditer, f, k, p) {
        if f in more {
          assert FromMatch(table, finditer, f, k, j - 1);
        }
        if exists p :: 0 <= p < j && FromMatch(table, finditer, f, k, p) {
          var p :| 0 <= p < j && FromMatch(table, finditer, f, k, p);
          if p < j - 1 {
            assert f in prev;
          } else {
            assert f in more;
          }
        }
      }
    }
  }

  lemma {:induction false} TypeFeaturesMeaning(table: seq<FeatureType>, finditer: string -> seq<Match>, k: nat)
    requires k <= |table|
    ensures forall f :: f in TypeFeatures(table, finditer, k) <==>
              exists t, p :: 0 <= t < k && 0 <= p < |table[t].patterns| && FromMatch(table, finditer, f, t, p)
    decreases k
  {
    if k > 0 {
      TypeFeaturesMeaning(table, finditer, k - 1);
      var n := |table[k - 1].patterns|;
      PatternFeaturesMeaning(table, finditer, k - 1, n);
      var prev := TypeFeatures(table, finditer, k - 1);
      var more := PatternFeatures(table, finditer, k - 1, n);
      assert TypeFeatures(table, finditer, k) == prev + more;
      forall f ensures f in prev + more <==>
                 exists t, p :: 0 <= t < k && 0 <= p < |table[t].patterns| && FromMatch(table, finditer, f, t, p)
      {
        if f in more {
          var p :| 0 <= p < n && FromMatch(table, finditer, f, k - 1, p);
        }
        if exists t, p :: 0 <= t < k && 0 <= p < |table[t].patterns| && FromMatch(table, finditer, f, t, p) {
          var t, p :| 0 <= t < k && 0 <= p < |table[t].patterns| && FromMatch(table, finditer, f, t, p);
          if t < k - 1 {
            assert f in prev;
          } else {
            assert f in more;
          }
        }
      }
    }
  }

  /** Every feature comes from a match of some pattern, and every match gives its feature. */
  lemma FeaturesMeaning(finditer: string -> seq<Match>)
    requires Grouped(finditer)
    ensures forall f :: f in AllFeatures(finditer) <==>
              exists t, p :: 0 <= t < |PatternTable| && 0 <= p < |PatternTable[t].patterns|
                && FromMatch(PatternTable, finditer, f, t, p)
  {
    TypeFeaturesMeaning(PatternTable, finditer, |PatternTable|);
  }

  /** The result is empty exactly when no pattern matches. */
  lemma NoMatchNoFeature(finditer: string -> seq<Match>)
    requires Grouped(finditer)
    ensures AllFeatures(finditer) == [] <==>
              forall t, p :: 0 <= t < |PatternTable| && 0 <= p < |PatternTable[t].patterns| ==>
                finditer(PatternTable[t].patterns[p].regex) == []
  {
    FeaturesMeaning(finditer);
    var fs := AllFeatures(finditer);
    if fs != [] {
      assert fs[0] in fs;
    }
    if exists t, p :: 0 <= t < |PatternTable| && 0 <= p < |PatternTable[t].patterns| &&
         finditer(PatternTable[t].patterns[p].regex) != [] {
      var t, p :| 0 <= t < |PatternTable| && 0 <= p < |PatternTable[t].patterns| &&
                  finditer(PatternTable[t].patterns[p].regex) != [];
      var m := finditer(PatternTable[t].patterns[p].regex)[0];
      assert FromMatch(PatternTable, finditer, FeatureOf(PatternTable[t].name, m), t, p);
      assert FeatureOf(PatternTable[t].name, m) in fs;
    }
  }

  /**
   * Every feature is named after one of the six types; a resolution has unit
   * "pixels" and the value "<first>x<second>" of a match of a resolution
   * pattern.
   */
  lemma FeatureShapes(finditer: string -> seq<Match>)
    requires Grouped(finditer)
    ensures forall f :: f in AllFeatures(finditer) ==> f.name in FeatureNames
    ensures forall f :: f in AllFeatures(finditer) && f.name == "resolution" ==>
              f.unit == Some("pixels")
              && exists p, m :: 0 <= p < |PatternTable[2].patterns| && m in finditer(PatternTable[2].patterns[p].regex)
                   && |m.groups| == 2 && f.value == m.groups[0] + "x" + m.groups[1]
  {
    FeaturesMeaning(finditer);
    forall f | f in AllFeatures(finditer)
      ensures f.name in FeatureNames
      ensures f.name == "resolution" ==>
                f.unit == Some("pixels")
                && exists p, m :: 0 <= p < |PatternTable[2].patterns| && m in finditer(PatternTable[2].patterns[p].regex)
                     && |m.groups| == 2 && f.value == m.groups[0] + "x" + m.groups[1]
    {
      var t, p :| 0 <= t < |PatternTable| && 0 <= p < |PatternTable[t].patterns| && FromMatch(PatternTable, finditer, f, t, p);
      FeatureShape(finditer, f, t, p);
    }
  }

  lemma FeatureShape(finditer: string -> seq<Match>, f: Feature, t: nat, p: nat)
    requires Grouped(finditer)
    requires t < |PatternTable| && p < |PatternTable[t].patterns| && FromMatch(PatternTable, finditer, f, t, p)
    ensures f.name == FeatureNames[t]
    ensures f.name == "resolution" ==>
              t == 2 && f.unit == Some("pixels")
              && exists m :: m in finditer(PatternTable[2].patterns[p].regex)
                   && |m.groups| == 2 && f.value == m.groups[0] + "x" + m.groups[1]
  {
    TableShape();
    MatchesFit(finditer, t, p);
    var m :| m in finditer(PatternTable[t].patterns[p].regex) && f == FeatureOf(PatternTable[t].name, m);
    if f.name == "resolution" {
      assert t == 2 by {
        assert forall k :: 0 <= k < 6 && k != 2 ==> FeatureNames[k][0] != 'r';
        assert "resolution"[0] == 'r';
      }
    }
  }

  /** A match of a one-group pattern (`мегапиксел`, the colours, the bare inch mark) gives a feature without a unit. */
  lemma OneGroupNoUnit(finditer: string -> seq<Match>, t: nat, p: nat, m: Match)
    requires Grouped(finditer)
    requires t < |PatternTable| && p < |PatternTable[t].patterns|
    requires PatternTable[t].patterns[p].groups == 1
    requires m in finditer(PatternTable[t].patterns[p].regex)
    ensures MakeFeature(PatternTable[t].name, m) in AllFeatures(finditer)
    ensures MakeFeature(PatternTable[t].name, m).unit == None
    ensures MakeFeature(PatternTable[t].name, m).value == m.groups[0]
  {
    TableShape();
    FeaturesMeaning(finditer);
    assert FromMatch(PatternTable, finditer, FeatureOf(PatternTable[t].name, m), t, p);
  }

  /** The body of the innermost loop of `extract_features`: one match's feature. */
  method BuildFeature(name: string, m: Match) returns (f: Feature)
    requires Fits(name, m)
    ensures f == MakeFeature(name, m)
  {
    var value: string;
    var unit: Option<string>;
    if name == "resolution" {
      value := m.groups[0] + "x" + m.groups[1];
      unit := Some("pixels");
    } else {
      value := m.groups[0];
      unit := if |m.groups| > 1 then Some(m.groups[1]) else None;
    }
    if unit.Some? && unit.value in UnitNormalizers {
      unit := Some(UnitNormalizers[unit.value]);
    }
    f := Feature(name, value, unit, 1.0);
  }

  /** The innermost loop of `extract_features` for one pattern: one feature per match, in match order. */
  method FeaturesOfMatches(name: string, matches: seq<Match>) returns (added: seq<Feature>)
    requires forall m :: m in matches ==> Fits(name, m)
    ensures added == MatchFeatures(name, matches)
  {
    added := [];
    for i := 0 to |matches|
      invariant added == MatchFeatures(name, matches[..i])
    {
      assert matches[..i + 1][..i] == matches[..i];
      var feature := BuildFeature(name, matches[i]);
      added := added + [feature];
    }
    assert matches[..|matches|] == matches;
  }

  /** The pattern loop of `extract_features` for the feature type at index `k` of a table. */
  method FeaturesOfType(table: seq<FeatureType>, finditer: string -> seq<Match>, k: nat) returns (added: seq<Feature>)
    requires k < |table|
    requires forall j, m :: 0 <= j < |table[k].patterns| && m in finditer(table[k].patterns[j].regex) ==> Fits(table[k].name, m)
    ensures added == PatternFeatures(table, finditer, k, |table[k].patterns|)
  {
    var featureType := table[k];
    added := [];
    for j := 0 to |featureType.patterns|
      invariant added == PatternFeatures(table, finditer, k, j)
    {
      var more := FeaturesOfMatches(featureType.name, finditer(featureType.patterns[j].regex));
      added := added + more;
    }
  }

  /** `extract_features`: the type loop, appending each type's features in turn. */
  method ExtractFeatures(finditer: string -> seq<Match>) returns (features: seq<Feature>)
    requires Grouped(finditer)
    ensures features == AllFeatures(finditer)
  {
    features := [];
    for k := 0 to |PatternTable|
      invariant features == TypeFeatures(PatternTable, finditer, k)
    {
      forall j | 0 <= j < |PatternTable[k].patterns|
        ensures forall m :: m in finditer(PatternTable[k].patterns[j].regex) ==> Fits(PatternTable[k].name, m)
      {
        MatchesFit(finditer, k, j);
      }
      var added := FeaturesOfType(PatternTable, finditer, k);
      features := features + added;
    }
  }
}
