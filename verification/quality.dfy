/** The quality scorer: four sub-scores (Coverage, Evidence, Freshness,
    Contradictions), their mean, and the three-tier threshold the mean falls in.
    Scores are exact rationals (`real`). */
module Quality {
  import opened ResearchReport
  import opened Text

  datatype Threshold = Production | Marginal | Insufficient

  /** The recommended action (and its orchestrator-specific companion) of a result. */
  datatype Action = ApproveForUse | FlagForReview | RedesignApproach | FixValidationError

  /** The qualitative band a justification names: the upper, the middle or the lower one. */
  datatype Band = UpperBand | MiddleBand | LowerBand

  /** Why the scorer could not proceed. */
  datatype QualityError = NoFindings | NoSources

  /** The justification of a sub-score, without its wording. */
  datatype Note =
    | ErrorNote(error: QualityError)
    | NotAvailable
    | StableTopic
    | DimensionsError
    | DimensionsAddressed(addressed: nat, total: nat, band: Band)
    | NoFindingsToAssess
    | EvidenceCounts(hm: nat, total: nat, h: nat, m: nat, l: nat, band: Band)
    | NoSourcesToAssess
    | NoValidDates
    | SourcesRecent(recent: nat, total: nat, parseErrors: nat, band: Band)
    | NoConflicts
    | ConflictCounts(unresolved: nat, resolved: nat, total: nat, band: Band)

  datatype SubScore = SubScore(score: real, note: Note)

  datatype QualityResult = QualityResult(
    coverage: real, coverageNote: Note,
    evidence: real, evidenceNote: Note,
    freshness: Option<real>, freshnessNote: Note,
    contradictions: real, contradictionsNote: Note,
    average: real,
    threshold: Threshold,
    action: Action,
    error: Option<QualityError>)

  /** Sources dated within this many seconds (180 days) of the evaluation time count as recent. */
  const FreshnessWindow: int := 180 * 86400

  /** What the scorer reads from a report; absent fields are empty. */
  function Findings(report: Report): seq<Finding> {
    report.keyFindings.GetOr([])
  }

  function Sources(report: Report): map<SourceId, Source> {
    report.sources.GetOr(map[])
  }

  function Disagreements(report: Report): seq<Disagreement> {
    if report.meta.Some? then report.meta.value.disagreements else []
  }

  /** `(n / d) * 10`, exactly. */
  function Scaled(n: nat, d: nat): (r: real)
    requires d > 0
    ensures n <= d ==> 0.0 <= r <= 10.0
    ensures r >= 10.0 <==> n >= d
  {
    (n as real / d as real) * 10.0
  }

  function BandOf(score: real, upper: real, middle: real): Band {
    if score >= upper then UpperBand else if score >= middle then MiddleBand else LowerBand
  }

  // ---------------------------------------------------------------- Coverage

  /** The first (up to) three words of a text. */
  function LeadingWords(text: string): (ws: seq<string>)
    ensures var all := Split(text); |ws| <= 3 && ws <= all && (|all| >= 3 ==> |ws| == 3) && (|all| < 3 ==> ws == all)
  {
    var words := Split(text);
    words[..if |words| < 3 then |words| else 3]
  }

  /** The dimension a finding addresses: the first three words of its text, lower-cased. */
  function DimensionKey(text: string): (key: string)
    ensures forall k :: 0 <= k < |key| ==> !IsUpper(key[k])
    ensures Split(text) == [] ==> key == []
  {
    Lower(Join(LeadingWords(text)))
  }

  /** The words of a dimension key are the first (up to) three words of the text, lower-cased. */
  lemma DimensionKeyWords(text: string)
    ensures Split(DimensionKey(text)) == LowerAll(LeadingWords(text))
  {
    var ws := Split(text);
    var first := LeadingWords(text);
    assert forall i :: 0 <= i < |first| ==> first[i] == ws[i];
    SplitJoin(first);
    SplitLower(Join(first));
  }

  /** Two texts share a dimension exactly when their first three words agree once
      lower-cased; spacing, capitals and later words do not matter. */
  lemma SameDimension(a: string, b: string)
    ensures DimensionKey(a) == DimensionKey(b) <==> LowerAll(LeadingWords(a)) == LowerAll(LeadingWords(b))
  {
    DimensionKeyWords(a);
    DimensionKeyWords(b);
    LowerJoin(LeadingWords(a));
    LowerJoin(LeadingWords(b));
  }

  /** The distinct dimensions the findings address. */
  function Dimensions(fs: seq<Finding>): (d: set<string>)
    ensures |d| <= |fs|
  {
    if fs == [] then {} else Dimensions(fs[..|fs| - 1]) + {DimensionKey(fs[|fs| - 1].text)}
  }

  /** A key is a dimension exactly when some finding's text yields it. */
  lemma {:induction false} DimensionsMembers(fs: seq<Finding>, key: string)
    ensures key in Dimensions(fs) <==> exists i :: 0 <= i < |fs| && DimensionKey(fs[i].text) == key
  {
    if fs != [] {
      var init := fs[..|fs| - 1];
      DimensionsMembers(init, key);
      if key in Dimensions(init) {
        var i :| 0 <= i < |init| && DimensionKey(init[i].text) == key;
        assert fs[i] == init[i];
      }
      if i :| 0 <= i < |fs| && DimensionKey(fs[i].text) == key {
        if i < |fs| - 1 {
          assert init[i] == fs[i];
        }
      }
    }
  }

  /** Findings with the same dimension keys address the same dimensions. */
  lemma {:induction false} DimensionsOfPermutation(fs: seq<Finding>, gs: seq<Finding>)
    requires multiset(fs) == multiset(gs)
    ensures Dimensions(fs) == Dimensions(gs)
  {
    forall key | key in Dimensions(fs) ensures key in Dimensions(gs) {
      DimensionsMembers(fs, key);
      var i :| 0 <= i < |fs| && DimensionKey(fs[i].text) == key;
      assert fs[i] in multiset(gs);
      var j :| 0 <= j < |gs| && gs[j] == fs[i];
      DimensionsMembers(gs, key);
    }
    forall key | key in Dimensions(gs) ensures key in Dimensions(fs) {
      DimensionsMembers(gs, key);
      var j :| 0 <= j < |gs| && DimensionKey(gs[j].text) == key;
      assert gs[j] in multiset(fs);
      var i :| 0 <= i < |fs| && fs[i] == gs[j];
      DimensionsMembers(fs, key);
    }
  }

  /** Coverage = (distinct dimensions / total dimensions) * 10, capped at 10;
      0 with an error justification when `totalDimensions` is not positive. */
  method ComputeCoverage(findings: seq<Finding>, totalDimensions: int) returns (score: real, note: Note)
    ensures 0.0 <= score <= 10.0
    ensures totalDimensions <= 0 ==> score == 0.0 && note == DimensionsError
    ensures totalDimensions > 0 ==>
      var addressed := |Dimensions(findings)|;
      && addressed <= |findings|
      && score == (if addressed >= totalDimensions then 10.0 else Scaled(addressed, totalDimensions))
      && note == DimensionsAddressed(addressed, totalDimensions, BandOf(score, 9.0, 7.0))
  {
    if totalDimensions <= 0 {
      return 0.0, DimensionsError;
    }
    var found: set<string> := {};
    for i := 0 to |findings|
      invariant found == Dimensions(findings[..i])
    {
      assert findings[..i + 1][..i] == findings[..i];
      found := found + {DimensionKey(findings[i].text)};
    }
    assert findings[..|findings|] == findings;
    var addressed := |found|;
    score := Scaled(addressed, totalDimensions);
    if score > 10.0 {
      score := 10.0;
    }
    note := DimensionsAddressed(addressed, totalDimensions, BandOf(score, 9.0, 7.0));
  }

  // ---------------------------------------------------------------- Evidence

  /** How many findings carry a confidence in `levels`. */
  function CountLevels(fs: seq<Finding>, levels: set<Confidence>): (n: nat)
    ensures n <= |fs|
  {
    if fs == [] then 0
    else (if fs[0].confidence in levels then 1 else 0) + CountLevels(fs[1..], levels)
  }

  /** Counting over disjoint sets of levels adds up. */
  lemma {:induction false} CountLevelsDisjoint(fs: seq<Finding>, a: set<Confidence>, b: set<Confidence>)
    requires a !! b
    ensures CountLevels(fs, a + b) == CountLevels(fs, a) + CountLevels(fs, b)
  {
    if fs != [] {
      CountLevelsDisjoint(fs[1..], a, b);
    }
  }

  /** Evidence = (findings with confidence H or M / all findings) * 10, with the H/M/L breakdown. */
  function ComputeEvidence(findings: seq<Finding>): (r: SubScore)
    ensures 0.0 <= r.score <= 10.0
    ensures findings == [] ==> r == SubScore(0.0, NoFindingsToAssess)
    ensures findings != [] ==>
      && r.score == Scaled(CountLevels(findings, {H, M}), |findings|)
      && r.note.EvidenceCounts?
      && r.note.total == |findings|
      && r.note.hm == CountLevels(findings, {H, M})
      && r.note.h == CountLevels(findings, {H})
      && r.note.m == CountLevels(findings, {M})
      && r.note.l == CountLevels(findings, {L})
      && r.note.hm == r.note.h + r.note.m
      && r.note.h + r.note.m + r.note.l <= r.note.total
      && r.note.band == BandOf(r.score, 8.0, 6.0)
  {
    if findings == [] then SubScore(0.0, NoFindingsToAssess)
    else
      var hm := CountLevels(findings, {H, M});
      var total := |findings|;
      var score := Scaled(hm, total);
      var h := CountLevels(findings, {H});
      var m := CountLevels(findings, {M});
      var l := CountLevels(findings, {L});
      CountLevelsDisjoint(findings, {H}, {M});
      CountLevelsDisjoint(findings, {H, M}, {L});
      assert {H} + {M} == {H, M};
      assert {H, M} + {L} == {H, M, L};
      SubScore(score, EvidenceCounts(hm, total, h, m, l, BandOf(score, 8.0, 6.0)))
  }

  // ---------------------------------------------------------------- Freshness

  /** A source is recent when it has a date that parses to an instant no earlier than the cutoff. */
  predicate IsRecent(src: Source, parse: string -> Option<int>, cutoff: int)
    ensures IsRecent(src, parse, cutoff) ==> !IsParseError(src, parse)
  {
    src.date != "" && parse(src.date).Some? && parse(src.date).value >= cutoff
  }

  /** A parse error: a date is present but does not parse. A missing date is not one. */
  predicate IsParseError(src: Source, parse: string -> Option<int>)
    ensures src.date == "" ==> !IsParseError(src, parse)
  {
    src.date != "" && parse(src.date).None?
  }

  function RecentAmong(ids: set<SourceId>, sources: map<SourceId, Source>, parse: string -> Option<int>, cutoff: int): set<SourceId> {
    set id | id in ids && id in sources && IsRecent(sources[id], parse, cutoff)
  }

  function UnparsedAmong(ids: set<SourceId>, sources: map<SourceId, Source>, parse: string -> Option<int>): set<SourceId> {
    set id | id in ids && id in sources && IsParseError(sources[id], parse)
  }

  /** Visiting one more source adds it to exactly the counts it belongs to. */
  lemma CountAmongStep(done: set<SourceId>, id: SourceId, sources: map<SourceId, Source>, parse: string -> Option<int>, cutoff: int)
    requires id in sources && id !in done
    ensures |RecentAmong(done + {id}, sources, parse, cutoff)|
      == |RecentAmong(done, sources, parse, cutoff)| + (if IsRecent(sources[id], parse, cutoff) then 1 else 0)
    ensures |UnparsedAmong(done + {id}, sources, parse)|
      == |UnparsedAmong(done, sources, parse)| + (if IsParseError(sources[id], parse) then 1 else 0)
  {
    RecentStep(done, id, sources, parse, cutoff);
    UnparsedStep(done, id, sources, parse);
  }

  lemma RecentStep(done: set<SourceId>, id: SourceId, sources: map<SourceId, Source>, parse: string -> Option<int>, cutoff: int)
    requires id in sources && id !in done
    ensures RecentAmong(done + {id}, sources, parse, cutoff)
      == RecentAmong(done, sources, parse, cutoff) + (if IsRecent(sources[id], parse, cutoff) then {id} else {})
  {
  }

  lemma UnparsedStep(done: set<SourceId>, id: SourceId, sources: map<SourceId, Source>, parse: string -> Option<int>)
    requires id in sources && id !in done
    ensures UnparsedAmong(done + {id}, sources, parse)
      == UnparsedAmong(done, sources, parse) + (if IsParseError(sources[id], parse) then {id} else {})
  {
  }

  /** Freshness = (recent sources / all sources) * 10; sources without a usable date
      stay in the denominator, and only unparsable dates are counted as parse errors.
      `parse` stands for the `%Y-%m-%d` parser and `now` for the evaluation instant. */
  method ComputeFreshness(sources: map<SourceId, Source>, parse: string -> Option<int>, now: int)
    returns (score: real, note: Note)
    ensures 0.0 <= score <= 10.0
    ensures note != NoValidDates
    ensures |sources| == 0 ==> score == 0.0 && note == NoSourcesToAssess
    ensures |sources| > 0 ==>
      var recent := |RecentAmong(sources.Keys, sources, parse, now - FreshnessWindow)|;
      var errors := |UnparsedAmong(sources.Keys, sources, parse)|;
      && recent + errors <= |sources|
      && score == Scaled(recent, |sources|)
      && note == SourcesRecent(recent, |sources|, errors, BandOf(score, 8.0, 5.0))
  {
    if |sources| == 0 {
      return 0.0, NoSourcesToAssess;
    }
    var cutoff := now - FreshnessWindow;
    var recent, errors := 0, 0;
    var total := |sources|;
    var remaining := sources.Keys;
    ghost var done: set<SourceId> := {};
    while remaining != {}
      invariant done + remaining == sources.Keys && done !! remaining
      invariant recent == |RecentAmong(done, sources, parse, cutoff)|
      invariant errors == |UnparsedAmong(done, sources, parse)|
      invariant recent + errors <= |done|
      invariant |done| + |remaining| == total
      decreases |remaining|
    {
      var id :| id in remaining;
      var date := sources[id].date;
      CountAmongStep(done, id, sources, parse, cutoff);
      if date != "" {
        match parse(date)
        case Some(instant) =>
          if instant >= cutoff {
            recent := recent + 1;
          }
        case None =>
          errors := errors + 1;
      }
      remaining := remaining - {id};
      done := done + {id};
    }
    if total == 0 {
      return 0.0, NoValidDates;
    }
    score := Scaled(recent, total);
    note := SourcesRecent(recent, total, errors, BandOf(score, 8.0, 5.0));
  }

  // ---------------------------------------------------------------- Contradictions

  /** How many disagreements are still "uncertain". */
  function Unresolved(ds: seq<Disagreement>): (n: nat)
    ensures n <= |ds|
  {
    if ds == [] then 0
    else (if ds[0].finalStance == "uncertain" then 1 else 0) + Unresolved(ds[1..])
  }

  /** Contradictions = 10 - 2 * unresolved, floored at 0; 10 when there are no disagreements. */
  function ComputeContradictions(ds: seq<Disagreement>): (r: SubScore)
    ensures 0.0 <= r.score <= 10.0
    ensures ds == [] ==> r == SubScore(10.0, NoConflicts)
    ensures Unresolved(ds) == 0 ==> r.score == 10.0
    ensures ds != [] ==>
      && r.score == (if Unresolved(ds) >= 5 then 0.0 else 10.0 - 2.0 * Unresolved(ds) as real)
      && r.note.ConflictCounts?
      && r.note.unresolved == Unresolved(ds)
      && r.note.resolved + r.note.unresolved == r.note.total == |ds|
      && r.note.band == BandOf(r.score, 8.0, 6.0)
  {
    if ds == [] then SubScore(10.0, NoConflicts)
    else
      var unresolved := Unresolved(ds);
      var raw := 10 - unresolved * 2;
      var score := if raw as real > 0.0 then raw as real else 0.0;
      var total := |ds|;
      SubScore(score, ConflictCounts(unresolved, total - unresolved, total, BandOf(score, 8.0, 6.0)))
  }

  // ---------------------------------------------------------------- Threshold

  function DetermineThreshold(average: real): (t: Threshold)
    ensures t == Production <==> average >= 8.0
    ensures t == Marginal <==> 7.0 <= average < 8.0
    ensures t == Insufficient <==> average < 7.0
  {
    if average >= 8.0 then Production
    else if average >= 7.0 then Marginal
    else Insufficient
  }

  function ActionFor(t: Threshold): Action {
    match t
    case Production => ApproveForUse
    case Marginal => FlagForReview
    case Insufficient => RedesignApproach
  }

  /** Tiers in increasing order of quality. */
  function Rank(t: Threshold): nat {
    match t
    case Insufficient => 0
    case Marginal => 1
    case Production => 2
  }

  /** A higher average never lands in a lower tier. */
  lemma ThresholdMonotone(a: real, b: real)
    requires a <= b
    ensures Rank(DetermineThreshold(a)) <= Rank(DetermineThreshold(b))
  {
  }

  // ---------------------------------------------------------------- Aggregation

  function Sum(xs: seq<real>): real {
    if xs == [] then 0.0 else xs[0] + Sum(xs[1..])
  }

  /** The sum of n scores in [0, 10] lies in [0, 10n]. */
  lemma {:induction false} SumBounds(xs: seq<real>)
    requires forall i :: 0 <= i < |xs| ==> 0.0 <= xs[i] <= 10.0
    ensures 0.0 <= Sum(xs) <= 10.0 * |xs| as real
  {
    if xs != [] {
      SumBounds(xs[1..]);
    }
  }

  /** Python's `sum(xs) / len(xs)`; the mean of scores in [0, 10] lies in [0, 10]. */
  function Mean(xs: seq<real>): (r: real)
    requires xs != []
    ensures (forall i :: 0 <= i < |xs| ==> 0.0 <= xs[i] <= 10.0) ==> 0.0 <= r <= 10.0
    ensures |xs| == 3 ==> r == Sum(xs) / 3.0
    ensures |xs| == 4 ==> r == Sum(xs) / 4.0
  {
    MeanBounds(xs);
    Sum(xs) / |xs| as real
  }

  lemma MeanBounds(xs: seq<real>)
    requires xs != []
    ensures (forall i :: 0 <= i < |xs| ==> 0.0 <= xs[i] <= 10.0) ==> 0.0 <= Sum(xs) / |xs| as real <= 10.0
  {
    if forall i :: 0 <= i < |xs| ==> 0.0 <= xs[i] <= 10.0 {
      SumBounds(xs);
      var n := |xs| as real;
      assert Sum(xs) <= 10.0 * n;
    }
  }

  lemma SumOfScores(a: real, b: real, c: real, d: Option<real>)
    ensures Sum([a, b, c]) == a + b + c
    ensures d.Some? ==> Sum([a, b, c] + [d.value]) == a + b + c + d.value
  {
    assert Sum([c]) == c + Sum([]);
    assert Sum([b, c]) == b + Sum([c]);
    assert Sum([a, b, c]) == a + Sum([b, c]);
    if d.Some? {
      var x := d.value;
      assert [a, b, c] + [x] == [a, b, c, x];
      assert Sum([x]) == x + Sum([]);
      assert Sum([c, x]) == c + Sum([x]);
      assert Sum([b, c, x]) == b + Sum([c, x]);
      assert Sum([a, b, c, x]) == a + Sum([b, c, x]);
    }
  }

  /** The result when the report has no findings or no sources. */
  function QualityErrorResult(e: QualityError): (r: QualityResult)
    ensures r.error == Some(e)
    ensures r.coverage == 0.0 && r.evidence == 0.0 && r.contradictions == 0.0 && r.freshness == None
    ensures r.average == 0.0 && r.threshold == DetermineThreshold(r.average) == Insufficient
    ensures r.action == FixValidationError && r.action != ActionFor(r.threshold)
    ensures r.coverageNote == r.evidenceNote == r.contradictionsNote == ErrorNote(e)
  {
    QualityResult(
      0.0, ErrorNote(e),
      0.0, ErrorNote(e),
      None, NotAvailable,
      0.0, ErrorNote(e),
      0.0,
      Insufficient,
      FixValidationError,
      Some(e))
  }

  /** Scores a report. `parse` stands for the `%Y-%m-%d` date parser and
      `now` for the wall-clock instant read at evaluation time. */
  method ValidateResearchQuality(
    report: Report, totalDimensions: int, freshnessApplicable: bool,
    parse: string -> Option<int>, now: int)
    returns (r: QualityResult)
    ensures 0.0 <= r.average <= 10.0
    ensures r.threshold == DetermineThreshold(r.average)
    ensures Findings(report) == [] || Sources(report) == map[] ==>
      && r.error == Some(if Findings(report) == [] then NoFindings else NoSources)
      && r.threshold == Insufficient && r.action == FixValidationError
      && r.coverage == 0.0 && r.evidence == 0.0 && r.contradictions == 0.0
      && r.freshness == None && r.average == 0.0
      && r == QualityErrorResult(if Findings(report) == [] then NoFindings else NoSources)
    ensures Findings(report) != [] && Sources(report) != map[] ==>
      var findings, sources := Findings(report), Sources(report);
      && r.error == None
      && r.action == ActionFor(r.threshold)
      && 0.0 <= r.coverage <= 10.0 && 0.0 <= r.evidence <= 10.0 && 0.0 <= r.contradictions <= 10.0
      && (totalDimensions <= 0 ==> r.coverage == 0.0 && r.coverageNote == DimensionsError)
      && (totalDimensions > 0 ==> r.coverage == (if |Dimensions(findings)| >= totalDimensions then 10.0
                                                  else Scaled(|Dimensions(findings)|, totalDimensions)))
      && (totalDimensions > 0 ==>
            r.coverageNote == DimensionsAddressed(|Dimensions(findings)|, totalDimensions, BandOf(r.coverage, 9.0, 7.0)))
      && r.evidence == Scaled(CountLevels(findings, {H, M}), |findings|)
      && r.evidenceNote == ComputeEvidence(findings).note
      && r.contradictions == ComputeContradictions(Disagreements(report)).score
      && r.contradictionsNote == ComputeContradictions(Disagreements(report)).note
      && (freshnessApplicable <==> r.freshness.Some?)
      && (freshnessApplicable ==>
            r.freshness.value == Scaled(|RecentAmong(sources.Keys, sources, parse, now - FreshnessWindow)|, |sources|))
      && (freshnessApplicable ==>
            r.freshnessNote == SourcesRecent(|RecentAmong(sources.Keys, sources, parse, now - FreshnessWindow)|, |sources|,
                                             |UnparsedAmong(sources.Keys, sources, parse)|,
                                             BandOf(r.freshness.value, 8.0, 5.0)))
      && (!freshnessApplicable ==> r.freshnessNote == StableTopic)
      && r.average == (if freshnessApplicable
                       then (r.coverage + r.evidence + r.contradictions + r.freshness.value) / 4.0
                       else (r.coverage + r.evidence + r.contradictions) / 3.0)
  {
    var findings := Findings(report);
    var sources := Sources(report);
    if findings == [] {
      return QualityErrorResult(NoFindings);
    }
    if sources == map[] {
      return QualityErrorResult(NoSources);
    }
    var coverage, coverageNote := ComputeCoverage(findings, totalDimensions);
    var evidence := ComputeEvidence(findings);
    var freshness: Option<real>, freshnessNote: Note;
    if freshnessApplicable {
      var score, note := ComputeFreshness(sources, parse, now);
      freshness, freshnessNote := Some(score), note;
    } else {
      freshness, freshnessNote := None, StableTopic;
    }
    var contradictions := ComputeContradictions(Disagreements(report));
    var scores := [coverage, evidence.score, contradictions.score];
    if freshness.Some? {
      scores := scores + [freshness.value];
    }
    var average := Mean(scores);
    SumOfScores(coverage, evidence.score, contradictions.score, freshness);
    var threshold := DetermineThreshold(average);
    r := QualityResult(
      coverage, coverageNote,
      evidence.score, evidence.note,
      freshness, freshnessNote,
      contradictions.score, contradictions.note,
      average,
      threshold,
      ActionFor(threshold),
      None);
  }
}
