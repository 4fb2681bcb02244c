/** The traceability verifier: checks that the headline answer of a report is
    backed by cited findings of sufficient confidence, and that every finding
    and source it cites exists. */
module Traceability {
  import opened ResearchReport
  import opened Text

  datatype Status = Verified | Speculative | Error

  /** The required report fields, in the order they are read. */
  datatype Field = ExecutiveSummaryField | KeyFindingsField | SourcesField | MetaField | TraceabilityDataField

  /** Why verification could not proceed. */
  datatype TraceError =
    | MissingRequiredField(field: Field)
    | NoAnswerClaim
    | NoExecutiveSummary
    | UnknownFindingIds(ids: seq<FindingId>)

  /** The coarse claim/expected-answer similarity tags. */
  datatype Similarity = ExactMatch | PartialMatch | InsufficientData | HighOverlap | ModerateOverlap | LowOverlap

  /** `claim_match`: absent on the early speculative result, "error" on error results. */
  datatype ClaimMatch = NotReported | MatchError | Classified(similarity: Similarity)

  /** The explanation of a result, without its wording. */
  datatype Notes =
    | NoSupportingFindings
    | SupportedBy(count: nat, aggregate: Option<Confidence>)
    | NeedsHigherConfidence(aggregate: Option<Confidence>)
    | MissingSourceIds(ids: seq<SourceId>)
    | ValidationError(error: TraceError)

  /** One row of the per-finding support breakdown. */
  datatype BreakdownItem = BreakdownItem(
    findingId: FindingId, findingText: string, confidence: Confidence,
    sourceIds: seq<SourceId>, sourceCount: nat)

  /** `aggregate == None` is the aggregate "None"; `breakdown == None` means the
      result has no breakdown; `promptVersion == None` marks the error metadata. */
  datatype TraceResult = TraceResult(
    answerClaim: string, expectedAnswer: string, claimMatch: ClaimMatch,
    findingIds: seq<FindingId>, sourceIds: seq<SourceId>,
    aggregate: Option<Confidence>, meetsPolicy: bool,
    breakdown: Option<seq<BreakdownItem>>,
    status: Status, notes: Notes,
    promptVersion: Option<string>)

  // ---------------------------------------------------------------- reading the report

  /** The first required field that is absent, if any. */
  function FirstMissingField(report: Report): (r: Option<Field>)
    ensures r.Some? ==> !Present(report, r.value) && forall f :: Order(f) < Order(r.value) ==> Present(report, f)
    ensures r == None <==> forall f :: Present(report, f)
  {
    if report.executiveSummary.None? then Some(ExecutiveSummaryField)
    else if report.keyFindings.None? then Some(KeyFindingsField)
    else if report.sources.None? then Some(SourcesField)
    else if report.meta.None? then Some(MetaField)
    else if report.meta.value.traceabilityData.None? then Some(TraceabilityDataField)
    else None
  }

  /** Whether a required field is there. */
  predicate Present(report: Report, f: Field) {
    match f
    case ExecutiveSummaryField => report.executiveSummary.Some?
    case KeyFindingsField => report.keyFindings.Some?
    case SourcesField => report.sources.Some?
    case MetaField => report.meta.Some?
    case TraceabilityDataField => report.meta.Some? && report.meta.value.traceabilityData.Some?
  }

  /** The position of a field in the order the verifier reads them. */
  function Order(f: Field): nat {
    match f
    case ExecutiveSummaryField => 0
    case KeyFindingsField => 1
    case SourcesField => 2
    case MetaField => 3
    case TraceabilityDataField => 4
  }

  function Claim(report: Report): string
    requires FirstMissingField(report).None?
  {
    report.meta.value.traceabilityData.value.answerClaim
  }

  function SupportIds(report: Report): seq<FindingId>
    requires FirstMissingField(report).None?
  {
    report.meta.value.traceabilityData.value.supportingFindingIds
  }

  /** Every required field is present, the claim is non-empty and the summary has a headline. */
  predicate HasClaimAndHeadline(report: Report) {
    FirstMissingField(report).None? && Claim(report) != "" && report.executiveSummary.value != []
  }

  function Headline(report: Report): string
    requires HasClaimAndHeadline(report)
  {
    report.executiveSummary.value[0]
  }

  /** `run_metadata.prompt_version`, or "unknown". */
  function PromptVersion(report: Report): string {
    if report.meta.Some? && report.meta.value.promptVersion.Some? then report.meta.value.promptVersion.value
    else "unknown"
  }

  // ---------------------------------------------------------------- expected answer

  /** The headline with its bracketed citations cut off, trimmed, and with a
      leading "1." ordinal removed (and trimmed again). */
  function ExpectedText(headline: string): (r: string)
    ensures IsTrimmed(r)
    ensures forall c :: c in r ==> c in BeforeBracket(headline)
    ensures '[' !in r
  {
    var t := Strip(BeforeBracket(headline));
    if "1." <= t then Strip(t[2..]) else t
  }

  /** Without citations or an ordinal, the expected text is the trimmed headline. */
  lemma ExpectedTextFallback(headline: string)
    requires '[' !in headline && !("1." <= Strip(headline))
    ensures ExpectedText(headline) == Strip(headline)
  {
    BeforeBracketWhole(headline);
  }

  /** A headline of the form `1. <answer> [<citations>]` expects exactly `<answer>`. */
  lemma ExpectedTextOfNumberedHeadline(answer: string, citations: string)
    requires answer != [] && IsTrimmed(answer) && '[' !in answer
    ensures ExpectedText("1. " + answer + " [" + citations) == answer
  {
    HeadlineBeforeCitations(answer, citations);
    NumberedStrip(answer);
    StripSpaceBefore(answer);
    ExpectedTextNumbered("1. " + answer + " [" + citations, "1. " + answer);
  }

  /** `ExpectedText` of a headline whose trimmed pre-bracket part is numbered. */
  lemma ExpectedTextNumbered(headline: string, t: string)
    requires Strip(BeforeBracket(headline)) == t && "1." <= t
    ensures ExpectedText(headline) == Strip(t[2..])
  {
  }

  /** Trimming `1. <answer> ` leaves `1. <answer>`, whose text after the ordinal is ` <answer>`. */
  lemma NumberedStrip(answer: string)
    requires answer != [] && IsTrimmed(answer)
    ensures Strip("1. " + answer + " ") == "1. " + answer
    ensures "1." <= "1. " + answer && ("1. " + answer)[2..] == " " + answer
  {
    NumberedTrimmed(answer);
    StripSpaceAfter("1. " + answer);
  }

  lemma NumberedTrimmed(answer: string)
    requires answer != [] && IsTrimmed(answer)
    ensures IsTrimmed("1. " + answer)
  {
    var t := "1. " + answer;
    assert t[0] == '1' && t[|t| - 1] == answer[|answer| - 1];
  }

  lemma HeadlineBeforeCitations(answer: string, citations: string)
    requires '[' !in answer
    ensures BeforeBracket("1. " + answer + " [" + citations) == "1. " + answer + " "
  {
    var h := "1. " + answer + " [" + citations;
    var n := |answer| + 4;
    forall k | 0 <= k < n ensures h[k] != '[' {
      if 3 <= k < n - 1 { assert h[k] == answer[k - 3]; }
    }
    BeforeBracketAt(h, n);
    assert h[..n] == "1. " + answer + " ";
  }

  lemma StripSpaceAfter(s: string)
    requires s != [] && IsTrimmed(s)
    ensures Strip(s + " ") == s
  {
    StripExact(s + " ", 0, |s|);
    assert (s + " ")[0..|s|] == s;
  }

  lemma StripSpaceBefore(s: string)
    requires s != [] && IsTrimmed(s)
    ensures Strip(" " + s) == s
  {
    StripExact(" " + s, 1, |s| + 1);
    assert (" " + s)[1..|s| + 1] == s;
  }

  lemma {:induction false} BeforeBracketWhole(s: string)
    requires '[' !in s
    ensures BeforeBracket(s) == s
  {
    if s != [] {
      assert s[0] != '[';
      assert forall c :: c in s[1..] ==> c in s;
      BeforeBracketWhole(s[1..]);
    }
  }

  // ---------------------------------------------------------------- aggregate confidence

  /** H if any H, else M if any M, else L; "None" (absent) for no confidences at all. */
  function AggregateConfidence(cs: seq<Confidence>): (a: Option<Confidence>)
    ensures a == None <==> cs == []
    ensures a == Some(H) <==> H in cs
    ensures a == Some(M) <==> M in cs && H !in cs
    ensures a == Some(L) <==> cs != [] && H !in cs && M !in cs
  {
    if cs == [] then None
    else if H in cs then Some(H)
    else if M in cs then Some(M)
    else Some(L)
  }

  /** The policy: the aggregate is H or M. */
  predicate MeetsPolicy(a: Option<Confidence>) {
    a == Some(H) || a == Some(M)
  }

  /** Strength of an aggregate: None < L < M < H. */
  function Strength(a: Option<Confidence>): nat {
    match a
    case Some(H) => 3
    case Some(M) => 2
    case Some(_) => 1
    case None => 0
  }

  /** Adding an H anywhere makes the aggregate H. */
  lemma AggregateWithH(cs: seq<Confidence>, i: nat)
    requires i <= |cs|
    ensures AggregateConfidence(cs[..i] + [H] + cs[i..]) == Some(H)
  {
    assert (cs[..i] + [H] + cs[i..])[i] == H;
  }

  /** Only L findings aggregate to L. */
  lemma AggregateOnlyL(cs: seq<Confidence>)
    requires cs != [] && forall i :: 0 <= i < |cs| ==> cs[i] == L
    ensures AggregateConfidence(cs) == Some(L)
  {
  }

  /** Adding findings never weakens the aggregate. */
  lemma AggregateMonotone(cs: seq<Confidence>, ds: seq<Confidence>)
    ensures Strength(AggregateConfidence(cs)) <= Strength(AggregateConfidence(cs + ds))
  {
    if H in cs {
      var i :| 0 <= i < |cs| && cs[i] == H;
      assert (cs + ds)[i] == H;
    } else if M in cs {
      var i :| 0 <= i < |cs| && cs[i] == M;
      assert (cs + ds)[i] == M;
    } else if cs != [] {
      assert (cs + ds)[0] == cs[0];
    }
  }

  /** The aggregate, and so the policy verdict, depend only on the multiset of confidences. */
  lemma AggregateOfPermutation(cs: seq<Confidence>, ds: seq<Confidence>)
    requires multiset(cs) == multiset(ds)
    ensures AggregateConfidence(cs) == AggregateConfidence(ds)
    ensures MeetsPolicy(AggregateConfidence(cs)) == MeetsPolicy(AggregateConfidence(ds))
  {
    assert H in cs <==> H in multiset(cs);
    assert H in ds <==> H in multiset(ds);
    assert M in cs <==> M in multiset(cs);
    assert M in ds <==> M in multiset(ds);
    assert cs == [] <==> |multiset(cs)| == 0;
    assert ds == [] <==> |multiset(ds)| == 0;
  }

  // ---------------------------------------------------------------- resolving findings

  /** `{f['id']: f for f in findings}`: a later finding with the same id replaces an earlier one. */
  function IndexById(fs: seq<Finding>): (byId: map<FindingId, Finding>)
    ensures forall id :: id in byId <==> exists i :: 0 <= i < |fs| && fs[i].id == id
    ensures forall id :: id in byId ==> byId[id].id == id && byId[id] in fs
  {
    if fs == [] then map[]
    else
      var init := fs[..|fs| - 1];
      var last := fs[|fs| - 1];
      var m := IndexById(init);
      assert forall i :: 0 <= i < |init| ==> init[i] == fs[i];
      assert forall f :: f in init ==> f in fs;
      m[last.id := last]
  }

  /** The finding an id resolves to is the last one carrying that id. */
  lemma {:induction false} IndexByIdLast(fs: seq<Finding>, i: nat)
    requires i < |fs|
    requires forall j :: i < j < |fs| ==> fs[j].id != fs[i].id
    ensures fs[i].id in IndexById(fs) && IndexById(fs)[fs[i].id] == fs[i]
  {
    if i < |fs| - 1 {
      var init := fs[..|fs| - 1];
      assert init[i] == fs[i];
      assert forall j :: i < j < |init| ==> init[j] == fs[j];
      IndexByIdLast(init, i);
    }
  }

  /** The elements of `xs` that are not in `keys`, in order (with repetitions). */
  function NotIn<T(==,!new)>(xs: seq<T>, keys: set<T>): (r: seq<T>)
    ensures |r| <= |xs|
  {
    if xs == [] then []
    else NotIn(xs[..|xs| - 1], keys) + (if xs[|xs| - 1] in keys then [] else [xs[|xs| - 1]])
  }

  /** An element is left over exactly when it is listed and not a key. */
  lemma {:induction false} NotInMembers<T(!new)>(xs: seq<T>, keys: set<T>)
    ensures forall x :: x in NotIn(xs, keys) <==> x in xs && x !in keys
  {
    if xs != [] {
      var init := xs[..|xs| - 1];
      NotInMembers(init, keys);
      assert xs == init + [xs[|xs| - 1]];
    }
  }

  /** The findings the ids resolve to, in order, skipping unknown ids. */
  function Resolve(ids: seq<FindingId>, byId: map<FindingId, Finding>): (r: seq<Finding>)
    ensures |r| <= |ids|
  {
    if ids == [] then []
    else Resolve(ids[..|ids| - 1], byId) + (if ids[|ids| - 1] in byId then [byId[ids[|ids| - 1]]] else [])
  }

  /** When every id is known, the support is the mapped finding for each id, position by position. */
  lemma {:induction false} ResolveKnown(ids: seq<FindingId>, byId: map<FindingId, Finding>)
    requires forall i :: 0 <= i < |ids| ==> ids[i] in byId
    ensures |Resolve(ids, byId)| == |ids|
    ensures forall i :: 0 <= i < |ids| ==> Resolve(ids, byId)[i] == byId[ids[i]]
  {
    if ids != [] {
      var init := ids[..|ids| - 1];
      assert forall i :: 0 <= i < |init| ==> init[i] == ids[i];
      ResolveKnown(init, byId);
    }
  }

  /** The confidence of each finding. */
  function ConfidencesOf(fs: seq<Finding>): (cs: seq<Confidence>)
    ensures |cs| == |fs|
    ensures forall c :: c in cs <==> exists i :: 0 <= i < |fs| && fs[i].confidence == c
  {
    var cs := seq(|fs|, i requires 0 <= i < |fs| => fs[i].confidence);
    assert forall c :: c in cs ==> exists i :: 0 <= i < |fs| && fs[i].confidence == c by {
      forall c | c in cs ensures exists i :: 0 <= i < |fs| && fs[i].confidence == c {
        var i :| 0 <= i < |cs| && cs[i] == c;
        assert fs[i].confidence == c;
      }
    }
    assert forall i :: 0 <= i < |fs| ==> cs[i] == fs[i].confidence;
    cs
  }

  // ---------------------------------------------------------------- cited sources

  /** All source ids the findings cite, concatenated in order. */
  function AllSourceIds(fs: seq<Finding>): seq<SourceId> {
    if fs == [] then [] else AllSourceIds(fs[..|fs| - 1]) + fs[|fs| - 1].sourceIds
  }

  /** A source id is cited exactly when one of the findings lists it. */
  lemma {:induction false} AllSourceIdsMembers(fs: seq<Finding>, s: SourceId)
    ensures s in AllSourceIds(fs) <==> exists i :: 0 <= i < |fs| && s in fs[i].sourceIds
  {
    if fs != [] {
      var init := fs[..|fs| - 1];
      AllSourceIdsMembers(init, s);
      if i :| 0 <= i < |init| && s in init[i].sourceIds {
        assert fs[i] == init[i];
      }
      if i :| 0 <= i < |fs| && s in fs[i].sourceIds {
        if i < |fs| - 1 {
          assert init[i] == fs[i];
        }
      }
    }
  }

  predicate NoDuplicates<T(==)>(xs: seq<T>) {
    forall i, j :: 0 <= i < j < |xs| ==> xs[i] != xs[j]
  }

  /** Python's `list(set(xs))`: each element once, in no particular order. */
  method Deduplicate<T(==,!new)>(xs: seq<T>) returns (ys: seq<T>)
    ensures NoDuplicates(ys)
    ensures forall x :: x in ys <==> x in xs
  {
    var rest := set x | x in xs;
    ys := [];
    while rest != {}
      invariant NoDuplicates(ys)
      invariant forall x :: x in xs <==> x in ys || x in rest
      invariant forall x :: x in ys ==> x !in rest
      decreases |rest|
    {
      var x :| x in rest;
      ys := ys + [x];
      rest := rest - {x};
    }
  }

  // ---------------------------------------------------------------- breakdown

  /** A finding's text as shown in the breakdown: cut to 100 characters and marked with "...". */
  function TruncateText(text: string): (r: string)
    ensures |r| <= 103
    ensures |text| <= 100 ==> r == text
    ensures |text| > 100 ==> |r| == 103 && r[..100] == text[..100] && r[100..] == "..."
  {
    if |text| > 100 then text[..100] + "..." else text
  }

  function BreakdownOf(f: Finding): BreakdownItem {
    BreakdownItem(f.id, TruncateText(f.text), f.confidence, f.sourceIds, |f.sourceIds|)
  }

  // ---------------------------------------------------------------- similarity

  /** The words the overlap check ignores. */
  const StopWords: set<string> := {"a", "an", "the", "is", "are", "was", "were", "to", "from", "in", "on", "at", "for"}

  /** Lower-cased, then trimmed. */
  function Normalize(s: string): string {
    Strip(Lower(s))
  }

  /** The distinct words of `s` that are not stop words. */
  function ContentWords(s: string): set<string> {
    (set w | w in Split(s)) - StopWords
  }

  /** Classifies the ratio common / larger against 0.7 and 0.4, exactly. */
  function OverlapTag(common: nat, larger: nat): (t: Similarity)
    requires larger > 0
    ensures t == HighOverlap <==> 10 * common >= 7 * larger
    ensures t == ModerateOverlap <==> 4 * larger <= 10 * common < 7 * larger
    ensures t == LowOverlap <==> 10 * common < 4 * larger
  {
    var ratio := common as real / larger as real;
    RatioAtLeast(common as real, larger as real, 0.7);
    RatioAtLeast(common as real, larger as real, 0.4);
    if ratio >= 0.7 then HighOverlap
    else if ratio >= 0.4 then ModerateOverlap
    else LowOverlap
  }

  lemma RatioAtLeast(a: real, b: real, c: real)
    requires b > 0.0
    ensures a / b >= c <==> a >= c * b
  {
    assert (a / b) * b == a;
    if a / b >= c {
      assert (a / b) * b >= c * b;
    } else {
      assert (a / b) * b < c * b;
    }
  }

  /** The larger of two counts. */
  function Max(a: nat, b: nat): nat {
    if a >= b then a else b
  }

  /** Informational similarity of the claim and the expected answer. */
  function CalculateSimilarity(claim: string, expected: string): (t: Similarity)
    ensures t == ExactMatch <==> Normalize(claim) == Normalize(expected)
    ensures t == PartialMatch <==>
      Normalize(claim) != Normalize(expected)
      && (Contains(Normalize(expected), Normalize(claim)) || Contains(Normalize(claim), Normalize(expected)))
    ensures t in {HighOverlap, ModerateOverlap, LowOverlap} ==>
      ContentWords(Normalize(claim)) != {} && ContentWords(Normalize(expected)) != {}
    ensures
      var c, e := Normalize(claim), Normalize(expected);
      var cw, ew := ContentWords(c), ContentWords(e);
      var unrelated := c != e && !Contains(e, c) && !Contains(c, e);
      && (t == InsufficientData <==> unrelated && (cw == {} || ew == {}))
      && (unrelated && cw != {} && ew != {} ==>
            var common, larger := |cw * ew|, Max(|cw|, |ew|);
            && (t == HighOverlap <==> 10 * common >= 7 * larger)
            && (t == ModerateOverlap <==> 4 * larger <= 10 * common < 7 * larger)
            && (t == LowOverlap <==> 10 * common < 4 * larger))
  {
    Classify(Normalize(claim), Normalize(expected))
  }

  /** The tag for two already normalised strings. */
  function Classify(c: string, e: string): Similarity {
    if c == e then ExactMatch
    else if Contains(e, c) || Contains(c, e) then PartialMatch
    else
      var cw := ContentWords(c);
      var ew := ContentWords(e);
      if cw == {} || ew == {} then InsufficientData
      else OverlapTag(|cw * ew|, Max(|cw|, |ew|))
  }

  lemma ClassifySymmetric(c: string, e: string)
    ensures Classify(c, e) == Classify(e, c)
  {
    var cw := ContentWords(c);
    var ew := ContentWords(e);
    assert cw * ew == ew * cw;
  }

  /** The classification does not depend on which string is the claim. */
  lemma SimilaritySymmetric(a: string, b: string)
    ensures CalculateSimilarity(a, b) == CalculateSimilarity(b, a)
  {
    ClassifySymmetric(Normalize(a), Normalize(b));
  }

  // ---------------------------------------------------------------- results

  /** The result when verification cannot proceed. */
  function TraceErrorResult(e: TraceError): (r: TraceResult)
    ensures r.status == Error && r.notes == ValidationError(e)
    ensures r.aggregate == None && !r.meetsPolicy && r.meetsPolicy == MeetsPolicy(r.aggregate)
    ensures r.answerClaim == "" && r.expectedAnswer == "" && r.claimMatch == MatchError
    ensures r.findingIds == [] && r.sourceIds == [] && r.breakdown == Some([])
    ensures r.promptVersion == None
  {
    TraceResult("", "", MatchError, [], [], None, false, Some([]), Error, ValidationError(e), None)
  }

  /** The loop over the supporting ids: the findings they resolve to, and the ids that resolve to none. */
  method ResolveSupport(ids: seq<FindingId>, byId: map<FindingId, Finding>)
    returns (support: seq<Finding>, missing: seq<FindingId>)
    ensures support == Resolve(ids, byId)
    ensures missing == NotIn(ids, byId.Keys)
  {
    support, missing := [], [];
    for i := 0 to |ids|
      invariant support == Resolve(ids[..i], byId)
      invariant missing == NotIn(ids[..i], byId.Keys)
    {
      ResolveStep(ids, i, byId);
      if ids[i] in byId {
        support := support + [byId[ids[i]]];
      } else {
        missing := missing + [ids[i]];
      }
    }
    assert ids[..|ids|] == ids;
  }

  /** One more id extends the resolved findings or the unknown ids, never both. */
  lemma ResolveStep(ids: seq<FindingId>, i: nat, byId: map<FindingId, Finding>)
    requires i < |ids|
    ensures Resolve(ids[..i + 1], byId)
      == Resolve(ids[..i], byId) + (if ids[i] in byId then [byId[ids[i]]] else [])
    ensures NotIn(ids[..i + 1], byId.Keys)
      == NotIn(ids[..i], byId.Keys) + (if ids[i] in byId then [] else [ids[i]])
  {
    var next := ids[..i + 1];
    assert next[..|next| - 1] == ids[..i] && next[|next| - 1] == ids[i];
  }

  /** The loop that extends one list with every supporting finding's source ids. */
  method CollectSourceIds(support: seq<Finding>) returns (all: seq<SourceId>)
    ensures all == AllSourceIds(support)
  {
    all := [];
    for j := 0 to |support|
      invariant all == AllSourceIds(support[..j])
    {
      assert support[..j + 1][..j] == support[..j];
      all := all + support[j].sourceIds;
    }
    assert support[..|support|] == support;
  }

  /** The loop that appends one breakdown row per supporting finding. */
  method BuildBreakdown(support: seq<Finding>) returns (rows: seq<BreakdownItem>)
    ensures |rows| == |support|
    ensures forall k :: 0 <= k < |support| ==> rows[k] == BreakdownOf(support[k])
  {
    rows := [];
    for j := 0 to |support|
      invariant |rows| == j
      invariant forall k :: 0 <= k < j ==> rows[k] == BreakdownOf(support[k])
    {
      rows := rows + [BreakdownOf(support[j])];
    }
  }

  /** What the verifier concludes about the cited support once every supporting id has resolved. */
  ghost predicate IsSupportVerdict(
    r: TraceResult, claim: string, expected: string, ids: seq<FindingId>,
    byId: map<FindingId, Finding>, sources: map<SourceId, Source>)
  {
    var support := Resolve(ids, byId);
    && r.answerClaim == claim
    && r.expectedAnswer == expected
    && r.claimMatch == Classified(CalculateSimilarity(claim, expected))
    && r.findingIds == ids
    && r.aggregate == AggregateConfidence(ConfidencesOf(support))
    && NoDuplicates(r.sourceIds)
    && (forall s :: s in r.sourceIds <==> s in AllSourceIds(support))
    && r.status == (if exists s :: s in r.sourceIds && s !in sources then Error
                    else if r.meetsPolicy then Verified else Speculative)
    && (r.status == Error ==>
          && r.notes.MissingSourceIds?
          && forall s :: s in r.notes.ids <==> s in r.sourceIds && s !in sources)
    && (r.status == Verified ==> r.notes == SupportedBy(|support|, r.aggregate))
    && (r.status == Speculative ==> r.notes == NeedsHigherConfidence(r.aggregate))
    && r.breakdown.Some? && |r.breakdown.value| == |support|
    && (forall j :: 0 <= j < |support| ==> r.breakdown.value[j] == BreakdownOf(support[j]))
  }

  /** When no id is unknown, the support lists exactly the cited findings, in citation order. */
  lemma ResolveAll(ids: seq<FindingId>, fs: seq<Finding>)
    requires NotIn(ids, IndexById(fs).Keys) == []
    ensures |Resolve(ids, IndexById(fs))| == |ids|
    ensures forall j :: 0 <= j < |ids| ==> Resolve(ids, IndexById(fs))[j].id == ids[j]
  {
    var byId := IndexById(fs);
    NotInMembers(ids, byId.Keys);
    forall i | 0 <= i < |ids| ensures ids[i] in byId {
      assert ids[i] in ids;
    }
    ResolveKnown(ids, byId);
  }

  /** Everything after the supporting ids are known to be non-empty: resolution,
      aggregation, the policy verdict and the source check. */
  method CheckSupport(
    claim: string, expected: string, ids: seq<FindingId>,
    byId: map<FindingId, Finding>, sources: map<SourceId, Source>, promptVersion: string)
    returns (r: TraceResult)
    ensures r.meetsPolicy <==> MeetsPolicy(r.aggregate)
    ensures r.status == Verified ==> r.meetsPolicy && forall s :: s in r.sourceIds ==> s in sources
    ensures NotIn(ids, byId.Keys) != [] ==> r == TraceErrorResult(UnknownFindingIds(NotIn(ids, byId.Keys)))
    ensures NotIn(ids, byId.Keys) == [] ==>
      && IsSupportVerdict(r, claim, expected, ids, byId, sources)
      && (ids != [] ==> r.aggregate != None)
      && r.promptVersion == Some(promptVersion)
  {
    var support, missing := ResolveSupport(ids, byId);
    if missing != [] {
      return TraceErrorResult(UnknownFindingIds(missing));
    }
    NotInMembers(ids, byId.Keys);
    assert forall i :: 0 <= i < |ids| ==> ids[i] in byId by {
      forall i | 0 <= i < |ids| ensures ids[i] in byId {
        assert ids[i] in ids;
      }
    }
    ResolveKnown(ids, byId);

    // Confidences and cited source ids.
    var confidences := ConfidencesOf(support);
    var allSourceIds := CollectSourceIds(support);
    var uniqueSourceIds := Deduplicate(allSourceIds);

    // Aggregate confidence and the policy verdict.
    var aggregate := AggregateConfidence(confidences);
    var meetsPolicy := aggregate == Some(H) || aggregate == Some(M);
    var status: Status, notes: Notes;
    if meetsPolicy {
      status, notes := Verified, SupportedBy(|support|, aggregate);
    } else {
      status, notes := Speculative, NeedsHigherConfidence(aggregate);
    }

    // Every cited source must exist.
    var missingSources := NotIn(uniqueSourceIds, sources.Keys);
    NotInMembers(uniqueSourceIds, sources.Keys);
    if missingSources != [] {
      status, notes := Error, MissingSourceIds(missingSources);
    }
    assert missingSources != [] <==> exists s :: s in uniqueSourceIds && s !in sources by {
      if s :| s in uniqueSourceIds && s !in sources {
        assert s in missingSources;
      }
      if missingSources != [] {
        assert missingSources[0] in missingSources;
      }
    }

    var breakdown := BuildBreakdown(support);
    r := TraceResult(claim, expected, Classified(CalculateSimilarity(claim, expected)),
                     ids, uniqueSourceIds, aggregate, meetsPolicy, Some(breakdown),
                     status, notes, Some(promptVersion));
  }

  /** Validates that the headline answer is supported by H/M-confidence findings
      whose cited sources all exist. */
  method ValidateTraceability(report: Report) returns (r: TraceResult)
    ensures r.meetsPolicy <==> MeetsPolicy(r.aggregate)
    ensures r.status == Verified ==>
      && report.sources.Some? && r.meetsPolicy
      && forall s :: s in r.sourceIds ==> s in report.sources.value
    ensures FirstMissingField(report).Some? ==>
      r == TraceErrorResult(MissingRequiredField(FirstMissingField(report).value))
    ensures FirstMissingField(report).None? && Claim(report) == "" ==>
      r == TraceErrorResult(NoAnswerClaim)
    ensures FirstMissingField(report).None? && Claim(report) != "" && report.executiveSummary.value == [] ==>
      r == TraceErrorResult(NoExecutiveSummary)
    ensures HasClaimAndHeadline(report) && SupportIds(report) == [] ==>
      && r.status == Speculative && r.notes == NoSupportingFindings
      && r.aggregate == None && !r.meetsPolicy
      && r.findingIds == [] && r.sourceIds == [] && r.breakdown == None
      && r.answerClaim == Claim(report) && r.expectedAnswer == ExpectedText(Headline(report))
      && r.claimMatch == NotReported && r.promptVersion == Some(PromptVersion(report))
    ensures HasClaimAndHeadline(report) && SupportIds(report) != [] ==>
      var unknown := NotIn(SupportIds(report), IndexById(report.keyFindings.value).Keys);
      && (unknown != [] ==> r == TraceErrorResult(UnknownFindingIds(unknown)))
      && (unknown == [] ==>
            && r.aggregate != None
            && IsSupportVerdict(r, Claim(report), ExpectedText(Headline(report)), SupportIds(report),
                                IndexById(report.keyFindings.value), report.sources.value)
            && r.promptVersion == Some(PromptVersion(report)))
  {
    if report.executiveSummary.None? {
      return TraceErrorResult(MissingRequiredField(ExecutiveSummaryField));
    }
    if report.keyFindings.None? {
      return TraceErrorResult(MissingRequiredField(KeyFindingsField));
    }
    if report.sources.None? {
      return TraceErrorResult(MissingRequiredField(SourcesField));
    }
    if report.meta.None? {
      return TraceErrorResult(MissingRequiredField(MetaField));
    }
    if report.meta.value.traceabilityData.None? {
      return TraceErrorResult(MissingRequiredField(TraceabilityDataField));
    }
    var summary := report.executiveSummary.value;
    var findings := report.keyFindings.value;
    var sources := report.sources.value;
    var data := report.meta.value.traceabilityData.value;
    var claim := data.answerClaim;
    var ids := data.supportingFindingIds;

    if claim == "" {
      return TraceErrorResult(NoAnswerClaim);
    }
    if summary == [] {
      return TraceErrorResult(NoExecutiveSummary);
    }
    var expected := ExpectedText(summary[0]);

    if ids == [] {
      return TraceResult(claim, expected, NotReported, [], [], None, false, None,
                         Speculative, NoSupportingFindings, Some(PromptVersion(report)));
    }

    var byId := IndexById(findings);
    r := CheckSupport(claim, expected, ids, byId, sources, PromptVersion(report));
  }
}
