/** The structured research report that both evaluators read.
    The top-level fields, `meta`, the traceability data and the prompt version
    are `Option`s, because the evaluators treat their absence specially (the
    quality scorer substitutes an empty collection, the traceability verifier
    reports an error). A source's date, the disagreements, the answer claim and
    the supporting ids hold the `""` or `[]` the evaluators substitute when
    they are absent. */
module ResearchReport {

  datatype Option<+T> = None | Some(value: T) {
    /** The value, or `default` when absent (Python's `dict.get(key, default)`). */
    function GetOr(default: T): T {
      match this
      case Some(v) => v
      case None => default
    }
  }

  /** Finding identifiers are the report's integer ids. */
  type FindingId = int

  /** Source identifiers are the keys of the report's `sources` mapping. */
  type SourceId = string

  /** A tag other than "H", "M" and "L"; those three are always read as `H`, `M` and `L`. */
  type OtherTag = t: string | t != "H" && t != "M" && t != "L" witness ""

  /** A finding's confidence tag; `Other` keeps any unexpected (or absent) tag representable. */
  datatype Confidence = H | M | L | Other(tag: OtherTag)

  datatype Finding = Finding(id: FindingId, text: string, confidence: Confidence, sourceIds: seq<SourceId>)

  /** A source; an absent `date` is the empty string. */
  datatype Source = Source(date: string)

  /** Only the stance matters: "uncertain" means unresolved. */
  datatype Disagreement = Disagreement(finalStance: string)

  /** `meta.traceability_data`; absent members default to "" and []. */
  datatype TraceabilityData = TraceabilityData(answerClaim: string, supportingFindingIds: seq<FindingId>)

  /** `meta`: absent disagreements default to []; the traceability data and the
      prompt version (`run_metadata.prompt_version`) may be absent. */
  datatype Meta = Meta(
    disagreements: seq<Disagreement>,
    traceabilityData: Option<TraceabilityData>,
    promptVersion: Option<string>)

  datatype Report = Report(
    executiveSummary: Option<seq<string>>,
    keyFindings: Option<seq<Finding>>,
    sources: Option<map<SourceId, Source>>,
    meta: Option<Meta>)
}
