/**
 * The records of the report graph (backend/state.py) and the way the graph
 * framework merges a node's update into the report state: every key is
 * overwritten except `finished_sections_list`, whose reducer is list
 * concatenation (`operator.add`).
 */
module State {
  import opened Wrappers

  /** One section of the report; `content` starts empty and is written once. */
  datatype Section = Section(name: string, description: string, research: bool, content: string)

  /** The planner's structured output. */
  datatype Sections = Sections(sections: seq<Section>)

  /** One web-search query produced by the model. */
  datatype SearchQuery = SearchQuery(searchQuery: string)

  /** The query generator's structured output. */
  datatype SearchQueries = SearchQueries(queries: seq<SearchQuery>)

  /** `Literal['pass', 'fail']`. */
  datatype Grade = Pass | Fail

  /** The evaluation model's structured output; the grading step that would use it is commented out. */
  datatype Feedback = Feedback(grade: Grade, followUpQueries: seq<SearchQuery>)

  /** The literal a grade is written as. */
  function GradeLiteral(g: Grade): string
  {
    match g
    case Pass => "pass"
    case Fail => "fail"
  }

  /** Validation of a `Literal['pass', 'fail']` field: only the two literals are accepted. */
  function ParseGrade(s: string): (r: Option<Grade>)
    ensures r == Some(Pass) <==> s == "pass"
    ensures r == Some(Fail) <==> s == "fail"
    ensures r.None? <==> s != "pass" && s != "fail"
  {
    if s == "pass" then Some(Pass)
    else if s == "fail" then Some(Fail)
    else None
  }

  /** Writing a grade and validating it gives the grade back. */
  lemma ParseGradeLiteral(g: Grade)
    ensures ParseGrade(GradeLiteral(g)) == Some(g)
  {
  }

  /** The graph's input: just the topic. */
  datatype ReportInputState = ReportInputState(topic: string)

  /** The graph's output: just the finished report. */
  datatype ReportOutputState = ReportOutputState(finishedReport: string)

  /** The report graph's state. A key the graph never wrote reads here as its empty value. */
  datatype ReportState = ReportState(
    topic: string,
    sections: seq<Section>,
    finishedSectionsList: seq<Section>,
    finishedSectionsStr: string,
    finishedReport: string)

  /** The private state of one section builder task. */
  datatype SectionState = SectionState(
    topic: string,
    section: Section,
    searchQueries: seq<SearchQuery>,
    searchIterations: int,
    sourceContentStr: string,
    finishedSectionsList: seq<Section>,
    finishedSectionsStr: string)

  /** What a section builder hands back to the report graph. */
  datatype SectionOutputState = SectionOutputState(finishedSectionsList: seq<Section>)

  /** The state the graph starts from, given its input. */
  function InitialState(input: ReportInputState): (s: ReportState)
    ensures s.topic == input.topic
    ensures s.sections == [] && s.finishedSectionsList == []
    ensures s.finishedSectionsStr == "" && s.finishedReport == ""
  {
    ReportState(input.topic, [], [], "", "")
  }

  /** The graph's output projection. */
  function ReportOutput(s: ReportState): (o: ReportOutputState)
    ensures o.finishedReport == s.finishedReport
  {
    ReportOutputState(s.finishedReport)
  }

  /** The builder subgraph's output projection: only `finished_sections_list` leaves it. */
  function BuilderOutput(s: SectionState): (o: SectionOutputState)
    ensures o.finishedSectionsList == s.finishedSectionsList
  {
    SectionOutputState(s.finishedSectionsList)
  }

  /**
   * A node's update to the report state: the keys it returns. An absent
   * key is `None`; for the accumulated list, an absent key and `[]` merge
   * the same way.
   */
  datatype ReportUpdate = ReportUpdate(
    sections: Option<seq<Section>>,
    finishedSectionsList: seq<Section>,
    finishedSectionsStr: Option<string>,
    finishedReport: Option<string>)

  /** An update that touches only the accumulated list. */
  function FinishedUpdate(finished: seq<Section>): ReportUpdate
  {
    ReportUpdate(None, finished, None, None)
  }

  /** The reducer of `finished_sections_list`: `operator.add` on lists. */
  function MergeFinished(current: seq<Section>, update: seq<Section>): (r: seq<Section>)
    ensures |r| == |current| + |update|
    ensures r[..|current|] == current && r[|current|..] == update
  {
    current + update
  }

  /** Applies an update: overwrite for plain keys, concatenation for the accumulated list. */
  function Apply(s: ReportState, u: ReportUpdate): (r: ReportState)
    ensures r.topic == s.topic
    ensures r.finishedSectionsList == MergeFinished(s.finishedSectionsList, u.finishedSectionsList)
    ensures r.sections == u.sections.GetOr(s.sections)
    ensures r.finishedSectionsStr == u.finishedSectionsStr.GetOr(s.finishedSectionsStr)
    ensures r.finishedReport == u.finishedReport.GetOr(s.finishedReport)
  {
    ReportState(
      s.topic,
      u.sections.GetOr(s.sections),
      MergeFinished(s.finishedSectionsList, u.finishedSectionsList),
      u.finishedSectionsStr.GetOr(s.finishedSectionsStr),
      u.finishedReport.GetOr(s.finishedReport))
  }

  /** Applies updates one after another, as the framework does at a join. */
  function ApplyAll(s: ReportState, us: seq<ReportUpdate>): ReportState
  {
    if |us| == 0 then s else Apply(ApplyAll(s, us[..|us| - 1]), us[|us| - 1])
  }

  /** All the lists of a sequence of updates, concatenated in order. */
  function ConcatFinished(us: seq<ReportUpdate>): seq<Section>
  {
    if |us| == 0 then [] else ConcatFinished(us[..|us| - 1]) + us[|us| - 1].finishedSectionsList
  }

  /**
   * Merging never overwrites the accumulated list: after any number of
   * updates it is the old list followed by every update's list, in order.
   */
  lemma {:induction false} ApplyAllAccumulates(s: ReportState, us: seq<ReportUpdate>)
    ensures ApplyAll(s, us).finishedSectionsList == s.finishedSectionsList + ConcatFinished(us)
    ensures ApplyAll(s, us).topic == s.topic
  {
    if |us| > 0 {
      ApplyAllAccumulates(s, us[..|us| - 1]);
    }
  }

  /** Merging a builder's output depends on nothing but its finished list. */
  lemma BuilderOutputHidesPrivateState(r: ReportState, a: SectionState, b: SectionState)
    requires a.finishedSectionsList == b.finishedSectionsList
    ensures Apply(r, FinishedUpdate(BuilderOutput(a).finishedSectionsList))
         == Apply(r, FinishedUpdate(BuilderOutput(b).finishedSectionsList))
    ensures Apply(r, FinishedUpdate(BuilderOutput(a).finishedSectionsList))
         == r.(finishedSectionsList := r.finishedSectionsList + a.finishedSectionsList)
  {
  }
}
