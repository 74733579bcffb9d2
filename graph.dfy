/**
 * The report graph of backend/graph.py with the language-model calls and the
 * search provider as oracles: plan the sections, build every research section
 * (queries, one search round, write), render the finished sections as
 * context, write the remaining sections from that context, and compile the
 * report in plan order.
 */
module Graph {
  import opened Wrappers
  import opened Text
  import opened State
  import opened Utils

  /**
   * The calls the graph makes into code it cannot see. Each model call is a
   * function of the prompt fields it is given; the clock reading every
   * prompt also carries is not part of this model.
   */
  datatype Oracles = Oracles(
    // topic, report structure, number of queries -> planning queries
    planQueries: (string, string, nat) -> SearchQueries,
    // topic, report structure, search context, feedback -> planned sections
    planSections: (string, string, string, string) -> Sections,
    // topic, section description, number of queries -> section queries
    sectionQueries: (string, string, nat) -> SearchQueries,
    // topic, section name, section description, search context, current content -> content
    sectionWriter: (string, string, string, string, string) -> string,
    // topic, section name, section description, finished sections -> content
    introWriter: (string, string, string, string) -> string,
    search: SearchProvider)

  /** `num_queries` in `plan_report` and in `generate_queries`. */
  const PlanningQueries: nat := 2
  const QueriesPerSection: nat := 2

  /** The report structure handed to the planner (the dedented literal of `plan_report`). */
  const ReportStructure: string :=
    "\n(1) Introduction to the topic:\n    * Brief overview of matter at hand\n    * No research needed\n"
    + "(2) Main body sections:\n    * Research needed\n"
    + "    * Each section should focus on a sub-topic that helps answer the user's question\n"
    + "(3) Conclusion or summary:\n    * Should include key take-aways\n    * No research needed\n"

  /** `[query.search_query for query in queries]`. */
  function QueryStrings(qs: seq<SearchQuery>): (r: seq<string>)
    ensures |r| == |qs|
    ensures forall i :: 0 <= i < |qs| ==> r[i] == qs[i].searchQuery
  {
    seq(|qs|, i requires 0 <= i < |qs| => qs[i].searchQuery)
  }

  // ---------------------------------------------------------------- planning

  /** The queries the planner searches. */
  function PlanningQueryStrings(o: Oracles, topic: string): seq<string>
  {
    QueryStrings(o.planQueries(topic, ReportStructure, PlanningQueries).queries)
  }

  /** The sections the planner returns: it sees basic-depth results and an empty feedback. */
  function PlannedSections(o: Oracles, topic: string): seq<Section>
  {
    var context := SearchResultsText(Responses(o.search, PlanningQueryStrings(o, topic), Basic));
    o.planSections(topic, ReportStructure, context, "").sections
  }

  /**
   * `plan_report`: searches the planning queries at basic depth and returns
   * only the `sections` key. The report state has no `feedback` key, so the
   * planner always sees `""`.
   */
  method PlanReport(o: Oracles, s: ReportState) returns (u: ReportUpdate)
    ensures u.sections == Some(PlannedSections(o, s.topic))
    ensures u.finishedSectionsList == [] && u.finishedSectionsStr.None? && u.finishedReport.None?
  {
    var queries := QueryStrings(o.planQueries(s.topic, ReportStructure, PlanningQueries).queries);
    var searchResults := ExecuteSearches(o.search, queries, Basic);
    var planned := o.planSections(s.topic, ReportStructure, searchResults, "");
    u := ReportUpdate(Some(planned.sections), [], None, None);
  }

  // ------------------------------------------------------------ dispatching

  /** The sections whose `research` flag is `research`, in plan order. */
  function Where(ss: seq<Section>, research: bool): (r: seq<Section>)
    ensures |r| <= |ss|
  {
    if |ss| == 0 then []
    else Where(ss[..|ss| - 1], research) + (if ss[|ss| - 1].research == research then [ss[|ss| - 1]] else [])
  }

  /** The filter keeps exactly the sections with that flag. */
  lemma {:induction false} WhereMembers(ss: seq<Section>, research: bool)
    ensures forall x :: x in Where(ss, research) <==> x in ss && x.research == research
  {
    if |ss| > 0 {
      var init := ss[..|ss| - 1];
      WhereMembers(init, research);
      assert ss == init + [ss[|ss| - 1]];
    }
  }

  /** Filtering a concatenation filters each part. */
  lemma {:induction false} WhereAppend(a: seq<Section>, b: seq<Section>, research: bool)
    ensures Where(a + b, research) == Where(a, research) + Where(b, research)
    decreases |b|
  {
    if |b| == 0 {
      assert a + b == a;
    } else {
      var b' := b[..|b| - 1];
      assert (a + b)[..|a + b| - 1] == a + b';
      WhereAppend(a, b', research);
    }
  }

  /** The two filters split a plan: every section lands in exactly one of them. */
  lemma {:induction false} WherePartition(ss: seq<Section>)
    ensures multiset(Where(ss, true)) + multiset(Where(ss, false)) == multiset(ss)
    ensures |Where(ss, true)| + |Where(ss, false)| == |ss|
  {
    if |ss| > 0 {
      var init := ss[..|ss| - 1];
      var last := ss[|ss| - 1];
      WherePartition(init);
      var wt := Where(init, true);
      var wf := Where(init, false);
      MultisetSnoc(ss);
      if last.research {
        assert Where(ss, true) == wt + [last];
        assert multiset(wt + [last]) == multiset(wt) + multiset{last};
        assert Where(ss, false) == wf;
      } else {
        assert Where(ss, true) == wt;
        assert Where(ss, false) == wf + [last];
        assert multiset(wf + [last]) == multiset(wf) + multiset{last};
      }
    }
  }

  /** The planned section names are pairwise distinct. */
  predicate UniqueNames(ss: seq<Section>)
  {
    forall i, j :: 0 <= i < j < |ss| ==> ss[i].name != ss[j].name
  }

  /** Filtering keeps names distinct. */
  lemma {:induction false} WhereUnique(ss: seq<Section>, research: bool)
    requires UniqueNames(ss)
    ensures UniqueNames(Where(ss, research))
  {
    if |ss| > 0 {
      var init := ss[..|ss| - 1];
      var last := ss[|ss| - 1];
      WhereUnique(init, research);
      WhereMembers(init, research);
      var w := Where(init, research);
      forall x | x in w ensures x.name != last.name {
        var j :| 0 <= j < |init| && init[j] == x;
        assert ss[j] == x;
      }
    }
  }

  /** With distinct names, no name is in both waves. */
  lemma WavesShareNoName(ss: seq<Section>)
    requires UniqueNames(ss)
    ensures forall x, y :: x in Where(ss, true) && y in Where(ss, false) ==> x.name != y.name
  {
    WhereMembers(ss, true);
    WhereMembers(ss, false);
    forall x, y | x in Where(ss, true) && y in Where(ss, false) ensures x.name != y.name {
      var i :| 0 <= i < |ss| && ss[i] == x;
      var j :| 0 <= j < |ss| && ss[j] == y;
      assert i != j;
    }
  }

  /** `Send(node, arg)`: one task the framework runs with `arg` as its input state. */
  datatype Send = Send(node: string, arg: SectionState)

  const BuildSectionNode: string := "build_section"
  const IntroNode: string := "write_intro_and_conclusion"

  /** A task's input; the keys a `Send` does not give read as their empty value. */
  function TaskInput(topic: string, section: Section, searchIterations: int, finishedSectionsStr: string): (s: SectionState)
    ensures s.topic == topic && s.section == section
    ensures s.searchIterations == searchIterations && s.finishedSectionsStr == finishedSectionsStr
    ensures s.searchQueries == [] && s.sourceContentStr == "" && s.finishedSectionsList == []
  {
    SectionState(topic, section, [], searchIterations, "", [], finishedSectionsStr)
  }

  /** The sections a wave of tasks carries. */
  function SentSections(sends: seq<Send>): (r: seq<Section>)
    ensures |r| == |sends|
    ensures forall i :: 0 <= i < |sends| ==> r[i] == sends[i].arg.section
  {
    seq(|sends|, i requires 0 <= i < |sends| => sends[i].arg.section)
  }

  /**
   * `initiate_section_writing`: one `build_section` task per research
   * section, in plan order, with the report topic and no search done yet.
   */
  function InitiateSectionWriting(s: ReportState): (sends: seq<Send>)
    ensures SentSections(sends) == Where(s.sections, true)
    ensures forall i :: 0 <= i < |sends| ==>
      sends[i].node == BuildSectionNode && sends[i].arg.topic == s.topic
      && sends[i].arg.searchIterations == 0
  {
    var research := Where(s.sections, true);
    seq(|research|, i requires 0 <= i < |research| => Send(BuildSectionNode, TaskInput(s.topic, research[i], 0, "")))
  }

  /**
   * `initiate_intro_and_conclusion_writing`: one task per section that needs
   * no research, in plan order, all with the same finished-sections text.
   */
  function InitiateIntroAndConclusionWriting(s: ReportState): (sends: seq<Send>)
    ensures SentSections(sends) == Where(s.sections, false)
    ensures forall i :: 0 <= i < |sends| ==>
      sends[i].node == IntroNode && sends[i].arg.topic == s.topic
      && sends[i].arg.finishedSectionsStr == s.finishedSectionsStr
  {
    var direct := Where(s.sections, false);
    seq(|direct|, i requires 0 <= i < |direct| => Send(IntroNode, TaskInput(s.topic, direct[i], 0, s.finishedSectionsStr)))
  }

  /** Across the two waves every planned section is sent exactly once. */
  lemma WavesPartitionPlan(s: ReportState, t: ReportState)
    requires t.sections == s.sections
    ensures multiset(SentSections(InitiateSectionWriting(s))) + multiset(SentSections(InitiateIntroAndConclusionWriting(t)))
         == multiset(s.sections)
  {
    WherePartition(s.sections);
  }

  // --------------------------------------------------------- section builder

  /** `generate_queries`: replaces the task's queries with the model's, from the section's description. */
  function GenerateQueries(o: Oracles, s: SectionState): (r: SectionState)
    ensures r.searchQueries == o.sectionQueries(s.topic, s.section.description, QueriesPerSection).queries
    ensures r.(searchQueries := s.searchQueries) == s
  {
    s.(searchQueries := o.sectionQueries(s.topic, s.section.description, QueriesPerSection).queries)
  }

  /** The text one search round over `queries` produces: basic depth, formatted. */
  function SearchContext(o: Oracles, queries: seq<SearchQuery>): string
  {
    SearchResultsText(Responses(o.search, QueryStrings(queries), Basic))
  }

  /**
   * `search_web`: searches the query strings in query order and counts the
   * round; nothing else in the task changes.
   */
  method SearchWeb(o: Oracles, s: SectionState) returns (r: SectionState)
    ensures r.searchIterations == s.searchIterations + 1
    ensures r.sourceContentStr == SearchContext(o, s.searchQueries)
    ensures r.(searchIterations := s.searchIterations, sourceContentStr := s.sourceContentStr) == s
  {
    var queries := QueryStrings(s.searchQueries);
    var sourceContentStr := ExecuteSearches(o.search, queries);
    r := s.(sourceContentStr := sourceContentStr, searchIterations := s.searchIterations + 1);
  }

  /** Where `write_section` sends the task next. */
  datatype Goto = ToEnd | ToSearchWeb

  /** A node's update to the task together with its routing. */
  datatype Command = Command(state: SectionState, goto: Goto)

  /** The content the section writer produces for a task. */
  function WrittenContent(o: Oracles, s: SectionState): string
  {
    o.sectionWriter(s.topic, s.section.name, s.section.description, s.sourceContentStr, s.section.content)
  }

  /**
   * `write_section`: the writer's text replaces the section's content, the
   * finished list becomes exactly that section, and the task always ends
   * (the grading loop is disabled).
   */
  function WriteSection(o: Oracles, s: SectionState): (c: Command)
    ensures c.goto == ToEnd
    ensures c.state.finishedSectionsList == [c.state.section]
    ensures c.state.section == s.section.(content := WrittenContent(o, s))
    ensures c.state.(section := s.section, finishedSectionsList := s.finishedSectionsList) == s
  {
    var section := s.section.(content := WrittenContent(o, s));
    Command(s.(section := section, finishedSectionsList := [section]), ToEnd)
  }

  /** The section a builder task finishes with, from its input. */
  function BuiltSection(o: Oracles, topic: string, section: Section): (r: Section)
    ensures r.name == section.name && r.description == section.description && r.research == section.research
  {
    var queries := o.sectionQueries(topic, section.description, QueriesPerSection).queries;
    section.(content := o.sectionWriter(topic, section.name, section.description, SearchContext(o, queries), section.content))
  }

  /**
   * The `build_section` subgraph: generate queries, one search round, write,
   * end. Only the finished list leaves the subgraph.
   */
  method RunSectionBuilder(o: Oracles, input: SectionState) returns (final: SectionState, out: SectionOutputState)
    ensures final.searchIterations == input.searchIterations + 1
    ensures out == BuilderOutput(final)
    ensures out.finishedSectionsList == [BuiltSection(o, input.topic, input.section)]
  {
    var queried := GenerateQueries(o, input);
    var searched := SearchWeb(o, queried);
    var command := WriteSection(o, searched);
    final := command.state;
    out := BuilderOutput(final);
  }

  /** The section a `write_intro_and_conclusion` task finishes with. */
  function IntroSection(o: Oracles, topic: string, section: Section, finishedSectionsStr: string): (r: Section)
    ensures r.name == section.name && r.description == section.description && r.research == section.research
  {
    section.(content := o.introWriter(topic, section.name, section.description, finishedSectionsStr))
  }

  /** `write_intro_and_conclusion`: returns the section, rewritten from the finished sections. */
  function WriteIntroAndConclusion(o: Oracles, s: SectionState): (finished: seq<Section>)
    ensures |finished| == 1
    ensures finished[0].(content := s.section.content) == s.section
    ensures finished[0].content == o.introWriter(s.topic, s.section.name, s.section.description, s.finishedSectionsStr)
  {
    [IntroSection(o, s.topic, s.section, s.finishedSectionsStr)]
  }

  // -------------------------------------------------------------- compiling

  /** `format_sections_as_string`: renders the finished list and sets only `finished_sections_str`. */
  method FormatSectionsAsString(s: ReportState) returns (u: ReportUpdate)
    ensures u.finishedSectionsStr == Some(SectionsText(s.finishedSectionsList))
    ensures u.sections.None? && u.finishedSectionsList == [] && u.finishedReport.None?
  {
    var text := FormatSections(s.finishedSectionsList);
    u := ReportUpdate(None, [], Some(text), None);
  }

  /** `{section.name: section.content for section in finished}`: the last entry for a name wins. */
  function FinishedContents(finished: seq<Section>): (m: map<string, string>)
    ensures forall n :: n in m <==> exists x :: x in finished && x.name == n
  {
    if |finished| == 0 then map[]
    else
      var last := finished[|finished| - 1];
      var init := finished[..|finished| - 1];
      assert forall x :: x in finished <==> x in init || x == last;
      FinishedContents(init)[last.name := last.content]
  }

  /** A name's value is the content of the last finished entry with that name. */
  lemma {:induction false} FinishedContentsLast(finished: seq<Section>, j: nat)
    requires j < |finished|
    requires forall k :: j < k < |finished| ==> finished[k].name != finished[j].name
    ensures FinishedContents(finished)[finished[j].name] == finished[j].content
  {
    var init := finished[..|finished| - 1];
    if j < |finished| - 1 {
      FinishedContentsLast(init, j);
    }
  }

  /** Whatever the order, a name's value is the content of some entry with that name. */
  lemma {:induction false} FinishedContentsFrom(finished: seq<Section>, n: string)
    requires n in FinishedContents(finished)
    ensures exists x :: x in finished && x.name == n && x.content == FinishedContents(finished)[n]
  {
    var last := finished[|finished| - 1];
    var init := finished[..|finished| - 1];
    if last.name != n {
      FinishedContentsFrom(init, n);
      var x :| x in init && x.name == n && x.content == FinishedContents(init)[n];
      assert x in finished;
    }
  }

  /** With distinct names, an entry's name maps to that entry's content. */
  lemma FinishedContentsUnique(finished: seq<Section>, x: Section)
    requires UniqueNames(finished)
    requires x in finished
    ensures FinishedContents(finished)[x.name] == x.content
  {
    var j :| 0 <= j < |finished| && finished[j] == x;
    FinishedContentsLast(finished, j);
  }

  /**
   * With distinct names the lookup does not depend on the order in which
   * the tasks finished.
   */
  lemma FinishedContentsOrderFree(f: seq<Section>, g: seq<Section>)
    requires UniqueNames(f)
    requires multiset(f) == multiset(g)
    ensures FinishedContents(f) == FinishedContents(g)
  {
    forall x ensures x in f <==> x in g {
      assert x in f <==> x in multiset(f);
      assert x in g <==> x in multiset(g);
    }
    forall n | n in FinishedContents(g) ensures FinishedContents(f)[n] == FinishedContents(g)[n] {
      FinishedContentsFrom(g, n);
      var y :| y in g && y.name == n && y.content == FinishedContents(g)[n];
      FinishedContentsUnique(f, y);
    }
  }

  /** One planned section after compiling: its finished content if its name finished, else unchanged. */
  function CompileOne(s: Section, contents: map<string, string>): (r: Section)
    ensures r.name == s.name && r.description == s.description && r.research == s.research
    ensures s.name in contents ==> r.content == contents[s.name]
    ensures s.name !in contents ==> r == s
  {
    if s.name in contents then s.(content := contents[s.name]) else s
  }

  /** The planned sections after compiling, in plan order. */
  function Compiled(sections: seq<Section>, contents: map<string, string>): (r: seq<Section>)
    ensures |r| == |sections|
  {
    seq(|sections|, i requires 0 <= i < |sections| => CompileOne(sections[i], contents))
  }

  /** The contents of a list of sections, in order. */
  function Contents(sections: seq<Section>): (r: seq<string>)
    ensures |r| == |sections|
    ensures forall i :: 0 <= i < |sections| ==> r[i] == sections[i].content
  {
    seq(|sections|, i requires 0 <= i < |sections| => sections[i].content)
  }

  /** The report: the sections' contents joined by a blank line. */
  function ReportText(sections: seq<Section>): string
  {
    Join("\n\n", Contents(sections))
  }

  /**
   * `compile_report`: overwrites, in place and in plan order, the content of
   * every planned section whose name finished, then joins the contents.
   */
  method CompileReport(sections: array<Section>, finished: seq<Section>) returns (report: string)
    modifies sections
    ensures sections[..] == Compiled(old(sections[..]), FinishedContents(finished))
    ensures report == ReportText(sections[..])
  {
    var contents := FinishedContents(finished);
    for i := 0 to sections.Length
      invariant forall k :: 0 <= k < i ==> sections[k] == CompileOne(old(sections[k]), contents)
      invariant forall k :: i <= k < sections.Length ==> sections[k] == old(sections[k])
    {
      if sections[i].name in contents {
        sections[i] := sections[i].(content := contents[sections[i].name]);
      }
    }
    report := Join("\n\n", Contents(sections[..]));
  }

  /** A planned section whose name never finished keeps its content; no error is raised. */
  lemma CompiledKeepsUnfinished(sections: seq<Section>, finished: seq<Section>, i: nat)
    requires i < |sections|
    requires forall x :: x in finished ==> x.name != sections[i].name
    ensures Compiled(sections, FinishedContents(finished))[i] == sections[i]
  {
  }

  /** When a name finished twice, the later entry's content is the one compiled. */
  lemma CompiledLaterWins(sections: seq<Section>, before: seq<Section>, a: Section, b: Section, i: nat)
    requires i < |sections|
    requires a.name == sections[i].name && b.name == sections[i].name
    ensures Compiled(sections, FinishedContents(before + [a] + [b]))[i].content == b.content
  {
    FinishedContentsLast(before + [a] + [b], |before| + 1);
  }

  /** With distinct finished names, the compiled report does not depend on the finishing order. */
  lemma CompileOrderFree(sections: seq<Section>, f: seq<Section>, g: seq<Section>)
    requires UniqueNames(f)
    requires multiset(f) == multiset(g)
    ensures Compiled(sections, FinishedContents(f)) == Compiled(sections, FinishedContents(g))
    ensures ReportText(Compiled(sections, FinishedContents(f))) == ReportText(Compiled(sections, FinishedContents(g)))
  {
    FinishedContentsOrderFree(f, g);
  }

  // -------------------------------------------------------------- whole run

  /** `[f(s) for s in ss]`. */
  function MapSections(f: Section -> Section, ss: seq<Section>): (r: seq<Section>)
    ensures |r| == |ss|
    ensures forall i :: 0 <= i < |ss| ==> r[i] == f(ss[i])
  {
    seq(|ss|, i requires 0 <= i < |ss| => f(ss[i]))
  }

  /** Mapping one more section appends its image. */
  lemma MapSectionsSnoc(f: Section -> Section, ss: seq<Section>, i: nat)
    requires i < |ss|
    ensures MapSections(f, ss[..i + 1]) == MapSections(f, ss[..i]) + [f(ss[i])]
  {
  }

  /** What a builder task does to its section. */
  function Builder(o: Oracles, topic: string): Section -> Section
  {
    s => BuiltSection(o, topic, s)
  }

  /** Every researched section, built, in plan order. */
  function BuildAll(o: Oracles, topic: string, ss: seq<Section>): (r: seq<Section>)
    ensures |r| == |ss|
  {
    MapSections(Builder(o, topic), ss)
  }

  /** Every direct section, written from `context`, in plan order. */
  function IntroAll(o: Oracles, topic: string, context: string, ss: seq<Section>): (r: seq<Section>)
    ensures |r| == |ss|
  {
    seq(|ss|, i requires 0 <= i < |ss| => IntroSection(o, topic, ss[i], context))
  }

  /** Writing one more direct section appends it. */
  lemma IntroAllSnoc(o: Oracles, topic: string, context: string, ss: seq<Section>, i: nat)
    requires i < |ss|
    ensures IntroAll(o, topic, context, ss[..i + 1]) == IntroAll(o, topic, context, ss[..i]) + [IntroSection(o, topic, ss[i], context)]
  {
    assert IntroAll(o, topic, context, ss[..i + 1])[i] == IntroSection(o, topic, ss[i], context);
  }

  /** The researched sections of a run. */
  function ResearchedSections(o: Oracles, topic: string): seq<Section>
  {
    BuildAll(o, topic, Where(PlannedSections(o, topic), true))
  }

  /** The context the direct sections are written from: every researched section, rendered. */
  function IntroContext(o: Oracles, topic: string): string
  {
    SectionsText(ResearchedSections(o, topic))
  }

  /** The finished list of a run: the researched wave, then the direct wave. */
  function FinishedSections(o: Oracles, topic: string): seq<Section>
  {
    ResearchedSections(o, topic) + IntroAll(o, topic, IntroContext(o, topic), Where(PlannedSections(o, topic), false))
  }

  /** The report a run produces. */
  function PipelineReport(o: Oracles, topic: string): string
  {
    ReportText(Compiled(PlannedSections(o, topic), FinishedContents(FinishedSections(o, topic))))
  }

  /**
   * The `build_section` wave: every task of `initiate_section_writing`, run
   * one after another, each builder's output merged into the report state.
   */
  method RunResearchWave(o: Oracles, s: ReportState) returns (r: ReportState)
    ensures r == s.(finishedSectionsList := s.finishedSectionsList + BuildAll(o, s.topic, Where(s.sections, true)))
  {
    var sends := InitiateSectionWriting(s);
    var researched := Where(s.sections, true);
    r := s;
    for i := 0 to |sends|
      invariant r == s.(finishedSectionsList := s.finishedSectionsList + BuildAll(o, s.topic, researched[..i]))
    {
      var _, out := RunSectionBuilder(o, sends[i].arg);
      assert sends[i].arg.section == researched[i] && sends[i].arg.topic == s.topic;
      MapSectionsSnoc(Builder(o, s.topic), researched, i);
      AppendAssoc(s.finishedSectionsList, BuildAll(o, s.topic, researched[..i]), out.finishedSectionsList);
      r := Apply(r, FinishedUpdate(out.finishedSectionsList));
    }
    assert researched[..|sends|] == researched;
  }

  /**
   * The `write_intro_and_conclusion` wave: every task of
   * `initiate_intro_and_conclusion_writing`, each output merged in turn.
   */
  method RunDirectWave(o: Oracles, s: ReportState) returns (r: ReportState)
    ensures r == s.(finishedSectionsList := s.finishedSectionsList
                      + IntroAll(o, s.topic, s.finishedSectionsStr, Where(s.sections, false)))
  {
    var sends := InitiateIntroAndConclusionWriting(s);
    var direct := Where(s.sections, false);
    r := s;
    for i := 0 to |sends|
      invariant r == s.(finishedSectionsList := s.finishedSectionsList
                          + IntroAll(o, s.topic, s.finishedSectionsStr, direct[..i]))
    {
      var finished := WriteIntroAndConclusion(o, sends[i].arg);
      assert sends[i].arg == TaskInput(s.topic, direct[i], 0, s.finishedSectionsStr);
      IntroAllSnoc(o, s.topic, s.finishedSectionsStr, direct, i);
      AppendAssoc(s.finishedSectionsList, IntroAll(o, s.topic, s.finishedSectionsStr, direct[..i]), finished);
      r := Apply(r, FinishedUpdate(finished));
    }
    assert direct[..|sends|] == direct;
  }

  /** `compile_report` as a graph node: compiles the planned sections and sets the report. */
  method CompileNode(s: ReportState) returns (r: ReportState)
    ensures r == s.(sections := Compiled(s.sections, FinishedContents(s.finishedSectionsList)),
                    finishedReport := ReportText(Compiled(s.sections, FinishedContents(s.finishedSectionsList))))
  {
    var sections := new Section[|s.sections|](i requires 0 <= i < |s.sections| => s.sections[i]);
    assert sections[..] == s.sections;
    var report := CompileReport(sections, s.finishedSectionsList);
    r := Apply(s, ReportUpdate(Some(sections[..]), [], None, Some(report)));
  }

  /**
   * The report graph end to end, with each wave run one task after another
   * in plan order and its outputs merged as they finish.
   */
  method RunReport(o: Oracles, input: ReportInputState) returns (final: ReportState, output: ReportOutputState)
    ensures final.sections == Compiled(PlannedSections(o, input.topic), FinishedContents(FinishedSections(o, input.topic)))
    ensures final.finishedSectionsList == FinishedSections(o, input.topic)
    ensures final.finishedSectionsStr == IntroContext(o, input.topic)
    ensures final.finishedReport == PipelineReport(o, input.topic)
    ensures output == ReportOutput(final)
  {
    var topic := input.topic;
    var s := InitialState(input);
    var planned := PlanReport(o, s);
    s := Apply(s, planned);
    assert s == ReportState(topic, PlannedSections(o, topic), [], "", "");
    s := RunWaves(o, s);
    final := CompileNode(s);
    output := ReportOutput(final);
  }

  /**
   * From a planned state: the research wave, `format_sections_as_string`,
   * then the direct wave written from the rendered researched sections.
   */
  method RunWaves(o: Oracles, s: ReportState) returns (r: ReportState)
    requires s.finishedSectionsList == []
    ensures var researched := BuildAll(o, s.topic, Where(s.sections, true));
      r == s.(finishedSectionsList := researched + IntroAll(o, s.topic, SectionsText(researched), Where(s.sections, false)),
               finishedSectionsStr := SectionsText(researched))
  {
    var researched := BuildAll(o, s.topic, Where(s.sections, true));
    var context := SectionsText(researched);
    r := RunResearchWave(o, s);
    assert [] + researched == researched;
    assert r == s.(finishedSectionsList := researched);
    var formatted := FormatSectionsAsString(r);
    r := Apply(r, formatted);
    assert r == s.(finishedSectionsList := researched, finishedSectionsStr := context);
    r := RunDirectWave(o, r);
  }

  /** Every task of a run does exactly one search round. */
  method BuilderSearchesOnce(o: Oracles, s: ReportState, i: nat) returns (iterations: int)
    requires i < |InitiateSectionWriting(s)|
    ensures iterations == 1
  {
    var final, _ := RunSectionBuilder(o, InitiateSectionWriting(s)[i].arg);
    iterations := final.searchIterations;
  }

  /** The written content a planned section ends with. */
  function FinalContent(o: Oracles, topic: string, context: string, s: Section): string
  {
    if s.research then BuiltSection(o, topic, s).content else IntroSection(o, topic, s, context).content
  }

  /** Building keeps every section's name. */
  lemma BuildAllNames(o: Oracles, topic: string, ss: seq<Section>)
    ensures forall k :: 0 <= k < |ss| ==> BuildAll(o, topic, ss)[k].name == ss[k].name
  {
    forall k | 0 <= k < |ss| ensures BuildAll(o, topic, ss)[k].name == ss[k].name {
      assert BuildAll(o, topic, ss)[k] == BuiltSection(o, topic, ss[k]);
    }
  }

  /** Writing from the context keeps every section's name. */
  lemma IntroAllNames(o: Oracles, topic: string, context: string, ss: seq<Section>)
    ensures forall k :: 0 <= k < |ss| ==> IntroAll(o, topic, context, ss)[k].name == ss[k].name
  {
  }

  /** Sections named position by position like a list with distinct names have distinct names. */
  lemma SameNamesUnique(p: seq<Section>, ss: seq<Section>)
    requires |p| == |ss| && forall k :: 0 <= k < |ss| ==> p[k].name == ss[k].name
    requires UniqueNames(ss)
    ensures UniqueNames(p)
  {
    forall i, j | 0 <= i < j < |p| ensures p[i].name != p[j].name {
      assert p[i].name == ss[i].name && p[j].name == ss[j].name;
    }
  }

  /** Two lists with distinct names, and no name in both, have distinct names together. */
  lemma UniqueAppend(p: seq<Section>, q: seq<Section>)
    requires UniqueNames(p) && UniqueNames(q)
    requires forall i, j :: 0 <= i < |p| && 0 <= j < |q| ==> p[i].name != q[j].name
    ensures UniqueNames(p + q)
  {
    var f := p + q;
    forall i, j | 0 <= i < j < |f| ensures f[i].name != f[j].name {
      if j < |p| {
        assert f[i] == p[i] && f[j] == p[j];
      } else if |p| <= i {
        assert f[i] == q[i - |p|] && f[j] == q[j - |p|];
      } else {
        assert f[i] == p[i] && f[j] == q[j - |p|];
      }
    }
  }

  /** The two written waves of a plan with distinct names have distinct names together. */
  lemma WrittenWavesUnique(o: Oracles, topic: string, context: string, plan: seq<Section>)
    requires UniqueNames(plan)
    ensures UniqueNames(BuildAll(o, topic, Where(plan, true)) + IntroAll(o, topic, context, Where(plan, false)))
  {
    var wa := Where(plan, true);
    var wb := Where(plan, false);
    var a := BuildAll(o, topic, wa);
    var b := IntroAll(o, topic, context, wb);
    WhereUnique(plan, true);
    WhereUnique(plan, false);
    WavesShareNoName(plan);
    BuildAllNames(o, topic, wa);
    IntroAllNames(o, topic, context, wb);
    SameNamesUnique(a, wa);
    SameNamesUnique(b, wb);
    forall i, j | 0 <= i < |a| && 0 <= j < |b| ensures a[i].name != b[j].name {
      assert wa[i] in wa && wb[j] in wb;
    }
    UniqueAppend(a, b);
  }

  /** The entry a planned section's position in its wave gives it in the finished list. */
  lemma WrittenEntryAt(o: Oracles, topic: string, context: string, plan: seq<Section>, i: nat, k: nat)
    returns (x: Section)
    requires i < |plan|
    requires k < |Where(plan, plan[i].research)| && Where(plan, plan[i].research)[k] == plan[i]
    ensures x in BuildAll(o, topic, Where(plan, true)) + IntroAll(o, topic, context, Where(plan, false))
    ensures x.name == plan[i].name && x.content == FinalContent(o, topic, context, plan[i])
  {
    var a := BuildAll(o, topic, Where(plan, true));
    var b := IntroAll(o, topic, context, Where(plan, false));
    if plan[i].research {
      x := a[k];
      assert x == BuiltSection(o, topic, plan[i]);
      assert (a + b)[k] == x;
    } else {
      x := b[k];
      assert x == IntroSection(o, topic, plan[i], context);
      assert (a + b)[|a| + k] == x;
    }
  }

  /** Every planned section has a written entry with its name in the finished list. */
  lemma WrittenEntry(o: Oracles, topic: string, context: string, plan: seq<Section>, i: nat) returns (x: Section)
    requires i < |plan|
    ensures x in BuildAll(o, topic, Where(plan, true)) + IntroAll(o, topic, context, Where(plan, false))
    ensures x.name == plan[i].name && x.content == FinalContent(o, topic, context, plan[i])
  {
    var w := Where(plan, plan[i].research);
    WhereMembers(plan, plan[i].research);
    assert plan[i] in w;
    var k :| 0 <= k < |w| && w[k] == plan[i];
    x := WrittenEntryAt(o, topic, context, plan, i, k);
  }

  /** The compiled content of one planned section of a plan with distinct names. */
  lemma WrittenContentAt(o: Oracles, topic: string, context: string, plan: seq<Section>, i: nat)
    requires UniqueNames(plan)
    requires i < |plan|
    ensures var f := BuildAll(o, topic, Where(plan, true)) + IntroAll(o, topic, context, Where(plan, false));
      Compiled(plan, FinishedContents(f))[i].content == FinalContent(o, topic, context, plan[i])
  {
    var f := BuildAll(o, topic, Where(plan, true)) + IntroAll(o, topic, context, Where(plan, false));
    WrittenWavesUnique(o, topic, context, plan);
    var x := WrittenEntry(o, topic, context, plan, i);
    FinishedContentsUnique(f, x);
    var m := FinishedContents(f);
    assert plan[i].name in m;
    assert Compiled(plan, m)[i] == CompileOne(plan[i], m);
  }

  /** The written content of every planned section, in plan order. */
  function FinalContents(o: Oracles, topic: string, context: string, plan: seq<Section>): (r: seq<string>)
    ensures |r| == |plan|
    ensures forall i :: 0 <= i < |plan| ==> r[i] == FinalContent(o, topic, context, plan[i])
  {
    seq(|plan|, i requires 0 <= i < |plan| => FinalContent(o, topic, context, plan[i]))
  }

  /**
   * With distinct planned names, the report is every planned section's
   * written content in plan order: researched sections from their builder,
   * the others from the rendered researched sections.
   */
  lemma PipelineContents(o: Oracles, topic: string)
    requires UniqueNames(PlannedSections(o, topic))
    ensures var plan := PlannedSections(o, topic);
      Contents(Compiled(plan, FinishedContents(FinishedSections(o, topic))))
      == FinalContents(o, topic, IntroContext(o, topic), plan)
  {
    var plan := PlannedSections(o, topic);
    var context := IntroContext(o, topic);
    forall i | 0 <= i < |plan|
      ensures Compiled(plan, FinishedContents(FinishedSections(o, topic)))[i].content
           == FinalContent(o, topic, context, plan[i])
    {
      WrittenContentAt(o, topic, context, plan, i);
    }
  }
}
