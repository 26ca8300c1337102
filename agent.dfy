/** The orchestration workflow of the course advisor.

    A per-request `AgentState` goes through four nodes along fixed edges:
    the router classifies the question, the conditional edge picks exactly one
    of course retrieval or web search, that node writes its own context field,
    and the answer node merges the contexts and writes the final answer.  Each
    node returns a one-field update that the run merges into the state.

    The language model, the web-search provider and the course retriever's
    similarity ranking are collaborators given as functions; a failure they
    raise is an `Err` carrying its message. */
module Agent {
  import opened Wrappers
  import opened Text
  import RagEngine

  /** The per-request record. */
  datatype AgentState = AgentState(
    question: string,
    queryType: string,
    courseContext: string,
    webContext: string,
    finalAnswer: string)

  /** The state `query` starts from: only the question is set. */
  function Initial(question: string): (s: AgentState)
    ensures s.question == question
    ensures forall f :: Get(s, f) == ""
  {
    AgentState(question, "", "", "", "")
  }

  /** The fields a node may write.  `question` is not among them. */
  datatype Field = QueryType | CourseContext | WebContext | FinalAnswer

  /** What a node returns: a dictionary with exactly one key. */
  datatype Update = Update(field: Field, value: string)

  function Get(s: AgentState, f: Field): string {
    match f
    case QueryType => s.queryType
    case CourseContext => s.courseContext
    case WebContext => s.webContext
    case FinalAnswer => s.finalAnswer
  }

  /** Merges a node's update into the state: the written field takes the new
      value and every other field, the question included, keeps its own. */
  function Apply(s: AgentState, u: Update): (t: AgentState)
    ensures t.question == s.question
    ensures Get(t, u.field) == u.value
    ensures forall f :: f != u.field ==> Get(t, f) == Get(s, f)
  {
    match u.field
    case QueryType => s.(queryType := u.value)
    case CourseContext => s.(courseContext := u.value)
    case WebContext => s.(webContext := u.value)
    case FinalAnswer => s.(finalAnswer := u.value)
  }

  /** The language model: a prompt in, the response's content out. */
  type Llm = string -> Result<string>
  /** The Tavily search: a query and a maximum number of results in, the
      `content` of each result out, in the provider's order. */
  type WebProvider = (string, nat) -> Result<seq<string>>

  /** What a run depends on besides the state: the agent's fields. */
  datatype Env = Env(
    llm: Llm,
    tavilyAvailable: bool,
    tavily: WebProvider,
    rag: RagEngine.Index)

  /* ---------------- web search ---------------- */

  const WebUnavailableMessage := "Web search is currently unavailable. Please check your Tavily API key."
  const WebErrorPrefix := "Web search error: "
  const MaxResults: nat := 3

  /** `search_web`: never fails.  Without a Tavily key it answers a fixed
      message; a provider failure becomes a message naming the failure; on
      success the result contents are joined by newlines. */
  function SearchWeb(available: bool, tavily: WebProvider, query: string): (r: string)
    ensures !available ==> r == WebUnavailableMessage
    ensures available && tavily(query, MaxResults).Err? ==>
      r == WebErrorPrefix + tavily(query, MaxResults).error
    ensures available && tavily(query, MaxResults).Ok? ==>
      r == Join("\n", tavily(query, MaxResults).value)
  {
    if !available then WebUnavailableMessage
    else
      match tavily(query, MaxResults)
      case Err(e) => WebErrorPrefix + e
      case Ok(results) => Join("\n", results)
  }

  /** Without a key the provider is never consulted: any two providers give
      the same answer. */
  lemma SearchWebUnavailableIgnoresProvider(p: WebProvider, q: WebProvider, query: string)
    ensures SearchWeb(false, p, query) == SearchWeb(false, q, query)
  {
  }

  /** On success every result's content appears in the answer, in provider
      order, one line break apart. */
  lemma SearchWebKeepsResults(tavily: WebProvider, query: string, i: nat)
    requires tavily(query, MaxResults).Ok?
    requires i < |tavily(query, MaxResults).value|
    ensures var results := tavily(query, MaxResults).value;
      var o := JoinOffset("\n", results, i);
      && OccursAt(SearchWeb(true, tavily, query), results[i], o)
      && (i + 1 < |results| ==> OccursAt(SearchWeb(true, tavily, query), "\n", o + |results[i]|))
  {
    var results := tavily(query, MaxResults).value;
    JoinAt("\n", results, i);
    if i + 1 < |results| {
      JoinSeparatorAt("\n", results, i);
    }
  }

  /* ---------------- the router ---------------- */

  const RouterPromptHead := "Classify the following user question as either \"course\" or \"general\":\n\nQuestion: "
  const RouterPromptTail := "\n\nReturn only one word: \"course\" or \"general\""

  /** The classification prompt; it embeds the question. */
  function RouterPrompt(question: string): (p: string)
    ensures Contains(p, question)
  {
    ContainsMiddle(RouterPromptHead, question, RouterPromptTail);
    RouterPromptHead + question + RouterPromptTail
  }

  /** `response.content.strip().lower()`. */
  function Normalize(raw: string): (r: string)
    ensures |r| <= |raw|
    ensures forall k :: 0 <= k < |r| ==> !('A' <= r[k] <= 'Z')
    ensures r == [] || (!IsSpace(r[0]) && !IsSpace(r[|r| - 1]))
  {
    var t := Strip(raw);
    if t == [] then Lower(t)
    else
      LowerCharKeepsSpace(t[0]);
      LowerCharKeepsSpace(t[|t| - 1]);
      Lower(t)
  }

  lemma LowerCharKeepsSpace(c: char)
    ensures IsSpace(LowerChar(c)) == IsSpace(c)
  {
  }

  /** A normalized label is its own normalization: it has no surrounding
      whitespace and no upper-case letter. */
  lemma NormalizeIdempotent(raw: string)
    ensures Normalize(Normalize(raw)) == Normalize(raw)
  {
    var t := Strip(raw);
    var l := Lower(t);
    if l != [] {
      LowerCharKeepsSpace(t[0]);
      LowerCharKeepsSpace(t[|t| - 1]);
    }
    StripIsCore([], l, []);
    assert [] + l + [] == l;
    LowerIdempotent(t);
  }

  /** The router: asks the model to classify the question and writes the
      normalized response into `query_type`, and nothing else. */
  function RouterNode(env: Env, s: AgentState): (r: Result<Update>)
    ensures env.llm(RouterPrompt(s.question)).Err? ==> r == Err(env.llm(RouterPrompt(s.question)).error)
    ensures env.llm(RouterPrompt(s.question)).Ok? ==>
      r == Ok(Update(QueryType, Normalize(env.llm(RouterPrompt(s.question)).value)))
  {
    match env.llm(RouterPrompt(s.question))
    case Err(e) => Err(e)
    case Ok(response) => Ok(Update(QueryType, Normalize(response)))
  }

  /** Any spelling of `course` (any letter case) between whitespace
      normalizes to `course`... */
  lemma NormalizeCourseFrom(raw: string, i: nat, j: nat)
    requires i <= j <= |raw|
    requires AllSpace(raw[..i]) && AllSpace(raw[j..])
    requires Lower(raw[i..j]) == "course"
    ensures Normalize(raw) == "course"
  {
    var core := raw[i..j];
    assert |core| == 6;
    assert LowerChar(core[0]) == 'c' && LowerChar(core[5]) == 'e';
    assert !IsSpace(core[0]) && !IsSpace(core[5]);
    assert raw == raw[..i] + core + raw[j..];
    StripIsCore(raw[..i], core, raw[j..]);
  }

  /** ...and every normalized response is the lower-casing of the raw
      response's middle, with only whitespace around it. */
  lemma NormalizeShape(raw: string, verdict: string)
    requires Normalize(raw) == verdict
    ensures var i := LeadingSpace(raw);
      && i + |verdict| <= |raw|
      && AllSpace(raw[..i]) && AllSpace(raw[i + |verdict|..])
      && Lower(raw[i..i + |verdict|]) == verdict
  {
    StripParts(raw);
    assert |Lower(Strip(raw))| == |Strip(raw)|;
  }

  /** A raw response equal to `course` up to letter case. */
  lemma LowerIsCourse(core: string)
    requires |core| == 6
    requires forall k :: 0 <= k < 6 ==> LowerChar(core[k]) == "course"[k]
    ensures Lower(core) == "course"
  {
  }

  /** So `"Course"`, `" course \n"` and `"COURSE"` all select the course
      branch. */
  lemma NormalizeTitleCase()
    ensures Normalize("Course") == "course"
  {
    var title := "Course";
    LowerIsCourse(title);
    assert title[..0] == [] && title[0..6] == title && title[6..] == [];
    NormalizeCourseFrom(title, 0, 6);
  }

  lemma NormalizeUpperCase()
    ensures Normalize("COURSE") == "course"
  {
    var upper := "COURSE";
    LowerIsCourse(upper);
    assert upper[..0] == [] && upper[0..6] == upper && upper[6..] == [];
    NormalizeCourseFrom(upper, 0, 6);
  }

  lemma NormalizePadded()
    ensures Normalize(" course \n") == "course"
  {
    var padded := " course \n";
    LowerIsCourse("course");
    assert padded[..1] == [' '] && padded[1..7] == "course" && padded[7..] == [' ', '\n'];
    assert AllSpace(padded[..1]) && AllSpace(padded[7..]);
    NormalizeCourseFrom(padded, 1, 7);
  }

  /* ---------------- the nodes and the edges ---------------- */

  /** The graph's nodes; `End` is LangGraph's END. */
  datatype Node = Router | CourseRetrieval | WebSearch | GenerateAnswer | End

  /** `route_condition`: course retrieval exactly when the lower-cased
      `query_type` is `course`; every other value goes to web search. */
  function RouteCondition(s: AgentState): (n: Node)
    ensures n == CourseRetrieval || n == WebSearch
    ensures n == CourseRetrieval <==> Lower(s.queryType) == "course"
  {
    if Lower(s.queryType) == "course" then CourseRetrieval else WebSearch
  }

  /** After the router, lower-casing again in the edge changes nothing: the
      course branch is taken exactly when the normalized response is
      `course`. */
  lemma RouteAfterRouter(s: AgentState, raw: string)
    ensures RouteCondition(s.(queryType := Normalize(raw))) == CourseRetrieval <==> Normalize(raw) == "course"
  {
    LowerIdempotent(Strip(raw));
  }

  /** `retrieve_course_info`: the retriever's chunks for the question, joined;
      fails with the not-ready error while the engine has no retriever. */
  function RetrieveCourseInfo(env: Env, query: string): (r: Result<string>)
    ensures r.Err? <==> env.rag.retriever.None?
    ensures r.Err? ==> r.error == RagEngine.NotReadyMessage
    ensures r.Ok? ==> r.value == RagEngine.GetCourseInfo(RagEngine.Query(env.rag, query).value)
  {
    match RagEngine.Query(env.rag, query)
    case Err(e) => Err(e)
    case Ok(docs) => Ok(RagEngine.GetCourseInfo(docs))
  }

  /** The course node writes `course_context` and nothing else. */
  function CourseRetrievalNode(env: Env, s: AgentState): (r: Result<Update>)
    ensures r.Ok? ==> r.value.field == CourseContext
    ensures r.Err? <==> env.rag.retriever.None?
    ensures r.Err? ==> r.error == RagEngine.NotReadyMessage
    ensures r.Ok? ==> r.value.value == RetrieveCourseInfo(env, s.question).value
  {
    match RetrieveCourseInfo(env, s.question)
    case Err(e) => Err(e)
    case Ok(context) => Ok(Update(CourseContext, context))
  }

  /** The web node writes `web_context` and nothing else; it cannot fail. */
  function WebSearchNode(env: Env, s: AgentState): (u: Update)
    ensures u.field == WebContext
    ensures u.value == SearchWeb(env.tavilyAvailable, env.tavily, s.question)
  {
    Update(WebContext, SearchWeb(env.tavilyAvailable, env.tavily, s.question))
  }

  const CourseHeader := "Course Information:\n"
  const GeneralHeader := "\n\nGeneral Information:\n"

  /** The context the answer node hands to the model: both sections under
      their headers, course first, when both contexts are non-empty, and
      otherwise the one that is non-empty (or nothing). */
  function MergeContexts(course: string, web: string): (r: string)
    ensures r == "" <==> course == "" && web == ""
    ensures course == "" ==> r == web
    ensures web == "" ==> r == course
    ensures course != "" && web != "" ==>
      && OccursAt(r, CourseHeader, 0)
      && OccursAt(r, course, |CourseHeader|)
      && OccursAt(r, GeneralHeader, |CourseHeader| + |course|)
      && OccursAt(r, web, |CourseHeader| + |course| + |GeneralHeader|)
      && |r| == |CourseHeader| + |course| + |GeneralHeader| + |web|
  {
    if course != "" && web != "" then CourseHeader + course + GeneralHeader + web
    else course + web
  }

  /** Neither context is lost by the merge. */
  lemma MergeKeepsBoth(course: string, web: string)
    ensures Contains(MergeContexts(course, web), course)
    ensures Contains(MergeContexts(course, web), web)
  {
    var r := MergeContexts(course, web);
    if course != "" && web != "" {
      assert OccursAt(r, course, |CourseHeader|);
      assert OccursAt(r, web, |CourseHeader| + |course| + |GeneralHeader|);
    } else {
      ContainsMiddle([], course, web);
      ContainsMiddle(course, web, []);
      assert [] + course + web == r;
      assert course + web + [] == r;
    }
  }

  const AnswerPromptHead := "You are IntelliCourse, a helpful university course advisor. Answer the student's question based on the context provided.\n\nContext: "
  const AnswerPromptMiddle := "\n\nQuestion: "
  const AnswerPromptTail := "\n\nProvide a clear, helpful answer. If the context doesn't contain enough information, say so politely."

  /** The answer prompt; it embeds the context and the question. */
  function AnswerPrompt(context: string, question: string): (p: string)
    ensures Contains(p, context)
    ensures Contains(p, question)
  {
    ContainsBothMiddles(AnswerPromptHead, context, AnswerPromptMiddle, question, AnswerPromptTail);
    AnswerPromptHead + context + AnswerPromptMiddle + question + AnswerPromptTail
  }

  /** The answer node: asks the model with the merged context and writes its
      response into `final_answer`, and nothing else. */
  function GenerateAnswerNode(env: Env, s: AgentState): (r: Result<Update>)
    ensures var prompt := AnswerPrompt(MergeContexts(s.courseContext, s.webContext), s.question);
      && (env.llm(prompt).Err? ==> r == Err(env.llm(prompt).error))
      && (env.llm(prompt).Ok? ==> r == Ok(Update(FinalAnswer, env.llm(prompt).value)))
  {
    var prompt := AnswerPrompt(MergeContexts(s.courseContext, s.webContext), s.question);
    match env.llm(prompt)
    case Err(e) => Err(e)
    case Ok(response) => Ok(Update(FinalAnswer, response))
  }

  /** The field a node writes. */
  function Writes(n: Node): Field
    requires n != End
  {
    match n
    case Router => QueryType
    case CourseRetrieval => CourseContext
    case WebSearch => WebContext
    case GenerateAnswer => FinalAnswer
  }

  /** Runs one node.  Each node writes only its own field, and only the web
      node cannot fail. */
  function Step(env: Env, n: Node, s: AgentState): (r: Result<Update>)
    requires n != End
    ensures r.Ok? ==> r.value.field == Writes(n)
    ensures n == WebSearch ==> r.Ok?
  {
    match n
    case Router => RouterNode(env, s)
    case CourseRetrieval => CourseRetrievalNode(env, s)
    case WebSearch => Ok(WebSearchNode(env, s))
    case GenerateAnswer => GenerateAnswerNode(env, s)
  }

  /** Distance to `End` along the edges. */
  function Rank(n: Node): nat {
    match n
    case Router => 3
    case CourseRetrieval => 2
    case WebSearch => 2
    case GenerateAnswer => 1
    case End => 0
  }

  /** The fixed edges: the router's conditional edge, both retrieval nodes to
      the answer node, the answer node to `End`.  Every edge moves closer to
      `End`. */
  function Next(n: Node, s: AgentState): (m: Node)
    requires n != End
    ensures Rank(m) < Rank(n)
    ensures n == Router ==> m == RouteCondition(s)
    ensures n != Router ==> m == (if n == GenerateAnswer then End else GenerateAnswer)
  {
    match n
    case Router => RouteCondition(s)
    case CourseRetrieval => GenerateAnswer
    case WebSearch => GenerateAnswer
    case GenerateAnswer => End
  }

  /** A compiled graph's node table: the update each node returns on a
      state.  The run consults it only for nodes other than `End`. */
  type NodeTable = (Node, AgentState) -> Result<Update>

  /** The agent's node table: each node writes only its own field. */
  function Nodes(env: Env): (nodes: NodeTable)
    ensures forall n, s :: n != End ==> nodes(n, s) == Step(env, n, s)
    ensures forall n, s :: n != End && nodes(n, s).Ok? ==> nodes(n, s).value.field == Writes(n)
  {
    (n, s) => if n == End then Err("END runs no node") else Step(env, n, s)
  }

  /** The graph's semantics: from node `n` in state `s`, run the node, merge
      its update, follow the edge; the first failure ends the run. */
  function RunFrom(nodes: NodeTable, n: Node, s: AgentState): Result<AgentState>
    decreases Rank(n)
  {
    if n == End then Ok(s)
    else
      match nodes(n, s)
      case Err(e) => Err(e)
      case Ok(u) => RunFrom(nodes, Next(n, Apply(s, u)), Apply(s, u))
  }

  /** The nodes a run from `n` enters, the failing one included. */
  function TraceFrom(nodes: NodeTable, n: Node, s: AgentState): seq<Node>
    decreases Rank(n)
  {
    if n == End then []
    else
      match nodes(n, s)
      case Err(_) => [n]
      case Ok(u) => [n] + TraceFrom(nodes, Next(n, Apply(s, u)), Apply(s, u))
  }

  /** One step of the graph semantics from a node other than `End`. */
  lemma RunFromStep(nodes: NodeTable, n: Node, s: AgentState)
    requires n != End
    ensures var step := nodes(n, s);
      && (step.Err? ==> RunFrom(nodes, n, s) == Err(step.error) && TraceFrom(nodes, n, s) == [n])
      && (step.Ok? ==>
            var s' := Apply(s, step.value);
            && RunFrom(nodes, n, s) == RunFrom(nodes, Next(n, s'), s')
            && TraceFrom(nodes, n, s) == [n] + TraceFrom(nodes, Next(n, s'), s'))
  {
  }

  /** When every node writes only its own field, a run keeps the question, and
      only the router writes `query_type`. */
  lemma {:induction false} RunFromKeeps(nodes: NodeTable, n: Node, s: AgentState)
    requires forall m, t :: m != End && nodes(m, t).Ok? ==> nodes(m, t).value.field == Writes(m)
    decreases Rank(n)
    ensures n == End ==> RunFrom(nodes, n, s) == Ok(s)
    ensures RunFrom(nodes, n, s).Ok? ==> RunFrom(nodes, n, s).value.question == s.question
    ensures RunFrom(nodes, n, s).Ok? && n != Router ==> RunFrom(nodes, n, s).value.queryType == s.queryType
  {
    if n != End {
      RunFromStep(nodes, n, s);
      var step := nodes(n, s);
      if step.Ok? {
        var s' := Apply(s, step.value);
        RunFromKeeps(nodes, Next(n, s'), s');
      }
    }
  }

  /** A run enters its starting node first, never enters `End`, and enters no
      more nodes than the distance to `End`. */
  lemma {:induction false} TraceFromShape(nodes: NodeTable, n: Node, s: AgentState)
    decreases Rank(n)
    ensures TraceFrom(nodes, n, s) == [] <==> n == End
    ensures TraceFrom(nodes, n, s) != [] ==> TraceFrom(nodes, n, s)[0] == n
    ensures End !in TraceFrom(nodes, n, s)
    ensures |TraceFrom(nodes, n, s)| <= Rank(n)
  {
    if n != End {
      RunFromStep(nodes, n, s);
      var step := nodes(n, s);
      if step.Ok? {
        var s' := Apply(s, step.value);
        TraceFromShape(nodes, Next(n, s'), s');
      }
    }
  }

  /** One iteration of the interpreter keeps its two invariants, with `goal`
      and `trace` the run and the trace from the entry node, or ends the run
      with the step's error. */
  lemma InvokeStep(nodes: NodeTable, node: Node, state: AgentState, visited: seq<Node>,
                   goal: Result<AgentState>, trace: seq<Node>)
    requires node != End
    requires RunFrom(nodes, node, state) == goal
    requires visited + TraceFrom(nodes, node, state) == trace
    ensures var step := nodes(node, state);
      && (step.Err? ==> Err(step.error) == goal && visited + [node] == trace)
      && (step.Ok? ==>
            var s' := Apply(state, step.value);
            && RunFrom(nodes, Next(node, s'), s') == goal
            && (visited + [node]) + TraceFrom(nodes, Next(node, s'), s') == trace)
  {
    RunFromStep(nodes, node, state);
    var step := nodes(node, state);
    if step.Ok? {
      var s' := Apply(state, step.value);
      var rest := TraceFrom(nodes, Next(node, s'), s');
      assert (visited + [node]) + rest == visited + ([node] + rest);
    }
  }

  /** The graph interpreter: runs nodes along the edges from the entry node
      until `End`, merging each update into the state in turn. */
  method Invoke(nodes: NodeTable, entry: Node, init: AgentState) returns (r: Result<AgentState>, ghost visited: seq<Node>)
    ensures r == RunFrom(nodes, entry, init)
    ensures visited == TraceFrom(nodes, entry, init)
  {
    var node := entry;
    var state := init;
    visited := [];
    while node != End
      invariant RunFrom(nodes, node, state) == RunFrom(nodes, entry, init)
      invariant visited + TraceFrom(nodes, node, state) == TraceFrom(nodes, entry, init)
      decreases Rank(node)
    {
      var step := nodes(node, state);
      InvokeStep(nodes, node, state, visited, RunFrom(nodes, entry, init), TraceFrom(nodes, entry, init));
      visited := visited + [node];
      if step.Err? {
        return Err(step.error), visited;
      }
      state := Apply(state, step.value);
      node := Next(node, state);
    }
    assert visited + [] == visited;
    r := Ok(state);
  }

  /** The workflow written straight through, without nodes or updates: the
      reference the graph is checked against. */
  function Workflow(env: Env, question: string): Result<AgentState>
  {
    match env.llm(RouterPrompt(question))
    case Err(e) => Err(e)
    case Ok(raw) =>
      var queryType := Normalize(raw);
      if queryType == "course" then
        match RetrieveCourseInfo(env, question)
        case Err(e) => Err(e)
        case Ok(course) =>
          match env.llm(AnswerPrompt(course, question))
          case Err(e) => Err(e)
          case Ok(answer) => Ok(AgentState(question, queryType, course, "", answer))
      else
        var web := SearchWeb(env.tavilyAvailable, env.tavily, question);
        match env.llm(AnswerPrompt(web, question))
        case Err(e) => Err(e)
        case Ok(answer) => Ok(AgentState(question, queryType, "", web, answer))
  }

  /** The answer node is the last one before `End`. */
  lemma RunFromAnswer(env: Env, s: AgentState)
    ensures GenerateAnswerNode(env, s).Err? ==> RunFrom(Nodes(env), GenerateAnswer, s) == Err(GenerateAnswerNode(env, s).error)
    ensures GenerateAnswerNode(env, s).Ok? ==> RunFrom(Nodes(env), GenerateAnswer, s) == Ok(Apply(s, GenerateAnswerNode(env, s).value))
  {
    assert Step(env, GenerateAnswer, s) == GenerateAnswerNode(env, s);
    if GenerateAnswerNode(env, s).Ok? {
      assert Next(GenerateAnswer, Apply(s, GenerateAnswerNode(env, s).value)) == End;
    }
  }

  /** The answer node is the last node a run enters. */
  lemma AnswerTrace(env: Env, s: AgentState)
    ensures TraceFrom(Nodes(env), GenerateAnswer, s) == [GenerateAnswer]
  {
    assert Step(env, GenerateAnswer, s) == GenerateAnswerNode(env, s);
    if GenerateAnswerNode(env, s).Ok? {
      assert Next(GenerateAnswer, Apply(s, GenerateAnswerNode(env, s).value)) == End;
    }
  }

  /** The course branch of a run, after the router wrote `course`. */
  lemma CourseBranch(env: Env, s1: AgentState)
    requires s1.courseContext == "" && s1.webContext == ""
    ensures RetrieveCourseInfo(env, s1.question).Err? ==>
      RunFrom(Nodes(env), CourseRetrieval, s1) == Err(RetrieveCourseInfo(env, s1.question).error)
    ensures RetrieveCourseInfo(env, s1.question).Ok? ==>
      var course := RetrieveCourseInfo(env, s1.question).value;
      var reply := env.llm(AnswerPrompt(course, s1.question));
      RunFrom(Nodes(env), CourseRetrieval, s1) ==
        if reply.Err? then Err(reply.error) else Ok(s1.(courseContext := course, finalAnswer := reply.value))
  {
    assert Step(env, CourseRetrieval, s1) == CourseRetrievalNode(env, s1);
    match RetrieveCourseInfo(env, s1.question)
    case Err(e) =>
    case Ok(course) =>
      var s2 := Apply(s1, Update(CourseContext, course));
      assert Next(CourseRetrieval, s2) == GenerateAnswer;
      assert MergeContexts(s2.courseContext, s2.webContext) == course;
      RunFromAnswer(env, s2);
  }

  /** The nodes the course branch enters: the answer node follows unless the
      engine is not ready. */
  lemma CourseTrace(env: Env, s1: AgentState)
    ensures TraceFrom(Nodes(env), CourseRetrieval, s1) ==
      if env.rag.retriever.None? then [CourseRetrieval] else [CourseRetrieval, GenerateAnswer]
  {
    assert Step(env, CourseRetrieval, s1) == CourseRetrievalNode(env, s1);
    match RetrieveCourseInfo(env, s1.question)
    case Err(e) =>
    case Ok(course) =>
      var s2 := Apply(s1, Update(CourseContext, course));
      assert Next(CourseRetrieval, s2) == GenerateAnswer;
      AnswerTrace(env, s2);
  }

  /** The web branch of a run, after the router wrote anything but `course`. */
  lemma WebBranch(env: Env, s1: AgentState)
    requires s1.courseContext == "" && s1.webContext == ""
    ensures var web := SearchWeb(env.tavilyAvailable, env.tavily, s1.question);
      var reply := env.llm(AnswerPrompt(web, s1.question));
      RunFrom(Nodes(env), WebSearch, s1) ==
        if reply.Err? then Err(reply.error) else Ok(s1.(webContext := web, finalAnswer := reply.value))
  {
    var web := SearchWeb(env.tavilyAvailable, env.tavily, s1.question);
    assert Step(env, WebSearch, s1) == Ok(Update(WebContext, web));
    var s2 := Apply(s1, Update(WebContext, web));
    assert Next(WebSearch, s2) == GenerateAnswer;
    assert MergeContexts(s2.courseContext, s2.webContext) == web;
    RunFromAnswer(env, s2);
  }

  /** The nodes the web branch enters: the web node never stops the run. */
  lemma WebTrace(env: Env, s1: AgentState)
    ensures TraceFrom(Nodes(env), WebSearch, s1) == [WebSearch, GenerateAnswer]
  {
    var web := SearchWeb(env.tavilyAvailable, env.tavily, s1.question);
    assert Step(env, WebSearch, s1) == Ok(Update(WebContext, web));
    var s2 := Apply(s1, Update(WebContext, web));
    assert Next(WebSearch, s2) == GenerateAnswer;
    AnswerTrace(env, s2);
  }

  /** The router's step from `query`'s initial state: a model failure ends
      the run there; otherwise the run goes on, with `query_type` written,
      from the node the route picks. */
  lemma RouterStep(env: Env, question: string)
    ensures var s0, reply := Initial(question), env.llm(RouterPrompt(question));
      && (reply.Err? ==> RunFrom(Nodes(env), Router, s0) == Err(reply.error))
      && (reply.Ok? ==>
            var s1 := s0.(queryType := Normalize(reply.value));
            var n := if Normalize(reply.value) == "course" then CourseRetrieval else WebSearch;
            RunFrom(Nodes(env), Router, s0) == RunFrom(Nodes(env), n, s1))
  {
    var s0 := Initial(question);
    assert Step(env, Router, s0) == RouterNode(env, s0);
    if env.llm(RouterPrompt(question)).Ok? {
      var raw := env.llm(RouterPrompt(question)).value;
      assert Apply(s0, Update(QueryType, Normalize(raw))) == s0.(queryType := Normalize(raw));
      RouteAfterRouter(s0, raw);
    }
  }

  /** The nodes entered from the router: the router alone when its model
      fails, otherwise the router followed by the branch the route picks. */
  lemma RouterTrace(env: Env, question: string)
    ensures var s0, reply := Initial(question), env.llm(RouterPrompt(question));
      && (reply.Err? ==> TraceFrom(Nodes(env), Router, s0) == [Router])
      && (reply.Ok? ==>
            var s1 := s0.(queryType := Normalize(reply.value));
            var n := if Normalize(reply.value) == "course" then CourseRetrieval else WebSearch;
            TraceFrom(Nodes(env), Router, s0) == [Router] + TraceFrom(Nodes(env), n, s1))
  {
    var s0 := Initial(question);
    assert Step(env, Router, s0) == RouterNode(env, s0);
    if env.llm(RouterPrompt(question)).Ok? {
      var raw := env.llm(RouterPrompt(question)).value;
      assert Apply(s0, Update(QueryType, Normalize(raw))) == s0.(queryType := Normalize(raw));
      RouteAfterRouter(s0, raw);
    }
  }

  /** Running the graph from `query`'s initial state is the straight-through
      workflow. */
  lemma {:induction false} GraphIsWorkflow(env: Env, question: string)
    ensures RunFrom(Nodes(env), Router, Initial(question)) == Workflow(env, question)
  {
    RouterStep(env, question);
    var reply := env.llm(RouterPrompt(question));
    if reply.Ok? {
      var s1 := Initial(question).(queryType := Normalize(reply.value));
      if Normalize(reply.value) == "course" {
        CourseBranch(env, s1);
      } else {
        WebBranch(env, s1);
      }
    }
  }

  /** A run whose router model fails enters the router only. */
  lemma RunTraceRouterFails(env: Env, question: string)
    requires env.llm(RouterPrompt(question)).Err?
    ensures TraceFrom(Nodes(env), Router, Initial(question)) == [Router]
  {
    RouterTrace(env, question);
  }

  /** A run routed to the course branch enters the router and the course node,
      and then the answer node unless the engine is not ready. */
  lemma RunTraceCourse(env: Env, question: string)
    requires env.llm(RouterPrompt(question)).Ok?
    requires Normalize(env.llm(RouterPrompt(question)).value) == "course"
    ensures TraceFrom(Nodes(env), Router, Initial(question)) ==
      if env.rag.retriever.None? then [Router, CourseRetrieval] else [Router, CourseRetrieval, GenerateAnswer]
  {
    RouterTrace(env, question);
    CourseTrace(env, Initial(question).(queryType := "course"));
  }

  /** A run routed anywhere else enters the router, the web node and the
      answer node. */
  lemma RunTraceWeb(env: Env, question: string)
    requires env.llm(RouterPrompt(question)).Ok?
    requires Normalize(env.llm(RouterPrompt(question)).value) != "course"
    ensures TraceFrom(Nodes(env), Router, Initial(question)) == [Router, WebSearch, GenerateAnswer]
  {
    RouterTrace(env, question);
    WebTrace(env, Initial(question).(queryType := Normalize(env.llm(RouterPrompt(question)).value)));
  }



  /** A completed run has at most one non-empty context, the one its branch
      wrote, a normalized `query_type` that names the branch, and the model's
      answer to a prompt embedding that context and the question. */
  lemma CompletedRun(env: Env, question: string)
    requires RunFrom(Nodes(env), Router, Initial(question)).Ok?
    ensures var s := RunFrom(Nodes(env), Router, Initial(question)).value;
      && s.question == question
      && s.queryType == Normalize(env.llm(RouterPrompt(question)).value)
      && (s.courseContext == "" || s.webContext == "")
      && (s.queryType == "course" ==> s.webContext == "" && Ok(s.courseContext) == RetrieveCourseInfo(env, question))
      && (s.queryType != "course" ==> s.courseContext == "" && s.webContext == SearchWeb(env.tavilyAvailable, env.tavily, question))
      && Ok(s.finalAnswer) == env.llm(AnswerPrompt(MergeContexts(s.courseContext, s.webContext), question))
  {
    GraphIsWorkflow(env, question);
    assert env.llm(RouterPrompt(question)).Ok?;
    var raw := env.llm(RouterPrompt(question)).value;
    if Normalize(raw) == "course" {
      var course := RetrieveCourseInfo(env, question).value;
      assert MergeContexts(course, "") == course;
    } else {
      var web := SearchWeb(env.tavilyAvailable, env.tavily, question);
      assert MergeContexts("", web) == web;
    }
  }

  /** Failures: a model failure in the router and a not-ready engine on the
      course branch end the run with that very error; on the web branch only
      the answer model can fail the run. */
  lemma RunErrors(env: Env, question: string)
    ensures env.llm(RouterPrompt(question)).Err? ==>
      RunFrom(Nodes(env), Router, Initial(question)) == Err(env.llm(RouterPrompt(question)).error)
    ensures (&& env.llm(RouterPrompt(question)).Ok?
             && Normalize(env.llm(RouterPrompt(question)).value) == "course"
             && env.rag.retriever.None?) ==>
      RunFrom(Nodes(env), Router, Initial(question)) == Err(RagEngine.NotReadyMessage)
    ensures env.llm(RouterPrompt(question)).Ok? && Normalize(env.llm(RouterPrompt(question)).value) != "course" ==>
      var web := SearchWeb(env.tavilyAvailable, env.tavily, question);
      (RunFrom(Nodes(env), Router, Initial(question)).Err? <==> env.llm(AnswerPrompt(web, question)).Err?)
  {
    GraphIsWorkflow(env, question);
  }

  /** A stand-in model for the scenarios below: it classifies `question` as
      `verdict` and answers any other prompt by echoing it. */
  function EchoModel(verdict: string, question: string): Llm {
    (p: string) => if p == RouterPrompt(question) then Ok(verdict) else Ok(p)
  }

  lemma EchoModelReplies(verdict: string, context: string, question: string)
    ensures EchoModel(verdict, question)(RouterPrompt(question)) == Ok(verdict)
    ensures EchoModel(verdict, question)(AnswerPrompt(context, question)) == Ok(AnswerPrompt(context, question))
  {
    // The answer prompt's fixed text is longer than the router prompt's.
    assert |AnswerPrompt(context, question)| > |RouterPrompt(question)|;
  }

  lemma NormalizeCourse()
    ensures Normalize("course") == "course"
  {
    LowerIsCourse("course");
    assert "course"[..0] == [] && "course"[0..6] == "course" && "course"[6..] == [];
    NormalizeCourseFrom("course", 0, 6);
  }

  lemma NormalizeGeneral()
    ensures Normalize("general") == "general"
  {
    StripFixed("general");
    LowerFixed("general");
  }

  /** With a classifier that says `course` and a retriever whose best match
      is a single chunk, the run's context is that chunk and the answer is
      the model's reply to the prompt embedding it. */
  lemma CourseRun(rag: RagEngine.Index, tavily: WebProvider, question: string, chunk: string)
    requires rag.retriever.Some? && rag.retriever.value.k >= 1
    requires rag.similarity(rag.retriever.value.store.chunks, question) == [RagEngine.Document(chunk)]
    ensures Workflow(Env(EchoModel("course", question), false, tavily, rag), question)
      == Ok(AgentState(question, "course", chunk, "", AnswerPrompt(chunk, question)))
  {
    var env := Env(EchoModel("course", question), false, tavily, rag);
    EchoModelReplies("course", chunk, question);
    NormalizeCourse();
    var docs := [RagEngine.Document(chunk)];
    assert RagEngine.Invoke(rag.retriever.value, rag.similarity, question) == docs;
    assert RagEngine.Contents(docs) == [chunk];
    assert RetrieveCourseInfo(env, question) == Ok(chunk);
  }

  /** With a classifier that says `general` and a provider that returns one
      result, the run's context is that result. */
  lemma GeneralRun(rag: RagEngine.Index, tavily: WebProvider, question: string, result: string)
    requires tavily(question, MaxResults) == Ok([result])
    ensures Workflow(Env(EchoModel("general", question), true, tavily, rag), question)
      == Ok(AgentState(question, "general", "", result, AnswerPrompt(result, question)))
  {
    var env := Env(EchoModel("general", question), true, tavily, rag);
    EchoModelReplies("general", result, question);
    NormalizeGeneral();
    assert Normalize("general") != "course";
    assert SearchWeb(true, tavily, question) == result;
    assert env.llm(AnswerPrompt(result, question)) == Ok(AnswerPrompt(result, question));
  }

  const PrerequisiteQuestion := "What are the prerequisites for CS301?"
  /** The retrieved chunk, spelled in pieces so that the course codes it
      names are visible to the proof. */
  const PrerequisiteChunk := "CS301 requires " + "CS101" + " and " + "MATH201" + "."

  /** A course question whose only retrieved chunk names the prerequisites
      gets an answer that carries them. */
  lemma CourseScenario(rag: RagEngine.Index, tavily: WebProvider)
    requires rag.retriever.Some? && rag.retriever.value.k >= 1
    requires rag.similarity(rag.retriever.value.store.chunks, PrerequisiteQuestion)
      == [RagEngine.Document(PrerequisiteChunk)]
    ensures var r := Workflow(Env(EchoModel("course", PrerequisiteQuestion), false, tavily, rag), PrerequisiteQuestion);
      && r.Ok?
      && Contains(r.value.finalAnswer, "CS101")
      && Contains(r.value.finalAnswer, "MATH201")
  {
    CourseRun(rag, tavily, PrerequisiteQuestion, PrerequisiteChunk);
    ContainsBothMiddles("CS301 requires ", "CS101", " and ", "MATH201", ".");
    ContainsTransitive(AnswerPrompt(PrerequisiteChunk, PrerequisiteQuestion), PrerequisiteChunk, "CS101");
    ContainsTransitive(AnswerPrompt(PrerequisiteChunk, PrerequisiteQuestion), PrerequisiteChunk, "MATH201");
  }

  const SalaryQuestion := "What is the average salary for software engineers?"
  const SalaryResult := "Average salary: " + "$95,000"

  /** A general question goes to the web, and the figure the search returns
      reaches the answer. */
  lemma GeneralScenario(rag: RagEngine.Index, tavily: WebProvider)
    requires tavily(SalaryQuestion, MaxResults) == Ok([SalaryResult])
    ensures var r := Workflow(Env(EchoModel("general", SalaryQuestion), true, tavily, rag), SalaryQuestion);
      && r.Ok?
      && Contains(r.value.finalAnswer, "$95,000")
  {
    GeneralRun(rag, tavily, SalaryQuestion, SalaryResult);
    ContainsMiddle("Average salary: ", "$95,000", "");
    assert "Average salary: " + "$95,000" + "" == SalaryResult;
    ContainsTransitive(AnswerPrompt(SalaryResult, SalaryQuestion), SalaryResult, "$95,000");
  }

  /** The agent: the model, the retrieval engine and the Tavily client. */
  class IntelliCourseAgent {
    const llm: Llm
    const ragEngine: RagEngine.RAGEngine
    const tavilyAvailable: bool
    const tavily: WebProvider

    /** Web search is enabled exactly when a non-empty `TAVILY_API_KEY` is
        set. */
    constructor (ragEngine: RagEngine.RAGEngine, llm: Llm, tavilyApiKey: Option<string>, tavily: WebProvider)
      ensures this.ragEngine == ragEngine && this.llm == llm && this.tavily == tavily
      ensures tavilyAvailable <==> tavilyApiKey.Some? && tavilyApiKey.value != ""
    {
      this.ragEngine := ragEngine;
      this.llm := llm;
      this.tavily := tavily;
      this.tavilyAvailable := tavilyApiKey.Some? && tavilyApiKey.value != "";
    }

    /** What a run depends on: the agent's fields and what the engine's
        queries see now. */
    function Environment(): Env
      reads this, ragEngine
    {
      Env(llm, tavilyAvailable, tavily, ragEngine.Snapshot())
    }

    /** `query`: runs the graph from the initial state and returns the final
        answer; any failure of the model or the retriever comes out as is. */
    method Query(question: string) returns (answer: Result<string>)
      ensures Workflow(Environment(), question).Ok? ==>
        answer == Ok(Workflow(Environment(), question).value.finalAnswer)
      ensures Workflow(Environment(), question).Err? ==>
        answer == Err(Workflow(Environment(), question).error)
    {
      var result, visited := Invoke(Nodes(Environment()), Router, Initial(question));
      GraphIsWorkflow(Environment(), question);
      if result.Err? {
        return Err(result.error);
      }
      answer := Ok(result.value.finalAnswer);
    }
  }
}
