# UniCourse-Advisor orchestration core, in Dafny

This project models the decision logic of the IntelliCourse course advisor:

- the per-request `AgentState` record;
- the four-node workflow that classifies a question, routes it to exactly one of
  course-catalog retrieval or web search, and asks the language model for the
  final answer;
- the retrieval engine that builds its index from a directory of PDF files and
  answers similarity queries.

The language model, the Tavily web-search client, the PDF loader, the text
splitter and the embedding-plus-Chroma similarity search are collaborators. Each
is a function given to the model. A failure they raise is an `Err` carrying the
exception's message.

Files:

- `wrappers.dfy` (module `Wrappers`): `Option` and `Result`.
- `text.dfy` (module `Text`): the Python string operations the core uses.
  These are `str.strip()` with Python's whitespace set, `str.lower()`,
  `sep.join(...)`, `str.endswith(...)` and `str(n)`, with the contracts and
  lemmas the core relies on.
- `rag_engine.dfy` (module `RagEngine`): the class `RAGEngine`, whose
  `vectorstore` and `retriever` fields are updated in place by
  `LoadAndProcessDocuments` (a loop over the PDF files). It also holds the
  not-ready guard `QueryCourses` and the join `GetCourseInfo`.
- `agent.dfy` (module `Agent`): the state, the one-field updates a node returns,
  the node functions, the fixed edges, and a hand-written graph interpreter
  (`Invoke`, a loop from an entry node over a table of node functions, which
  `Nodes` fills with the agent's nodes). `Invoke` is proved equal to the
  graph's recursive run semantics (`RunFrom`). That semantics is proved equal to a
  straight-through reference (`Workflow`). The class `IntelliCourseAgent` holds
  the agent's fields and `Query`.

Two behaviours of the code worth noting:

- `query_type` holds whatever the normalised model output is, not only `course`
  or `general`. Anything but `course` takes the web branch.
- The course context is only as non-empty as the retriever's chunks. The code
  does not ensure that it is non-empty.

## Model

| member | source | states |
|---|---|---|
| `Text.Strip` | agent.py:70 | `strip()`: the result is the slice of the input that starts after its leading whitespace; only whitespace follows it; and it neither starts nor ends with whitespace (Python's `isspace` set) |
| `Text.IsSpace` | agent.py:70 | the whitespace `str.isspace()` recognises, which `strip()` removes; no digit and no ASCII letter is whitespace |
| `Text.StripIsCore` | agent.py:70 | for any split of the input into whitespace + core + whitespace, where the core has no whitespace at its ends, strip returns exactly that core |
| `Text.StripFixed` | agent.py:70 | a string without surrounding whitespace is left unchanged by strip |
| `Text.StripIdempotent` | agent.py:70 | stripping twice is stripping once |
| `Text.Lower` | agent.py:70 | `lower()`: same length, and every character is lower-cased in place |
| `Text.LowerIdempotent` | agent.py:125 | lower-casing twice is lower-casing once, so the edge's second `.lower()` is harmless |
| `Text.LowerFixed` | agent.py:70 | a string with no upper-case letter is left unchanged by lower-casing |
| `Text.EndsWithIff` | rag_engine.py:27 | `s.endswith(suffix)` holds exactly when `s` is some string followed by `suffix` |
| `Text.ContainsMiddle` | agent.py:58-67 | a piece placed between two others occurs in the concatenation (how a prompt embeds its arguments) |
| `Text.ContainsBothMiddles` | agent.py:97-105 | both inner pieces of a five-piece concatenation occur in it (the context and the question in the answer prompt) |
| `Text.ContainsThreeMiddles` | rag_engine.py:64 | all three inner pieces of a seven-piece concatenation occur in it (the three counts in the build message) |
| `Text.ContainsTransitive` | agent.py:97-105 | occurrence is transitive: text inside the context is inside the prompt |
| `Text.Join` | rag_engine.py:76 | `sep.join(parts)`: no parts give the empty string and one part gives that part |
| `Text.JoinOffsetNext` | agent.py:50 | in a join, consecutive parts start one part plus one separator apart |
| `Text.JoinAt` | agent.py:50 | `sep.join(parts)` holds every part at its offset, in input order, and the last part ends the string |
| `Text.JoinOccursAt` | rag_engine.py:76 | every part occurs in the join at its offset, and the last part ends it |
| `Text.JoinSeparatorAt` | rag_engine.py:76 | between consecutive parts the join holds exactly the separator |
| `Text.DecimalString` | rag_engine.py:64 | `str(n)` is a non-empty run of decimal digits with no leading zero |
| `Text.DecimalRoundTrip` | rag_engine.py:64 | reading `str(n)` back as a decimal number gives `n` |
| `RagEngine.Invoke` | rag_engine.py:58-62 | the retriever returns at most `k` chunks, in similarity order: a prefix of the ranking, cut at `k` or the whole ranking when shorter |
| `RagEngine.PdfFiles` | rag_engine.py:27 | a file name is selected exactly when it is in the listing and ends with `.pdf`; a one-name listing keeps its name exactly when it ends with `.pdf` |
| `RagEngine.PdfFilesAppend` | rag_engine.py:27 | the filter distributes over concatenation, so it keeps the listing's order and every occurrence |
| `RagEngine.LoadedPages` | rag_engine.py:32-39 | every loaded page comes from a successful load of one of the files |
| `RagEngine.LoadedPagesAppend` | rag_engine.py:32-39 | loading keeps every page of every file that loads, file after file and in order: the pages of a concatenated listing are the pages of its first part followed by those of its second |
| `RagEngine.LoadedPagesOne` | rag_engine.py:33-39 | one file contributes exactly the pages its load returned, and none when the load failed |
| `RagEngine.LoadedPagesEmpty` | rag_engine.py:32-42 | no page is loaded exactly when every PDF file either failed to load (the failure is skipped) or had no pages |
| `RagEngine.ProcessedIffSomePageLoaded` | rag_engine.py:41-62 | the index is built exactly when the directory exists and some `.pdf` file loads with at least one page |
| `RagEngine.LoadOutcomeReports` | rag_engine.py:22-42 | the directory is created exactly when it is missing; "no PDF files" is reported exactly when no listed name ends with `.pdf`; a build reports non-zero document and file counts (the chunk count is zero when the splitter returns no chunk) and no more files than the listing holds |
| `RagEngine.Message` | rag_engine.py:24-64 | the creation message names the directory, and the build message holds the chunk, document and file counts in decimal |
| `RagEngine.GetCourseInfo` | rag_engine.py:74-77 | an empty list of chunks gives the empty string |
| `RagEngine.Contents` | rag_engine.py:76 | the list of chunk texts has one entry per chunk, in order |
| `RagEngine.GetCourseInfoAt` | rag_engine.py:76 | every chunk's text appears verbatim in the course information at its own offset, and the last chunk's text ends it |
| `RagEngine.GetCourseInfoSeparatorAt` | rag_engine.py:76 | each chunk's text but the last is followed directly by `"\n\n"` and then by the next chunk's text, so the chunks appear in input order |
| `RagEngine.Query` | rag_engine.py:66-72 | the query on an index: fails with the not-ready message exactly when there is no retriever, and otherwise gives the retriever's chunks for the question |
| `RagEngine.RAGEngine.constructor` | rag_engine.py:8-15 | a new engine keeps its directories (by default `data/pdfs` and `vectorstore`), and has no vector store and no retriever |
| `RagEngine.RAGEngine.LoadAndProcessDocuments` | rag_engine.py:17-64 | outcome and message on each path. A missing directory, no `.pdf` file, or no page loaded leave the store and the retriever as they were. Otherwise the store is built from the split pages and the retriever is the top-3 retriever over it. The retriever/store invariant is kept |
| `RagEngine.RAGEngine.QueryCourses` | rag_engine.py:66-72 | fails with the not-ready `ValueError` message exactly when no retriever is set; otherwise returns the retriever's chunks for the question, at most 3 of them |
| `Agent.Apply` | agent.py:13-18 | merging a node's update writes its one field and leaves every other field, the question included, as it was |
| `Agent.Initial` | agent.py:149-155 | `query`'s initial state holds the question and every other field empty |
| `Agent.SearchWeb` | agent.py:43-52 | never fails. Without a key it gives the fixed unavailable message. A provider failure gives `"Web search error: "` plus the message. Success gives the contents joined by newlines. At most 3 results are asked for |
| `Agent.SearchWebUnavailableIgnoresProvider` | agent.py:45-46 | without a key the answer does not depend on the provider at all |
| `Agent.SearchWebKeepsResults` | agent.py:50 | on success every result's content occurs in the answer, in provider order, with a newline between consecutive results |
| `Agent.RouterPrompt` | agent.py:58-67 | the classification prompt embeds the question |
| `Agent.LowerCharKeepsSpace` | agent.py:70 | lower-casing a character neither creates nor removes whitespace |
| `Agent.Normalize` | agent.py:70 | `strip().lower()` is no longer than the response, holds no upper-case ASCII letter and neither starts nor ends with whitespace |
| `Agent.NormalizeIdempotent` | agent.py:70 | a normalised label (`strip().lower()`) normalises to itself |
| `Agent.RouterNode` | agent.py:54-73 | a model failure propagates unchanged. Otherwise the node writes only `query_type`, with the response trimmed and lower-cased |
| `Agent.NormalizeCourseFrom` | agent.py:69-73 | any letter-case spelling of `course` between whitespace normalises to `course` |
| `Agent.NormalizeShape` | agent.py:69-73 | every normalised response is the lower-cased middle of the raw response with only whitespace around it; with `NormalizeCourseFrom`, `course` arises from exactly the letter-case spellings of `course` between whitespace |
| `Agent.LowerIsCourse` | agent.py:70 | a six-letter string whose letters lower-case to `course` lower-cases to `course` |
| `Agent.NormalizeTitleCase` | agent.py:69-73 | `"Course"` normalises to `course` |
| `Agent.NormalizeUpperCase` | agent.py:69-73 | `"COURSE"` normalises to `course` |
| `Agent.NormalizePadded` | agent.py:69-73 | `" course \n"` normalises to `course` |
| `Agent.RouteCondition` | agent.py:124-129 | picks course retrieval exactly when the lower-cased `query_type` is `course`; every other value, `""` included, picks web search |
| `Agent.RouteAfterRouter` | agent.py:124-129 | after the router, the course branch is taken exactly when the normalised response is `course` |
| `Agent.RetrieveCourseInfo` | agent.py:38-41 | fails with the not-ready error exactly when the engine has no retriever; otherwise gives the joined chunk texts |
| `Agent.CourseRetrievalNode` | agent.py:75-78 | writes only `course_context`, with the retrieved course information; retrieval failures propagate |
| `Agent.WebSearchNode` | agent.py:80-83 | writes only `web_context`, with the web-search text; cannot fail |
| `Agent.MergeContexts` | agent.py:91-95 | empty exactly when both contexts are empty. If one context is empty, the result is the other. If both are non-empty, the result is `"Course Information:\n"`, then the course context, then `"\n\nGeneral Information:\n"`, then the web context, in that order |
| `Agent.MergeKeepsBoth` | agent.py:91-95 | both contexts occur in the merged context |
| `Agent.AnswerPrompt` | agent.py:97-105 | the answer prompt embeds the context and the question |
| `Agent.GenerateAnswerNode` | agent.py:85-108 | a model failure propagates unchanged. Otherwise the node writes only `final_answer`, with the model's response to the prompt built from the merged context and the question |
| `Agent.Next` | agent.py:131-143 | the edges: the router goes where the route condition says, both retrieval nodes go to the answer node, and the answer node goes to END; every edge moves closer to END |
| `Agent.Step` | agent.py:115-118 | each node writes only its own field, and the web-search node cannot fail |
| `Agent.Nodes` | agent.py:115-118 | the compiled graph's node table runs each registered node, and every node in it writes only its own field |
| `Agent.RunFromKeeps` | agent.py:115-143 | in the graph semantics (`RunFrom`) over any node table whose nodes write only their own fields, running from a node keeps the question, only a run through the router writes `query_type`, and a run from END is the state itself |
| `Agent.TraceFromShape` | agent.py:115-143 | the nodes a run enters (`TraceFrom`, over any node table): the starting node first, never END, and at most as many nodes as the node's distance to END |
| `Agent.Invoke` | agent.py:121-156 | the interpreter loop's result and the nodes it entered are those of the graph semantics from the entry node (`query` enters at the router) |
| `Agent.RunFromAnswer` | agent.py:141-143 | a run from the answer node ends with its failure or with its update merged, since its edge goes to END |
| `Agent.AnswerTrace` | agent.py:143 | the answer node is the last node a run enters |
| `Agent.CourseBranch` | agent.py:141 | from the course node, the run writes the course context and then the answer to the prompt built on it; a not-ready engine ends the run with its error |
| `Agent.CourseTrace` | agent.py:141 | from the course node the run enters the answer node next, unless the engine is not ready, when it stops at the course node |
| `Agent.WebBranch` | agent.py:142 | from the web node, the run writes the web context and then the answer to the prompt built on it |
| `Agent.WebTrace` | agent.py:142 | from the web node the run always enters the answer node next |
| `Agent.RouterStep` | agent.py:115-138 | a router model failure ends the run with that error; otherwise the run continues, with `query_type` written, from the retrieval node the route picks |
| `Agent.RouterTrace` | agent.py:115-138 | a router model failure stops the run at the router; otherwise the router is followed by the nodes entered from the retrieval node the route picks |
| `Agent.GraphIsWorkflow` | agent.py:115-143 | the graph run equals the straight-through workflow |
| `Agent.RunTraceRouterFails` | agent.py:115-143 | when the router's model fails, the run enters the router only |
| `Agent.RunTraceCourse` | agent.py:115-143 | a run routed to `course` enters the router, the course node and then the answer node, or stops at the course node when the engine is not ready |
| `Agent.RunTraceWeb` | agent.py:115-143 | a run routed anywhere else enters the router, the web node and the answer node |
| `Agent.CompletedRun` | agent.py:149-157 | a completed run keeps the question and has a normalised `query_type`. At most one context is non-empty: the one its branch wrote. The final answer is the model's reply to the prompt with the merged context |
| `Agent.RunErrors` | agent.py:147-157 | a router model failure and a not-ready engine on the course branch end the run with that very error. On the web branch only the answer model can fail the run |
| `Agent.EchoModelReplies` | agent.py:97-105 | the scenarios' stand-in model answers the classification prompt with the given label and echoes the answer prompt |
| `Agent.NormalizeCourse` | agent.py:69-73 | `"course"` normalises to itself |
| `Agent.NormalizeGeneral` | agent.py:69-73 | `"general"` normalises to itself |
| `Agent.CourseRun` | agent.py:147-157 | with a `course` classification and a single retrieved chunk, the final state holds that chunk as course context and the model's reply to the prompt embedding it |
| `Agent.GeneralRun` | agent.py:147-157 | with a `general` classification and a single search result, the final state holds that result as web context and the model's reply to the prompt embedding it |
| `Agent.CourseScenario` | agent.py:147-157 | CS301 scenario: the answer contains `CS101` and `MATH201` |
| `Agent.GeneralScenario` | agent.py:147-157 | salary scenario: the answer contains `$95,000` |
| `Agent.IntelliCourseAgent.constructor` | agent.py:21-36 | web search is enabled exactly when a non-empty Tavily key is set |
| `Agent.IntelliCourseAgent.Query` | agent.py:147-157 | returns the final answer of the run from the initial state, or the error that ended it |

## Left out

- The language model, the Tavily client, Chroma, the HuggingFace embeddings, the
  PDF loader and the text splitter are foreign library calls. They are
  parameters. The splitter receives the chunk size 1000 and overlap 200, and
  Tavily receives the result limit 3. What these libraries compute is not
  modelled.
- Failures of the splitter, of building the Chroma store, or of a retriever
  query (the embedding service) are not modelled. Those calls are total in the
  model.
- The filesystem (`os.path.exists`, `os.makedirs`, `os.listdir`, path joining)
  becomes a flag and a listing. The directory creation shows only as the
  `CreatedDirectory` outcome. The loader takes the file name within the PDF
  directory.
- Environment reads and `load_dotenv`: the Tavily key is a constructor argument.
  The Google key is not modelled.
- The Tavily client is always given as a function. The model consults it only
  when `tavilyAvailable` holds, which is when the source has a client.
- The prompts keep their leading and closing text. The source's indentation and
  the router prompt's two lines describing the categories are dropped; neither
  affects any property stated here.
- `Text.Lower`: only the ASCII letters A–Z are lower-cased, while Python's
  `str.lower` also folds non-ASCII letters. A response with non-ASCII letters
  never normalises to `course` either way.
- The vector store holds exactly the chunks of the build that created it.
  `Chroma.from_documents` with a persist directory adds the chunks to a
  collection that may already hold chunks from an earlier build in this
  process or a previous one, and so indexes those too. That accumulation and
  the persisted collection are not modelled.
- The LangGraph `StateGraph` compile and invoke machinery is replaced by the
  explicit interpreter over the fixed edges.
- The `print` logging, all of `main.py` (HTTP endpoints, the startup hook and
  the error mapping), and concurrency across requests.
- Repeated-query determinism: it holds by construction, since collaborators are
  functions. No lemma states it.
