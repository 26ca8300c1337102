/** The retrieval adapter: a course-catalog index built once from a directory of
    PDF files, queried by similarity, and the text join the agent feeds on.

    The foreign pieces are parameters: the PDF loader (one call per file, which
    may fail), the text splitter, and the similarity ranking that the embedding
    model and the Chroma store compute together. The filesystem is a flag (does
    the PDF directory exist) and the directory listing. */
module RagEngine {
  import opened Wrappers
  import opened Text

  /** LangChain's `Document`, reduced to its text: a loaded page or a chunk. */
  datatype Document = Document(pageContent: string)

  const DefaultPdfDirectory := "data/pdfs"
  const DefaultPersistDirectory := "vectorstore"
  const PdfSuffix := ".pdf"
  const ChunkSize: nat := 1000
  const ChunkOverlap: nat := 200
  /** Number of chunks the retriever returns per query. */
  const TopK: nat := 3
  const NotReadyMessage := "Please load documents first using load_and_process_documents()"

  /** Loads one PDF file (named within the PDF directory) as its pages. */
  type Loader = string -> Result<seq<Document>>
  /** Splits pages into chunks of a given size and overlap. */
  type Splitter = (seq<Document>, nat, nat) -> seq<Document>
  /** Ranks the indexed chunks by similarity to a query, most similar first. */
  type Similarity = (seq<Document>, string) -> seq<Document>

  /** The Chroma store: the chunks one build added to it and where it
      persists them. */
  datatype VectorStore = VectorStore(chunks: seq<Document>, persistDirectory: string)

  /** A similarity retriever over a store that returns at most `k` chunks. */
  datatype Retriever = Retriever(store: VectorStore, k: nat)

  /** `retriever.invoke(question)`: the `k` chunks most similar to the
      question, most similar first (fewer when the store holds fewer). */
  function Invoke(retriever: Retriever, similarity: Similarity, question: string): (r: seq<Document>)
    ensures |r| <= retriever.k
    ensures |r| <= |similarity(retriever.store.chunks, question)|
    ensures r == similarity(retriever.store.chunks, question)[..|r|]
    ensures |r| == retriever.k || r == similarity(retriever.store.chunks, question)
  {
    var ranked := similarity(retriever.store.chunks, question);
    if retriever.k <= |ranked| then ranked[..retriever.k] else ranked
  }

  /** What a query sees of the engine: its retriever, if one is set, and the
      similarity ranking. */
  datatype Index = Index(retriever: Option<Retriever>, similarity: Similarity)

  /** `query_courses` on a snapshot of the engine: the not-ready error while
      no retriever is set, otherwise the retriever's chunks for the question. */
  function Query(index: Index, question: string): (r: Result<seq<Document>>)
    ensures r.Err? <==> index.retriever.None?
    ensures r.Err? ==> r.error == NotReadyMessage
    ensures r.Ok? ==> r.value == Invoke(index.retriever.value, index.similarity, question)
  {
    if index.retriever.None? then Err(NotReadyMessage)
    else Ok(Invoke(index.retriever.value, index.similarity, question))
  }

  /** What `load_and_process_documents` reports. */
  datatype LoadOutcome =
    | CreatedDirectory
    | NoPdfFiles
    | NoDocumentsLoaded
    | Processed(chunks: nat, documents: nat, files: nat)

  /** The message string returned for each outcome: the created directory is
      named, and a successful build reports its three counts in decimal. */
  function Message(outcome: LoadOutcome, pdfDirectory: string): (r: string)
    ensures outcome.CreatedDirectory? ==> Contains(r, pdfDirectory)
    ensures outcome.Processed? ==>
      && Contains(r, DecimalString(outcome.chunks))
      && Contains(r, DecimalString(outcome.documents))
      && Contains(r, DecimalString(outcome.files))
  {
    match outcome
    case CreatedDirectory =>
      ContainsMiddle("Created PDF directory at ", pdfDirectory, ". Please add PDF files.");
      "Created PDF directory at " + pdfDirectory + ". Please add PDF files."
    case NoPdfFiles => "No PDF files found. Please add course catalog PDFs to the data/pdfs folder."
    case NoDocumentsLoaded => "No documents could be loaded from PDF files."
    case Processed(c, d, f) =>
      ContainsThreeMiddles("Processed ", DecimalString(c), " chunks from ", DecimalString(d),
                           " documents across ", DecimalString(f), " PDF files");
      "Processed " + DecimalString(c) + " chunks from " + DecimalString(d) +
      " documents across " + DecimalString(f) + " PDF files"
  }

  /** The file names of a listing that end with `.pdf`, in listing order. */
  function PdfFiles(listing: seq<string>): (r: seq<string>)
    ensures |r| <= |listing|
    ensures forall f :: f in r <==> f in listing && EndsWith(f, PdfSuffix)
    ensures |listing| == 1 ==> r == (if EndsWith(listing[0], PdfSuffix) then listing else [])
  {
    if listing == [] then []
    else (if EndsWith(listing[0], PdfSuffix) then [listing[0]] else []) + PdfFiles(listing[1..])
  }

  /** The filter keeps the listing's order and every occurrence: it
      distributes over concatenation. */
  lemma {:induction false} PdfFilesAppend(a: seq<string>, b: seq<string>)
    ensures PdfFiles(a + b) == PdfFiles(a) + PdfFiles(b)
  {
    if a != [] {
      assert (a + b)[0] == a[0];
      assert (a + b)[1..] == a[1..] + b;
      PdfFilesAppend(a[1..], b);
    } else {
      assert a + b == b;
    }
  }

  /** The pages a load outcome contributes: none when the load failed. */
  function PagesOf(loaded: Result<seq<Document>>): seq<Document> {
    if loaded.Ok? then loaded.value else []
  }

  /** The pages of every file that loaded, file after file; a file whose load
      failed is skipped. */
  function LoadedPages(files: seq<string>, load: Loader): (r: seq<Document>)
    ensures forall d :: d in r ==> exists f :: f in files && d in PagesOf(load(f))
  {
    if files == [] then []
    else LoadedPages(files[..|files| - 1], load) + PagesOf(load(files[|files| - 1]))
  }

  /** No page at all was loaded exactly when every file failed or was empty. */
  lemma {:induction false} LoadedPagesEmpty(files: seq<string>, load: Loader)
    ensures LoadedPages(files, load) == [] <==> forall f :: f in files ==> PagesOf(load(f)) == []
  {
    if files != [] {
      var init := files[..|files| - 1];
      LoadedPagesEmpty(init, load);
      assert files == init + [files[|files| - 1]];
      assert forall f :: f in files <==> f in init || f == files[|files| - 1];
    }
  }

  /** Loading keeps every page of every file that loads, file after file and
      each file's pages in their order: loading distributes over the
      concatenation of two lists of files... */
  lemma {:induction false} LoadedPagesAppend(a: seq<string>, b: seq<string>, load: Loader)
    ensures LoadedPages(a + b, load) == LoadedPages(a, load) + LoadedPages(b, load)
    decreases |b|
  {
    if b == [] {
      assert a + b == a;
    } else {
      var init := b[..|b| - 1];
      LoadedPagesAppend(a, init, load);
      assert (a + b)[..|a + b| - 1] == a + init;
      assert (a + b)[|a + b| - 1] == b[|b| - 1];
    }
  }

  /** ...and one file contributes exactly the pages its load returned. */
  lemma LoadedPagesOne(f: string, load: Loader)
    ensures LoadedPages([f], load) == PagesOf(load(f))
  {
    assert [f][..0] == [];
  }

  /** The outcome of `load_and_process_documents` as a function of what it
      finds on disk and what the loader and splitter return. */
  function LoadOutcomeOf(dirExists: bool, listing: seq<string>, load: Loader, split: Splitter): LoadOutcome {
    if !dirExists then CreatedDirectory
    else if PdfFiles(listing) == [] then NoPdfFiles
    else
      var documents := LoadedPages(PdfFiles(listing), load);
      if documents == [] then NoDocumentsLoaded
      else Processed(|split(documents, ChunkSize, ChunkOverlap)|, |documents|, |PdfFiles(listing)|)
  }

  /** The directory is created exactly when it is missing; "no PDF files" is
      reported exactly when no name in the listing ends with `.pdf`; a build
      reports non-zero document and file counts, with no more files than the
      listing holds (the chunk count is zero when the splitter returns no
      chunk). */
  lemma LoadOutcomeReports(dirExists: bool, listing: seq<string>, load: Loader, split: Splitter)
    ensures var r := LoadOutcomeOf(dirExists, listing, load, split);
      && (r.CreatedDirectory? <==> !dirExists)
      && (r.NoPdfFiles? <==> dirExists && forall f :: f in listing ==> !EndsWith(f, PdfSuffix))
      && (r.Processed? ==> 0 < r.files <= |listing| && 0 < r.documents)
  {
    if dirExists && PdfFiles(listing) != [] {
      assert PdfFiles(listing)[0] in PdfFiles(listing);
    }
  }

  /** The index gets built exactly when the directory exists and some file
      ending in `.pdf` loads with at least one page. */
  lemma ProcessedIffSomePageLoaded(dirExists: bool, listing: seq<string>, load: Loader, split: Splitter)
    ensures LoadOutcomeOf(dirExists, listing, load, split).Processed? <==>
      dirExists && exists f :: f in listing && EndsWith(f, PdfSuffix) && PagesOf(load(f)) != []
  {
    LoadedPagesEmpty(PdfFiles(listing), load);
  }

  /** `"\n\n".join(doc.page_content for doc in docs)`. */
  function GetCourseInfo(docs: seq<Document>): (r: string)
    ensures docs == [] ==> r == ""
  {
    Join(ChunkSeparator, Contents(docs))
  }

  function Contents(docs: seq<Document>): (r: seq<string>)
    ensures |r| == |docs|
    ensures forall i :: 0 <= i < |docs| ==> r[i] == docs[i].pageContent
  {
    if docs == [] then [] else [docs[0].pageContent] + Contents(docs[1..])
  }

  /** The blank line `get_course_info` puts between chunk texts. */
  const ChunkSeparator := "\n\n"

  /** Each chunk's text appears in the course information, in input order. */
  lemma GetCourseInfoAt(docs: seq<Document>, i: nat)
    requires i < |docs|
    ensures OccursAt(GetCourseInfo(docs), docs[i].pageContent, JoinOffset(ChunkSeparator, Contents(docs), i))
    ensures i + 1 == |docs| ==>
      JoinOffset(ChunkSeparator, Contents(docs), i) + |docs[i].pageContent| == |GetCourseInfo(docs)|
  {
    var parts := Contents(docs);
    JoinOccursAt(ChunkSeparator, parts, i);
    assert parts[i] == docs[i].pageContent;
  }

  /** A blank line follows every chunk's text but the last. */
  lemma GetCourseInfoSeparatorAt(docs: seq<Document>, i: nat)
    requires i + 1 < |docs|
    ensures JoinOffset(ChunkSeparator, Contents(docs), i + 1)
         == JoinOffset(ChunkSeparator, Contents(docs), i) + |docs[i].pageContent| + |ChunkSeparator|
    ensures OccursAt(GetCourseInfo(docs), ChunkSeparator,
                     JoinOffset(ChunkSeparator, Contents(docs), i) + |docs[i].pageContent|)
  {
    var parts := Contents(docs);
    assert GetCourseInfo(docs) == Join(ChunkSeparator, parts);
    assert parts[i] == docs[i].pageContent;
    JoinSeparatorAt(ChunkSeparator, parts, i);
  }

  class RAGEngine {
    const pdfDirectory: string
    const persistDirectory: string
    /** The embedding model together with the store's similarity query. */
    const similarity: Similarity
    var vectorstore: Option<VectorStore>
    var retriever: Option<Retriever>

    /** A retriever, once set, is the top-`TopK` retriever over the engine's
        own store. */
    ghost predicate Valid()
      reads this
    {
      retriever.Some? ==>
        && vectorstore.Some?
        && vectorstore.value.persistDirectory == persistDirectory
        && retriever.value == Retriever(vectorstore.value, TopK)
    }

    constructor (similarity: Similarity, pdfDirectory: string := DefaultPdfDirectory,
                 persistDirectory: string := DefaultPersistDirectory)
      ensures Valid()
      ensures this.pdfDirectory == pdfDirectory && this.persistDirectory == persistDirectory
      ensures this.similarity == similarity
      ensures vectorstore == None && retriever == None
    {
      this.pdfDirectory := pdfDirectory;
      this.persistDirectory := persistDirectory;
      this.similarity := similarity;
      vectorstore := None;
      retriever := None;
    }

    /** Builds the index from the PDF directory.  The store and the retriever
        change only on the path where some page was loaded; on every other
        path they keep their previous values. */
    method LoadAndProcessDocuments(dirExists: bool, listing: seq<string>, load: Loader, split: Splitter)
      returns (outcome: LoadOutcome, message: string)
      requires Valid()
      modifies this
      ensures Valid()
      ensures outcome == LoadOutcomeOf(dirExists, listing, load, split)
      ensures message == Message(outcome, pdfDirectory)
      ensures outcome.Processed? ==>
        var chunks := split(LoadedPages(PdfFiles(listing), load), ChunkSize, ChunkOverlap);
        && vectorstore == Some(VectorStore(chunks, persistDirectory))
        && retriever == Some(Retriever(VectorStore(chunks, persistDirectory), TopK))
      ensures !outcome.Processed? ==> vectorstore == old(vectorstore) && retriever == old(retriever)
    {
      if !dirExists {
        outcome := CreatedDirectory;
        message := Message(outcome, pdfDirectory);
        return;
      }
      var pdfFiles := PdfFiles(listing);
      if pdfFiles == [] {
        outcome := NoPdfFiles;
        message := Message(outcome, pdfDirectory);
        return;
      }
      var documents: seq<Document> := [];
      for i := 0 to |pdfFiles|
        invariant documents == LoadedPages(pdfFiles[..i], load)
      {
        assert pdfFiles[..i + 1][..i] == pdfFiles[..i];
        var loaded := load(pdfFiles[i]);
        if loaded.Ok? {
          documents := documents + loaded.value;
        }
      }
      assert pdfFiles[..|pdfFiles|] == pdfFiles;
      if documents == [] {
        outcome := NoDocumentsLoaded;
        message := Message(outcome, pdfDirectory);
        return;
      }
      var chunks := split(documents, ChunkSize, ChunkOverlap);
      vectorstore := Some(VectorStore(chunks, persistDirectory));
      retriever := Some(Retriever(vectorstore.value, TopK));
      outcome := Processed(|chunks|, |documents|, |pdfFiles|);
      message := Message(outcome, pdfDirectory);
    }

    /** `query_courses`: fails with the not-ready error while no retriever is
        set, and otherwise returns the retriever's chunks for the question. */
    function QueryCourses(question: string): (r: Result<seq<Document>>)
      reads this
      ensures r.Err? <==> retriever.None?
      ensures r.Err? ==> r.error == NotReadyMessage
      ensures r.Ok? ==> r.value == Invoke(retriever.value, similarity, question)
      ensures Valid() && r.Ok? ==> |r.value| <= TopK
    {
      Query(Snapshot(), question)
    }

    /** The engine as a query sees it. */
    function Snapshot(): (index: Index)
      reads this
      ensures index.retriever == retriever && index.similarity == similarity
    {
      Index(retriever, similarity)
    }
  }
}
