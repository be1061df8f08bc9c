/** Loading, metadata merging and chunk annotation (`DocumentProcessingService`). */
module DocumentProcessing {
  import opened Wrappers
  import opened Strings
  import opened Exceptions

  /** A metadata value: the core stores integers (`user_id`, `chunk_index`, `chunk_size`) and text. */
  datatype MetaValue = IntValue(i: int) | TextValue(s: string)

  type Metadata = map<string, MetaValue>

  /** A LangChain `Document`: its text and its metadata dictionary. */
  datatype Document = Document(pageContent: string, metadata: Metadata)

  /** The three loaders the dispatch can build. */
  datatype LoaderKind = PdfLoader | DocxLoader | HtmlLoader

  /** What a loader produces for a path (the extraction itself is not modelled; it may raise). */
  type Loader = (LoaderKind, string) -> Result<seq<Document>, Exc>

  /** The text splitter: documents, chunk size and chunk overlap to chunks (not modelled). */
  type Splitter = (seq<Document>, int, int) -> seq<Document>

  const DefaultChunkSize: int := 1000
  const DefaultChunkOverlap: int := 100
  const RecursiveStrategy: string := "recursive"
  const ChunkIndexKey: string := "chunk_index"
  const ChunkSizeKey: string := "chunk_size"

  /** A path ends with at most one of the three supported suffixes: their last characters differ. */
  lemma SuffixesExclusive(path: string)
    ensures EndsWith(path, ".pdf") ==> path[|path| - 1] == 'f'
    ensures EndsWith(path, ".docx") ==> path[|path| - 1] == 'x'
    ensures EndsWith(path, ".html") ==> path[|path| - 1] == 'l'
  {
    if EndsWith(path, ".pdf") { assert path[|path| - 1] == ".pdf"[3]; }
    if EndsWith(path, ".docx") { assert path[|path| - 1] == ".docx"[4]; }
    if EndsWith(path, ".html") { assert path[|path| - 1] == ".html"[4]; }
  }

  /** The loader `load_document` chooses, by exact (case-sensitive) suffix of the path. */
  function SelectLoader(path: string): (r: Result<LoaderKind, Exc>)
    ensures r.Success? <==> EndsWith(path, ".pdf") || EndsWith(path, ".docx") || EndsWith(path, ".html")
    ensures r == Success(PdfLoader) <==> EndsWith(path, ".pdf")
    ensures r == Success(DocxLoader) <==> EndsWith(path, ".docx")
    ensures r == Success(HtmlLoader) <==> EndsWith(path, ".html")
    ensures r.Failure? ==> r.error == ValueError("Unsupported file type: " + path)
  {
    SuffixesExclusive(path);
    if EndsWith(path, ".pdf") then Success(PdfLoader)
    else if EndsWith(path, ".docx") then Success(DocxLoader)
    else if EndsWith(path, ".html") then Success(HtmlLoader)
    else Failure(ValueError("Unsupported file type: " + path))
  }

  /** `load_document`: dispatch on the suffix, then run the chosen loader. */
  function LoadDocument(path: string, load: Loader): (r: Result<seq<Document>, Exc>)
    ensures SelectLoader(path).Failure? ==> r == Failure(SelectLoader(path).error)
    ensures SelectLoader(path).Success? ==> r == load(SelectLoader(path).value, path)
  {
    match SelectLoader(path)
    case Failure(e) => Failure(e)
    case Success(kind) => load(kind, path)
  }

  /** An unsupported path fails the same way whatever the loaders would do: none is built. */
  lemma UnsupportedPathNeverLoads(path: string, load1: Loader, load2: Loader)
    requires !(EndsWith(path, ".pdf") || EndsWith(path, ".docx") || EndsWith(path, ".html"))
    ensures LoadDocument(path, load1) == LoadDocument(path, load2)
    ensures LoadDocument(path, load1) == Failure(ValueError("Unsupported file type: " + path))
  {
  }

  /** The dispatch is case-sensitive: an upper-case ".PDF" path is rejected. */
  lemma UpperCaseSuffixRejected(stem: string)
    ensures SelectLoader(stem + ".PDF").Failure?
  {
    var p := stem + ".PDF";
    assert p[|p| - 4..] == ".PDF";
    assert p[|p| - 1] == 'F';
  }

  /** One document after `doc.metadata.update(metadata)`. */
  function WithMetadata(d: Document, md: Metadata): Document
  {
    d.(metadata := d.metadata + md)
  }

  /** The documents after `add_metadata`: same length, order and text; every given key maps to the
      given value; every other key keeps its previous value. */
  function MergedAll(docs: seq<Document>, md: Metadata): (r: seq<Document>)
    ensures |r| == |docs|
    ensures forall i :: 0 <= i < |r| ==> r[i].pageContent == docs[i].pageContent
    ensures forall i :: 0 <= i < |r| ==> r[i].metadata.Keys == docs[i].metadata.Keys + md.Keys
    ensures forall i, k :: 0 <= i < |r| && k in md ==> r[i].metadata[k] == md[k]
    ensures forall i, k :: 0 <= i < |r| && k in docs[i].metadata && k !in md ==>
      r[i].metadata[k] == docs[i].metadata[k]
  {
    seq(|docs|, i requires 0 <= i < |docs| => WithMetadata(docs[i], md))
  }

  /** `add_metadata`: updates every document's metadata in place and returns the same list. */
  method AddMetadata(docs: array<Document>, md: Metadata) returns (r: array<Document>)
    modifies docs
    ensures r == docs
    ensures docs[..] == MergedAll(old(docs[..]), md)
  {
    for i := 0 to docs.Length
      invariant forall j :: 0 <= j < i ==> docs[j] == WithMetadata(old(docs[j]), md)
      invariant forall j :: i <= j < docs.Length ==> docs[j] == old(docs[j])
    {
      docs[i] := WithMetadata(docs[i], md);
    }
    r := docs;
  }

  /** Chunk `i` after `chunk.metadata.update({"chunk_index": i, "chunk_size": len(chunk.page_content)})`. */
  function Annotate(c: Document, i: nat): Document
  {
    c.(metadata := c.metadata[ChunkIndexKey := IntValue(i)][ChunkSizeKey := IntValue(|c.pageContent|)])
  }

  /** The chunks after the annotation pass: same number and text; chunk `i` has `chunk_index == i`
      and `chunk_size` equal to its text length; no other key changes. */
  function Annotated(chunks: seq<Document>): (r: seq<Document>)
    ensures |r| == |chunks|
    ensures forall i :: 0 <= i < |r| ==> r[i].pageContent == chunks[i].pageContent
    ensures forall i :: 0 <= i < |r| ==> r[i].metadata.Keys == chunks[i].metadata.Keys + {ChunkIndexKey, ChunkSizeKey}
    ensures forall i :: 0 <= i < |r| ==> r[i].metadata[ChunkIndexKey] == IntValue(i)
    ensures forall i :: 0 <= i < |r| ==> r[i].metadata[ChunkSizeKey] == IntValue(|r[i].pageContent|)
    ensures forall i, k :: 0 <= i < |r| && k in chunks[i].metadata && k != ChunkIndexKey && k != ChunkSizeKey ==>
      r[i].metadata[k] == chunks[i].metadata[k]
  {
    seq(|chunks|, i requires 0 <= i < |chunks| => Annotate(chunks[i], i))
  }

  /** Chunk indices start at 0 and strictly increase along the chunk list. */
  lemma ChunkIndicesIncrease(chunks: seq<Document>, i: nat, j: nat)
    requires i < j < |chunks|
    ensures Annotated(chunks)[0].metadata[ChunkIndexKey] == IntValue(0)
    ensures Annotated(chunks)[i].metadata[ChunkIndexKey].i < Annotated(chunks)[j].metadata[ChunkIndexKey].i
  {
  }

  /** The annotation loop of `split_documents`, run in place over the chunk list. */
  method AnnotateChunks(chunks: array<Document>)
    modifies chunks
    ensures chunks[..] == Annotated(old(chunks[..]))
  {
    for i := 0 to chunks.Length
      invariant forall j :: 0 <= j < i ==> chunks[j] == Annotate(old(chunks[j]), j)
      invariant forall j :: i <= j < chunks.Length ==> chunks[j] == old(chunks[j])
    {
      chunks[i] := Annotate(chunks[i], i);
    }
  }

  /** `split_documents`: reject any strategy other than "recursive" before splitting; otherwise split
      with the given size and overlap and annotate the chunks. */
  method SplitDocuments(docs: seq<Document>, chunkSize: int, chunkOverlap: int, strategy: string, split: Splitter)
    returns (r: Result<seq<Document>, Exc>)
    ensures strategy != RecursiveStrategy ==>
      r == Failure(ValueError("Unsupported splitting strategy: " + strategy))
    ensures strategy == RecursiveStrategy ==>
      r == Success(Annotated(split(docs, chunkSize, chunkOverlap)))
  {
    if strategy != RecursiveStrategy {
      return Failure(ValueError("Unsupported splitting strategy: " + strategy));
    }
    var produced := split(docs, chunkSize, chunkOverlap);
    var chunks := new Document[|produced|](i requires 0 <= i < |produced| => produced[i]);
    assert chunks[..] == produced;
    AnnotateChunks(chunks);
    r := Success(chunks[..]);
  }
}
