/**
 The knowledge index: document rows and their chunk rows, as `indexer.py` and the
 `ingest_drive_file` task change them.  Extraction, embedding and each row insert may fail.
 */
module Indexer {
  import opened Options
  import opened Chunker
  import opened Text

  // ---------------------------------------------------------------- data

  /** A file as Drive describes it; a missing text is the empty string and a missing size is zero. */
  datatype FileMeta = FileMeta(
    id: string, name: string, mime: string, owners: seq<string>, link: string, modified: Option<string>, size: nat,
    parents: seq<string>)

  datatype Status = Pending | Extracted | Indexed | Failed | Skipped

  /** The columns that mirror Drive metadata, cut to their widths. */
  datatype Fields = Fields(
    title: string, mime: string, owner: string, link: string, modified: Option<string>, size: nat)

  /** The free-form metadata column; every value is a list of texts. */
  type Metadata = map<string, seq<string>>

  /** What the error column tells. */
  datatype Problem =
    | NoProblem
    | UnsupportedMime(mime: string)
    | ExtractFailed(message: string)
    | EmptyContent
    | NoChunks

  function ErrorText(problem: Problem): string {
    match problem
    case NoProblem => ""
    case UnsupportedMime(mime) => "unsupported mime: " + mime
    case ExtractFailed(message) => Cut(message, 500)
    case EmptyContent => "empty content"
    case NoChunks => "no chunks"
  }

  datatype Document = Document(
    pk: nat, fields: Fields, status: Status, error: Problem, text: string, truncated: bool, metadata: Metadata)

  type Vector = seq<real>

  /** What a chunk row repeats of its document's columns. */
  datatype RowMeta = RowMeta(title: string, owner: string, link: string, mime: string)

  datatype Row = Row(document: nat, index: nat, text: string, tokens: nat, embedding: Vector, meta: RowMeta)

  datatype Store = Store(docs: map<string, Document>, rows: seq<Row>, nextPk: nat)

  function Cut(s: string, n: nat): string { s[..Min(n, |s|)] }

  function FieldsOf(file: FileMeta): Fields {
    Fields(Cut(file.name, 512), Cut(file.mime, 128), Cut(if file.owners != [] then file.owners[0] else "", 254),
           Cut(file.link, 1024), file.modified, file.size)
  }

  function MetaOf(fields: Fields): RowMeta { RowMeta(fields.title, fields.owner, fields.link, fields.mime) }

  const TEXT_CAP := 1_000_000

  /** What the outside world does during one ingest: the extractor raises, finds nothing or returns
      a text; the embedder raises or returns vectors; the insert of some row may fail. */
  datatype Extraction =
    | Raised(message: string)
    | Nothing
    | Got(text: string, truncated: bool, metadata: Metadata)
  datatype World = World(extraction: Extraction, embeddings: Option<seq<Vector>>, failingInsert: Option<nat>)

  datatype Settings = Settings(space: char -> bool, cfg: Config)

  const SUPPORTED_MIMES: set<string> := {
    "application/vnd.google-apps.document",
    "application/vnd.google-apps.spreadsheet",
    "application/vnd.google-apps.presentation",
    "text/plain", "text/markdown", "text/csv", "text/html", "application/pdf"
  }

  // ---------------------------------------------------------------- specification

  function RowsFor(rows: seq<Row>, pk: nat): seq<Row> {
    if rows == [] then []
    else if rows[0].document == pk then [rows[0]] + RowsFor(rows[1..], pk)
    else RowsFor(rows[1..], pk)
  }

  function Without(rows: seq<Row>, pk: nat): seq<Row> {
    if rows == [] then []
    else if rows[0].document != pk then [rows[0]] + Without(rows[1..], pk)
    else Without(rows[1..], pk)
  }

  /** Python's `zip(chunks, embeddings, strict=False)`: as long as the shorter list. */
  function BuildRows(pk: nat, meta: RowMeta, chunks: seq<Chunk>, embeddings: seq<Vector>): seq<Row> {
    if chunks == [] || embeddings == [] then []
    else [Row(pk, chunks[0].index, chunks[0].text, chunks[0].tokens, embeddings[0], meta)]
         + BuildRows(pk, meta, chunks[1..], embeddings[1..])
  }

  function ParentsOf(file: FileMeta): Metadata { map["parents" := file.parents] }

  function Upserted(st: Store, file: FileMeta): Store {
    if file.id in st.docs then
      var doc := st.docs[file.id].(fields := FieldsOf(file), metadata := ParentsOf(file));
      st.(docs := st.docs[file.id := doc])
    else
      var doc := Document(st.nextPk, FieldsOf(file), Pending, NoProblem, "", false, ParentsOf(file));
      Store(st.docs[file.id := doc], st.rows, st.nextPk + 1)
  }

  /** The document with an extracted text saved. */
  function WithText(doc: Document, text: string, truncated: bool, metadata: Metadata): Document {
    doc.(text := Cut(text, TEXT_CAP), truncated := truncated, status := Extracted, metadata := doc.metadata + metadata)
  }

  function Removed(st: Store, id: string): Store {
    if id in st.docs then Store(st.docs - {id}, Without(st.rows, st.docs[id].pk), st.nextPk) else st
  }

  function WithStatus(st: Store, id: string, status: Status, error: Problem): Store
    requires id in st.docs
  {
    st.(docs := st.docs[id := st.docs[id].(status := status, error := error)])
  }

  /** `ingest_document`; the flag tells whether it returned (or an exception escaped). */
  function Ingested(set_: Settings, st: Store, id: string, world: World): (Store, bool)
    requires id in st.docs
  {
    var doc := st.docs[id];
    if doc.fields.mime !in SUPPORTED_MIMES then (WithStatus(st, id, Skipped, UnsupportedMime(doc.fields.mime)), true)
    else
      match world.extraction
      case Raised(message) => (WithStatus(st, id, Failed, ExtractFailed(message)), true)
      case Nothing => (WithStatus(st, id, Skipped, EmptyContent), true)
      case Got(text, truncated, metadata) =>
        if Strip(set_.space, text) == "" then (WithStatus(st, id, Skipped, EmptyContent), true)
        else
          var st1 := st.(docs := st.docs[id := WithText(doc, text, truncated, metadata)]);
          if Raises(set_.cfg, Paragraphs(set_.space, text)) then (st1, false)
          else Stored(st1, id, Chunks(set_.space, set_.cfg, text), world)
  }

  /** The part of `ingest_document` after the text column is saved and chunked. */
  function Stored(st: Store, id: string, chunks: seq<Chunk>, world: World): (Store, bool)
    requires id in st.docs
  {
    var doc := st.docs[id];
    if chunks == [] then (WithStatus(st, id, Skipped, NoChunks), true)
    else if world.embeddings.None? then (st, false)
    else
      var rows := BuildRows(doc.pk, MetaOf(doc.fields), chunks, world.embeddings.value);
      if world.failingInsert.Some? && world.failingInsert.value < |rows| then (st, false)
      else (WithStatus(st, id, Indexed, NoProblem).(rows := Without(st.rows, doc.pk) + rows), true)
  }

  /** The `ingest_drive_file` task. */
  function DriveFileIngested(set_: Settings, st: Store, file: FileMeta, world: World): (Store, bool) {
    var st1 := Upserted(st, file);
    var mime := st1.docs[file.id].fields.mime;
    if mime !in SUPPORTED_MIMES then (WithStatus(st1, file.id, Skipped, UnsupportedMime(mime)), true)
    else Ingested(set_, st1, file.id, world)
  }

  /** The text cut to a width: its first characters, as many as fit. */
  predicate CutTo(cut: string, text: string, width: nat) {
    cut <= text && |cut| == if |text| <= width then |text| else width
  }

  /** The columns of a file, in plain terms. */
  predicate ColumnsOf(fields: Fields, file: FileMeta) {
    && CutTo(fields.title, file.name, 512) && CutTo(fields.mime, file.mime, 128) && CutTo(fields.link, file.link, 1024)
    && (if file.owners == [] then fields.owner == "" else CutTo(fields.owner, file.owners[0], 254))
    && fields.modified == file.modified && fields.size == file.size
  }

  lemma ColumnsAre(file: FileMeta)
    ensures ColumnsOf(FieldsOf(file), file)
    ensures var meta := MetaOf(FieldsOf(file));
            && CutTo(meta.title, file.name, 512) && CutTo(meta.mime, file.mime, 128)
              && CutTo(meta.link, file.link, 1024)
            && (if file.owners == [] then meta.owner == "" else CutTo(meta.owner, file.owners[0], 254))
  {
  }

  /** An upsert sets the columns and the parents; a known document keeps its key, status, error and
      text, a new one is pending with a key of its own; no other document and no row changes. */
  lemma UpsertIs(st: Store, file: FileMeta)
    ensures var st' := Upserted(st, file);
            && file.id in st'.docs && st'.docs - {file.id} == st.docs - {file.id} && st'.rows == st.rows
            && var doc' := st'.docs[file.id];
               && ColumnsOf(doc'.fields, file) && doc'.metadata == map["parents" := file.parents]
               && if file.id in st.docs then
                    var doc := st.docs[file.id];
                    && doc'.pk == doc.pk && doc'.status == doc.status && doc'.error == doc.error
                    && doc'.text == doc.text && doc'.truncated == doc.truncated && st'.nextPk == st.nextPk
                  else
                    && doc'.pk == st.nextPk < st'.nextPk && doc'.status == Pending && doc'.error == NoProblem
                      && doc'.text == ""
  {
    ColumnsAre(file);
    assert Upserted(st, file).docs - {file.id} == st.docs - {file.id};
  }

  /** A removal takes the document and exactly its rows. */
  lemma RemoveIs(st: Store, id: string, pk: nat)
    ensures var st' := Removed(st, id);
            && st'.docs == st.docs - {id} && st'.nextPk == st.nextPk
            && RowsFor(st'.rows, pk) == if id in st.docs && pk == st.docs[id].pk then [] else RowsFor(st.rows, pk)
  {
    if id in st.docs {
      RowsForWithout(st.rows, st.docs[id].pk, pk);
    } else {
      assert st.docs - {id} == st.docs;
    }
  }

  /** The types that are ingested. */
  lemma SupportedAre(mime: string)
    ensures mime in SUPPORTED_MIMES <==>
            || mime == "application/vnd.google-apps.document" || mime == "application/vnd.google-apps.spreadsheet"
            || mime == "application/vnd.google-apps.presentation" || mime == "text/plain" || mime == "text/markdown"
            || mime == "text/csv" || mime == "text/html" || mime == "application/pdf"
  {
  }

  // ---------------------------------------------------------------- how an ingest ends

  /** The extraction found a text with something in it. */
  predicate HasText(set_: Settings, world: World) {
    world.extraction.Got? && Strip(set_.space, world.extraction.text) != ""
  }

  /** Chunking the extracted text raises. */
  predicate ChunkingRaises(set_: Settings, world: World)
    requires world.extraction.Got?
  {
    Raises(set_.cfg, Paragraphs(set_.space, world.extraction.text))
  }

  function ChunksOf(set_: Settings, world: World): seq<Chunk>
    requires world.extraction.Got?
  {
    Chunks(set_.space, set_.cfg, world.extraction.text)
  }

  /** Some insert among as many rows as there are chunks with an embedding fails. */
  predicate InsertFails(set_: Settings, world: World)
    requires world.extraction.Got? && world.embeddings.Some?
  {
    world.failingInsert.Some? && world.failingInsert.value < |ChunksOf(set_, world)|
    && world.failingInsert.value < |world.embeddings.value|
  }

  /** The text of an error: a fixed one, the type, or at most 500 characters of what the extractor said. */
  lemma ErrorsAre(mime: string, message: string)
    ensures ErrorText(NoProblem) == "" && ErrorText(UnsupportedMime(mime)) == "unsupported mime: " + mime
    ensures ErrorText(EmptyContent) == "empty content" && ErrorText(NoChunks) == "no chunks"
    ensures CutTo(ErrorText(ExtractFailed(message)), message, 500)
  {
  }

  /** Every end of an ingest: the status and error it leaves, and whether it returns or raises. */
  lemma IngestEnds(set_: Settings, st: Store, id: string, world: World)
    requires id in st.docs
    ensures var (st', returned) := Ingested(set_, st, id, world);
            var doc, mime := st'.docs[id], st.docs[id].fields.mime;
            if mime !in SUPPORTED_MIMES then
              returned && doc.status == Skipped && doc.error == UnsupportedMime(mime)
            else if world.extraction.Raised? then
              returned && doc.status == Failed && doc.error == ExtractFailed(world.extraction.message)
            else if !HasText(set_, world) then
              returned && doc.status == Skipped && doc.error == EmptyContent
            else
              && CutTo(doc.text, world.extraction.text, 1_000_000) && doc.truncated == world.extraction.truncated
              && doc.metadata == st.docs[id].metadata + world.extraction.metadata
              && if ChunkingRaises(set_, world) then
                   !returned && doc.status == Extracted && doc.error == st.docs[id].error
                 else if ChunksOf(set_, world) == [] then
                   returned && doc.status == Skipped && doc.error == NoChunks
                 else if world.embeddings.None? || InsertFails(set_, world) then
                   !returned && doc.status == Extracted && doc.error == st.docs[id].error
                 else returned && doc.status == Indexed && doc.error == NoProblem
  {
    if HasText(set_, world) && world.embeddings.Some? {
      var doc := WithText(st.docs[id], world.extraction.text, world.extraction.truncated, world.extraction.metadata);
      BuildRowsAt(doc.pk, MetaOf(doc.fields), ChunksOf(set_, world), world.embeddings.value);
    }
  }

  /** A document ends Indexed if and only if its type is supported, a text with something in it is
      extracted, chunking does not raise and yields a chunk, the embeddings arrive and no insert fails. */
  lemma IndexedIff(set_: Settings, st: Store, id: string, world: World)
    requires id in st.docs
    ensures var (st', returned) := Ingested(set_, st, id, world);
            (st'.docs[id].status == Indexed && returned) <==>
            && st.docs[id].fields.mime in SUPPORTED_MIMES && HasText(set_, world)
            && !ChunkingRaises(set_, world) && ChunksOf(set_, world) != []
            && world.embeddings.Some? && !InsertFails(set_, world)
    ensures var (st', returned) := Ingested(set_, st, id, world); st'.docs[id].status == Indexed ==> returned
  {
    IngestEnds(set_, st, id, world);
  }

  /** With settings under which the hard split advances, every text with something in it yields chunks. */
  lemma IndexedWheneverItCan(set_: Settings, st: Store, id: string, world: World)
    requires id in st.docs && set_.cfg.Advances() && set_.space('\n')
    requires st.docs[id].fields.mime in SUPPORTED_MIMES && HasText(set_, world)
    requires world.embeddings.Some? && !InsertFails(set_, world)
    ensures Ingested(set_, st, id, world).0.docs[id].status == Indexed
  {
    NonBlankYieldsChunk(set_.space, set_.cfg, world.extraction.text);
    IndexedIff(set_, st, id, world);
  }

  /** `ingest_drive_file`: the document is upserted and then skipped or ingested, by the cut type. */
  lemma FileIngestEnds(set_: Settings, st: Store, file: FileMeta, world: World)
    ensures var st1, (st', returned) := Upserted(st, file), DriveFileIngested(set_, st, file, world);
            var mime := st1.docs[file.id].fields.mime;
            && CutTo(mime, file.mime, 128)
            && if mime in SUPPORTED_MIMES then (st', returned) == Ingested(set_, st1, file.id, world)
               else returned && st'.rows == st.rows && st'.docs[file.id].status == Skipped
                    && st'.docs[file.id].error == UnsupportedMime(mime)
  {
    ColumnsAre(file);
  }

  /** Everything goes well after the type is found supported: there is a text, it is chunked, embedded and inserted. */
  predicate Indexable(set_: Settings, world: World) {
    && HasText(set_, world) && !ChunkingRaises(set_, world) && ChunksOf(set_, world) != []
    && world.embeddings.Some? && !InsertFails(set_, world)
  }

  /** A type cut to its column is supported only if nothing was cut. */
  lemma CutTypeIs(mime: string)
    ensures Cut(mime, 128) in SUPPORTED_MIMES <==> mime in SUPPORTED_MIMES
  {
    SupportedAre(mime);
    SupportedAre(Cut(mime, 128));
  }

  /** After `ingest_drive_file` the document is indexed if and only if the type is supported and everything goes well. */
  lemma FileIndexedIff(set_: Settings, st: Store, file: FileMeta, world: World)
    ensures var st' := DriveFileIngested(set_, st, file, world).0;
            file.id in st'.docs
            && (st'.docs[file.id].status == Indexed <==> file.mime in SUPPORTED_MIMES && Indexable(set_, world))
  {
    CutTypeIs(file.mime);
    FileIngestEnds(set_, st, file, world);
    if file.mime in SUPPORTED_MIMES { IndexedIff(set_, Upserted(st, file), file.id, world); }
  }

  // ---------------------------------------------------------------- the tables

  class Tables {
    var docs: map<string, Document>
    var rows: seq<Row>
    var nextPk: nat
    const set_: Settings

    function St(): Store reads this { Store(docs, rows, nextPk) }

    constructor (set_: Settings)
      ensures this.set_ == set_ && St() == Store(map[], [], 0)
    {
      this.set_ := set_;
      docs, rows, nextPk := map[], [], 0;
    }

    method DeleteChunks(pk: nat)
      modifies this`rows
      ensures rows == Without(old(rows), pk)
      ensures forall other :: RowsFor(rows, other) == if other == pk then [] else RowsFor(old(rows), other)
    {
      forall other
        ensures RowsFor(Without(rows, pk), other) == if other == pk then [] else RowsFor(rows, other)
      {
        RowsForWithout(rows, pk, other);
      }
      rows := Without(rows, pk);
    }

    /** Inserts the rows one by one; stops with false at the failing one. */
    method InsertChunks(newRows: seq<Row>, failing: Option<nat>) returns (ok: bool)
      modifies this`rows
      ensures ok == !(failing.Some? && failing.value < |newRows|)
      ensures ok ==> rows == old(rows) + newRows
    {
      for k := 0 to |newRows|
        invariant rows == old(rows) + newRows[..k]
        invariant failing.Some? ==> k <= failing.value
      {
        if failing == Some(k) {
          return false;
        }
        rows := rows + [newRows[k]];
      }
      assert newRows[..|newRows|] == newRows;
      ok := true;
    }

    method UpsertDriveFile(file: FileMeta)
      modifies this
      ensures St() == Upserted(old(St()), file)
    {
      if file.id in docs {
        docs := docs[file.id := docs[file.id].(fields := FieldsOf(file), metadata := ParentsOf(file))];
      } else {
        docs := docs[file.id := Document(nextPk, FieldsOf(file), Pending, NoProblem, "", false, ParentsOf(file))];
        nextPk := nextPk + 1;
      }
    }

    method RemoveDocument(id: string)
      modifies this
      ensures St() == Removed(old(St()), id)
    {
      if id in docs {
        DeleteChunks(docs[id].pk);
        docs := docs - {id};
      }
    }

    method SaveStatus(id: string, status: Status, error: Problem)
      requires id in docs
      modifies this`docs
      ensures St() == WithStatus(old(St()), id, status, error)
    {
      docs := docs[id := docs[id].(status := status, error := error)];
    }

    method IngestDocument(id: string, world: World) returns (returned: bool)
      requires id in docs
      modifies this
      ensures (St(), returned) == Ingested(set_, old(St()), id, world)
    {
      if docs[id].fields.mime !in SUPPORTED_MIMES {
        SaveStatus(id, Skipped, UnsupportedMime(docs[id].fields.mime));
        return true;
      }
      match world.extraction {
        case Raised(message) =>
          SaveStatus(id, Failed, ExtractFailed(message));
          return true;
        case Nothing =>
          SaveStatus(id, Skipped, EmptyContent);
          return true;
        case Got(text, truncated, metadata) =>
          if Strip(set_.space, text) == "" {
            SaveStatus(id, Skipped, EmptyContent);
            return true;
          }
          docs := docs[id := WithText(docs[id], text, truncated, metadata)];
          var result := ChunkText(set_.space, text, None, None, set_.cfg);
          if result.None? {
            return false;
          }
          returned := StoreChunks(id, result.value, world);
      }
    }

    /** Embeds the chunks and swaps the rows in one atomic block. */
    method StoreChunks(id: string, chunks: seq<Chunk>, world: World) returns (returned: bool)
      requires id in docs
      modifies this
      ensures (St(), returned) == Stored(old(St()), id, chunks, world)
    {
      if chunks == [] {
        SaveStatus(id, Skipped, NoChunks);
        return true;
      }
      if world.embeddings.None? {
        return false;
      }
      var newRows := BuildRows(docs[id].pk, MetaOf(docs[id].fields), chunks, world.embeddings.value);
      // a failing insert rolls the deletion back too
      var savepoint := rows;
      DeleteChunks(docs[id].pk);
      var inserted := InsertChunks(newRows, world.failingInsert);
      if !inserted {
        rows := savepoint;
        return false;
      }
      SaveStatus(id, Indexed, NoProblem);
      returned := true;
    }

    method IngestDriveFile(file: FileMeta, world: World) returns (returned: bool)
      modifies this
      ensures (St(), returned) == DriveFileIngested(set_, old(St()), file, world)
    {
      UpsertDriveFile(file);
      if docs[file.id].fields.mime !in SUPPORTED_MIMES {
        SaveStatus(file.id, Skipped, UnsupportedMime(docs[file.id].fields.mime));
        return true;
      }
      returned := IngestDocument(file.id, world);
    }
  }

  // ---------------------------------------------------------------- agreement

  /** One extraction: the file a task was given and the text it was extracted to. */
  datatype Origin = Origin(file: FileMeta, text: string)

  /** The rows an extraction should have: one per chunk of its text, in order, each with the
      embedding of its own text and the columns of its file. */
  function RowsOf(set_: Settings, embed: string -> Vector, pk: nat, origin: Origin): seq<Row> {
    var chunks := Chunks(set_.space, set_.cfg, origin.text);
    seq(|chunks|, k requires 0 <= k < |chunks| =>
      Row(pk, chunks[k].index, chunks[k].text, chunks[k].tokens, embed(chunks[k].text), MetaOf(FieldsOf(origin.file))))
  }

  /** The embedder, when it answers, answers each text with its embedding, in order. */
  ghost predicate Faithful(set_: Settings, embed: string -> Vector, world: World) {
    world.extraction.Got? && world.embeddings.Some? ==>
      var chunks := Chunks(set_.space, set_.cfg, world.extraction.text);
      world.embeddings.value == seq(|chunks|, k requires 0 <= k < |chunks| => embed(chunks[k].text))
  }

  /** The rows of a document whose last indexing, if any, is the given one. */
  function RowsOfLast(set_: Settings, embed: string -> Vector, pk: nat, id: string, last: map<string, Origin>)
    : seq<Row>
  {
    if id in last then RowsOf(set_, embed, pk, last[id]) else []
  }

  /** The document has exactly the rows of its last indexing, none when there
      was none; an indexed one also has its text. */
  predicate Explained(set_: Settings, embed: string -> Vector, doc: Document, id: string, rows: seq<Row>,
                      last: map<string, Origin>)
  {
    && RowsFor(rows, doc.pk) == RowsOfLast(set_, embed, doc.pk, id, last)
    && (doc.status == Indexed ==> id in last && doc.text == Cut(last[id].text, TEXT_CAP))
  }

  ghost predicate HasOwner(st: Store, row: Row) {
    exists id :: id in st.docs && st.docs[id].pk == row.document
  }

  /** Keys are sound, every row belongs to a document, and every document's rows
      are those of its last indexing. */
  ghost predicate Agreement(set_: Settings, embed: string -> Vector, st: Store, last: map<string, Origin>) {
    && (forall id :: id in st.docs ==> st.docs[id].pk < st.nextPk)
    && (forall id, id' :: id in st.docs && id' in st.docs && st.docs[id].pk == st.docs[id'].pk ==> id == id')
    && (forall k :: 0 <= k < |st.rows| ==> HasOwner(st, st.rows[k]))
    && last.Keys <= st.docs.Keys
    && forall id :: id in st.docs ==> Explained(set_, embed, st.docs[id], id, st.rows, last)
  }

  lemma {:induction false} RowsForWithout(rows: seq<Row>, pk: nat, other: nat)
    ensures RowsFor(Without(rows, pk), other) == if other == pk then [] else RowsFor(rows, other)
    ensures forall k :: 0 <= k < |Without(rows, pk)| ==>
            Without(rows, pk)[k] in rows && Without(rows, pk)[k].document != pk
  {
    if rows != [] {
      RowsForWithout(rows[1..], pk, other);
      if rows[0].document != pk {
        assert Without(rows, pk)[1..] == Without(rows[1..], pk);
      } else {
        assert Without(rows, pk) == Without(rows[1..], pk);
      }
    }
  }

  lemma {:induction false} RowsForAppend(a: seq<Row>, b: seq<Row>, pk: nat)
    ensures RowsFor(a + b, pk) == RowsFor(a, pk) + RowsFor(b, pk)
  {
    if a == [] { assert a + b == b; } else { assert (a + b)[1..] == a[1..] + b; RowsForAppend(a[1..], b, pk); }
  }

  lemma {:induction false} RowsForOwn(rows: seq<Row>, pk: nat, other: nat)
    requires forall k :: 0 <= k < |rows| ==> rows[k].document == pk
    ensures RowsFor(rows, other) == if other == pk then rows else []
  {
    if rows != [] { RowsForOwn(rows[1..], pk, other); }
  }

  lemma {:induction false} RowsForNobody(rows: seq<Row>, pk: nat)
    requires forall k :: 0 <= k < |rows| ==> rows[k].document != pk
    ensures RowsFor(rows, pk) == []
  {
    if rows != [] { RowsForNobody(rows[1..], pk); }
  }

  lemma {:induction false} BuildRowsAt(pk: nat, meta: RowMeta, chunks: seq<Chunk>, embeddings: seq<Vector>)
    ensures |BuildRows(pk, meta, chunks, embeddings)| == Min(|chunks|, |embeddings|)
    ensures forall k :: 0 <= k < |BuildRows(pk, meta, chunks, embeddings)| ==>
              BuildRows(pk, meta, chunks, embeddings)[k]
              == Row(pk, chunks[k].index, chunks[k].text, chunks[k].tokens, embeddings[k], meta)
  {
    if chunks != [] && embeddings != [] { BuildRowsAt(pk, meta, chunks[1..], embeddings[1..]); }
  }

  /** The new row set: this document's rows are the built ones, every other document's are untouched. */
  lemma SwappedRows(st: Store, pk: nat, meta: RowMeta, chunks: seq<Chunk>, embeddings: seq<Vector>, other: nat)
    ensures RowsFor(Without(st.rows, pk) + BuildRows(pk, meta, chunks, embeddings), other)
            == if other == pk then BuildRows(pk, meta, chunks, embeddings) else RowsFor(st.rows, other)
  {
    BuildRowsAt(pk, meta, chunks, embeddings);
    RowsForWithout(st.rows, pk, other);
    RowsForAppend(Without(st.rows, pk), BuildRows(pk, meta, chunks, embeddings), other);
    RowsForOwn(BuildRows(pk, meta, chunks, embeddings), pk, other);
  }

  /** A document whose rows stay, and its text while it is indexed, stays explained by the same indexing. */
  lemma StaysExplained(set_: Settings, embed: string -> Vector, doc: Document, doc': Document, id: string,
                       rows: seq<Row>, rows': seq<Row>, last: map<string, Origin>, last': map<string, Origin>)
    requires Explained(set_, embed, doc, id, rows, last)
    requires (id in last <==> id in last') && (id in last ==> last'[id] == last[id])
    requires doc'.pk == doc.pk && RowsFor(rows', doc.pk) == RowsFor(rows, doc.pk)
    requires doc'.status == Indexed ==> doc.status == Indexed && doc'.text == doc.text
    ensures Explained(set_, embed, doc', id, rows', last')
  {
  }

  /** Rows kept from before, or added for a document that stays, have their owner. */
  lemma OwnersStay(st: Store, st': Store, id: string)
    requires forall k :: 0 <= k < |st.rows| ==> HasOwner(st, st.rows[k])
    requires id in st.docs && id in st'.docs && st'.docs == st.docs[id := st'.docs[id]]
    requires st'.docs[id].pk == st.docs[id].pk
    requires forall k :: 0 <= k < |st'.rows| ==> st'.rows[k] in st.rows || st'.rows[k].document == st.docs[id].pk
    ensures forall k :: 0 <= k < |st'.rows| ==> HasOwner(st', st'.rows[k])
  {
    forall k | 0 <= k < |st'.rows|
      ensures HasOwner(st', st'.rows[k])
    {
      if st'.rows[k].document != st.docs[id].pk {
        var l :| 0 <= l < |st.rows| && st.rows[l] == st'.rows[k];
        assert HasOwner(st, st.rows[l]);
        var owner :| owner in st.docs && st.docs[owner].pk == st.rows[l].document;
        assert owner in st'.docs;
      }
    }
  }

  ghost predicate SameElsewhere(last: map<string, Origin>, last': map<string, Origin>, id: string) {
    forall other :: other != id ==>
      (other in last' <==> other in last) && (other in last ==> last'[other] == last[other])
  }

  /** A change to one document that leaves the other documents' rows alone keeps the agreement,
      provided that document itself ends up explained. */
  lemma OneDocumentChanged(set_: Settings, embed: string -> Vector, st: Store, st': Store, id: string,
                           last: map<string, Origin>, last': map<string, Origin>)
    requires Agreement(set_, embed, st, last) && id in st.docs && id in st'.docs
    requires SameElsewhere(last, last', id)
    requires st'.nextPk == st.nextPk && st'.docs == st.docs[id := st'.docs[id]]
    requires st'.docs[id].pk == st.docs[id].pk
    requires forall pk :: pk != st.docs[id].pk ==> RowsFor(st'.rows, pk) == RowsFor(st.rows, pk)
    requires forall k :: 0 <= k < |st'.rows| ==> st'.rows[k] in st.rows || st'.rows[k].document == st.docs[id].pk
    requires Explained(set_, embed, st'.docs[id], id, st'.rows, last')
    ensures Agreement(set_, embed, st', last')
  {
    OwnersStay(st, st', id);
    forall other | other in st'.docs
      ensures Explained(set_, embed, st'.docs[other], other, st'.rows, last')
    {
      if other != id {
        StaysExplained(set_, embed, st.docs[other], st'.docs[other], other, st.rows, st'.rows, last, last');
      }
    }
  }

  /** A change to one document's other columns. */
  lemma ColumnsChanged(set_: Settings, embed: string -> Vector, st: Store, st': Store, id: string,
                       last: map<string, Origin>)
    requires Agreement(set_, embed, st, last) && id in st.docs && id in st'.docs
    requires st'.nextPk == st.nextPk && st'.rows == st.rows && st'.docs == st.docs[id := st'.docs[id]]
    requires st'.docs[id].pk == st.docs[id].pk
    requires st'.docs[id].status == Indexed ==> st.docs[id].status == Indexed && st'.docs[id].text == st.docs[id].text
    ensures Agreement(set_, embed, st', last)
  {
    OneDocumentChanged(set_, embed, st, st', id, last, last);
  }

  lemma NewDocumentHasNoRows(st: Store, file: FileMeta)
    requires file.id !in st.docs && forall k :: 0 <= k < |st.rows| ==> HasOwner(st, st.rows[k])
    requires forall id :: id in st.docs ==> st.docs[id].pk < st.nextPk
    ensures var st' := Upserted(st, file);
            RowsFor(st'.rows, st.nextPk) == [] && forall k :: 0 <= k < |st'.rows| ==> HasOwner(st', st'.rows[k])
  {
    var st' := Upserted(st, file);
    forall k | 0 <= k < |st'.rows|
      ensures HasOwner(st', st'.rows[k]) && st'.rows[k].document != st.nextPk
    {
      assert HasOwner(st, st.rows[k]);
      var owner :| owner in st.docs && st.docs[owner].pk == st.rows[k].document;
      assert owner in st'.docs;
    }
    RowsForNobody(st'.rows, st.nextPk);
  }

  lemma UpsertKeepsAgreement(set_: Settings, embed: string -> Vector, st: Store, file: FileMeta,
                             last: map<string, Origin>)
    requires Agreement(set_, embed, st, last)
    ensures Agreement(set_, embed, Upserted(st, file), last)
  {
    var st' := Upserted(st, file);
    if file.id in st.docs {
      ColumnsChanged(set_, embed, st, st', file.id, last);
    } else {
      NewDocumentHasNoRows(st, file);
      forall other | other in st'.docs
        ensures Explained(set_, embed, st'.docs[other], other, st'.rows, last)
      {
        if other != file.id {
          StaysExplained(set_, embed, st.docs[other], st'.docs[other], other, st.rows, st'.rows, last, last);
        }
      }
    }
  }

  /** Removing a document with its rows leaves every other row its owner. */
  lemma OwnersRemain(st: Store, id: string)
    requires id in st.docs && forall k :: 0 <= k < |st.rows| ==> HasOwner(st, st.rows[k])
    ensures var st' := Removed(st, id); forall k :: 0 <= k < |st'.rows| ==> HasOwner(st', st'.rows[k])
  {
    var st' := Removed(st, id);
    RowsForWithout(st.rows, st.docs[id].pk, st.docs[id].pk);
    forall k | 0 <= k < |st'.rows|
      ensures HasOwner(st', st'.rows[k])
    {
      var l :| 0 <= l < |st.rows| && st.rows[l] == st'.rows[k];
      assert HasOwner(st, st.rows[l]);
      var owner :| owner in st.docs && st.docs[owner].pk == st.rows[l].document;
      assert owner in st'.docs;
    }
  }

  lemma RemoveKeepsAgreement(set_: Settings, embed: string -> Vector, st: Store, id: string, last: map<string, Origin>)
    requires Agreement(set_, embed, st, last)
    ensures Agreement(set_, embed, Removed(st, id), last - {id})
  {
    var st' := Removed(st, id);
    if id in st.docs {
      var pk := st.docs[id].pk;
      OwnersRemain(st, id);
      forall other | other in st'.docs
        ensures Explained(set_, embed, st'.docs[other], other, st'.rows, last - {id})
      {
        RowsForWithout(st.rows, pk, st.docs[other].pk);
        StaysExplained(set_, embed, st.docs[other], st'.docs[other], other, st.rows, st'.rows, last, last - {id});
      }
    } else {
      assert last - {id} == last;
    }
  }

  /** A faithful embedding of a text's chunks builds exactly the rows the extraction should have. */
  lemma FaithfulRows(set_: Settings, embed: string -> Vector, pk: nat, origin: Origin, world: World)
    requires Faithful(set_, embed, world)
    requires world.extraction.Got? && world.extraction.text == origin.text && world.embeddings.Some?
    ensures var chunks := Chunks(set_.space, set_.cfg, origin.text);
            RowsOf(set_, embed, pk, origin)
            == BuildRows(pk, MetaOf(FieldsOf(origin.file)), chunks, world.embeddings.value)
  {
    BuildRowsAt(pk, MetaOf(FieldsOf(origin.file)), Chunks(set_.space, set_.cfg, origin.text), world.embeddings.value);
  }

  /** The rows after an ingest that ends Indexed. */
  function Swapped(set_: Settings, st: Store, id: string, world: World): seq<Row>
    requires id in st.docs && world.extraction.Got? && world.embeddings.Some?
  {
    var pk, meta := st.docs[id].pk, MetaOf(st.docs[id].fields);
    var chunks := Chunks(set_.space, set_.cfg, world.extraction.text);
    Without(st.rows, pk) + BuildRows(pk, meta, chunks, world.embeddings.value)
  }

  lemma SwappedAreOrigin(set_: Settings, embed: string -> Vector, st: Store, file: FileMeta, world: World)
    requires file.id in st.docs && st.docs[file.id].fields == FieldsOf(file)
    requires world.extraction.Got? && world.embeddings.Some? && Faithful(set_, embed, world)
    ensures RowsFor(Swapped(set_, st, file.id, world), st.docs[file.id].pk)
            == RowsOf(set_, embed, st.docs[file.id].pk, Origin(file, world.extraction.text))
  {
    var pk, meta, origin := st.docs[file.id].pk, MetaOf(FieldsOf(file)), Origin(file, world.extraction.text);
    SwappedRows(st, pk, meta, Chunks(set_.space, set_.cfg, origin.text), world.embeddings.value, pk);
    FaithfulRows(set_, embed, pk, origin, world);
  }

  /** Swapping in the rows of a faithful embedding explains the document by this extraction. */
  lemma SwapKeepsAgreement(set_: Settings, embed: string -> Vector, st: Store, st': Store, file: FileMeta, world: World,
                           last: map<string, Origin>)
    requires Agreement(set_, embed, st, last)
    requires file.id in st.docs && file.id in st'.docs && st.docs[file.id].fields == FieldsOf(file)
    requires world.extraction.Got? && world.embeddings.Some? && Faithful(set_, embed, world)
    requires st'.nextPk == st.nextPk && st'.docs == st.docs[file.id := st'.docs[file.id]]
    requires st'.docs[file.id].pk == st.docs[file.id].pk
             && st'.docs[file.id].text == Cut(world.extraction.text, TEXT_CAP)
    requires st'.rows == Swapped(set_, st, file.id, world)
    ensures Agreement(set_, embed, st', last[file.id := Origin(file, world.extraction.text)])
  {
    var pk, meta := st.docs[file.id].pk, MetaOf(FieldsOf(file));
    var chunks, vectors := Chunks(set_.space, set_.cfg, world.extraction.text), world.embeddings.value;
    forall other
      ensures RowsFor(st'.rows, other) ==
              if other == pk then BuildRows(pk, meta, chunks, vectors) else RowsFor(st.rows, other)
    {
      SwappedRows(st, pk, meta, chunks, vectors, other);
    }
    SwappedAreOrigin(set_, embed, st, file, world);
    RowsForWithout(st.rows, pk, pk);
    BuildRowsAt(pk, meta, chunks, vectors);
    OneDocumentChanged(set_, embed, st, st', file.id, last, last[file.id := Origin(file, world.extraction.text)]);
  }

  /** An ingest touches its own document only, and swaps the rows exactly when it ends Indexed. */
  lemma IngestedChanges(set_: Settings, st: Store, id: string, world: World)
    requires id in st.docs
    ensures var st' := Ingested(set_, st, id, world).0;
            && st'.nextPk == st.nextPk && id in st'.docs && st'.docs[id].pk == st.docs[id].pk
            && st'.docs == st.docs[id := st'.docs[id]] && st'.docs[id].fields == st.docs[id].fields
            && if st'.docs[id].status == Indexed then
                 && world.extraction.Got? && world.embeddings.Some?
                 && st'.docs[id].text == Cut(world.extraction.text, TEXT_CAP)
                 && st'.rows == Swapped(set_, st, id, world)
               else st'.rows == st.rows
  {
  }

  /** The last indexings after an ingest of the file that left the store so. */
  function Relearned(st': Store, file: FileMeta, world: World, last: map<string, Origin>): map<string, Origin> {
    if file.id in st'.docs && st'.docs[file.id].status == Indexed && world.extraction.Got?
    then last[file.id := Origin(file, world.extraction.text)] else last
  }

  lemma IngestKeepsAgreement(set_: Settings, embed: string -> Vector, st: Store, file: FileMeta, world: World,
                             last: map<string, Origin>)
    requires Agreement(set_, embed, st, last) && Faithful(set_, embed, world)
    requires file.id in st.docs && st.docs[file.id].fields == FieldsOf(file)
    ensures var st' := Ingested(set_, st, file.id, world).0;
            Agreement(set_, embed, st', Relearned(st', file, world, last))
  {
    IngestedChanges(set_, st, file.id, world);
    var st' := Ingested(set_, st, file.id, world).0;
    if st'.docs[file.id].status == Indexed {
      SwapKeepsAgreement(set_, embed, st, st', file, world, last);
    } else {
      ColumnsChanged(set_, embed, st, st', file.id, last);
    }
  }

  // ---------------------------------------------------------------- runs

  datatype Step = Upsert(file: FileMeta) | Ingest(file: FileMeta, world: World) | Remove(id: string)

  function Next(set_: Settings, st: Store, step: Step): Store {
    match step
    case Upsert(file) => Upserted(st, file)
    case Ingest(file, world) => DriveFileIngested(set_, st, file, world).0
    case Remove(id) => Removed(st, id)
  }

  function After(set_: Settings, st: Store, steps: seq<Step>): Store {
    if steps == [] then st else Next(set_, After(set_, st, steps[..|steps| - 1]), steps[|steps| - 1])
  }

  /** For each file the extraction it was last indexed from: the last ingest
      that ended Indexed, unless removed since. */
  function LastIndexed(set_: Settings, steps: seq<Step>): map<string, Origin> {
    if steps == [] then map[]
    else
      var init, step := steps[..|steps| - 1], steps[|steps| - 1];
      Remembered(LastIndexed(set_, init), step, After(set_, EMPTY, steps))
  }

  function Remembered(last: map<string, Origin>, step: Step, st': Store): map<string, Origin> {
    match step
    case Upsert(_) => last
    case Ingest(file, world) => Relearned(st', file, world, last)
    case Remove(id) => last - {id}
  }

  ghost predicate AllFaithful(set_: Settings, embed: string -> Vector, steps: seq<Step>) {
    forall k :: 0 <= k < |steps| ==> steps[k].Ingest? ==> Faithful(set_, embed, steps[k].world)
  }

  lemma NextKeepsAgreement(set_: Settings, embed: string -> Vector, st: Store, step: Step, last: map<string, Origin>)
    requires Agreement(set_, embed, st, last)
    requires step.Ingest? ==> Faithful(set_, embed, step.world)
    ensures var st' := Next(set_, st, step); Agreement(set_, embed, st', Remembered(last, step, st'))
  {
    match step
    case Upsert(file) => UpsertKeepsAgreement(set_, embed, st, file, last);
    case Remove(id) => RemoveKeepsAgreement(set_, embed, st, id, last);
    case Ingest(file, world) =>
      var st1 := Upserted(st, file);
      UpsertKeepsAgreement(set_, embed, st, file, last);
      var mime := st1.docs[file.id].fields.mime;
      if mime in SUPPORTED_MIMES {
        IngestKeepsAgreement(set_, embed, st1, file, world, last);
      } else {
        ColumnsChanged(set_, embed, st1, WithStatus(st1, file.id, Skipped, UnsupportedMime(mime)), file.id, last);
      }
  }

  const EMPTY := Store(map[], [], 0)

  /** In every reachable state, failures included, every document's rows are those of its last indexing. */
  lemma {:induction false} IndexAgrees(set_: Settings, embed: string -> Vector, steps: seq<Step>)
    requires AllFaithful(set_, embed, steps)
    ensures Agreement(set_, embed, After(set_, EMPTY, steps), LastIndexed(set_, steps))
  {
    if steps != [] {
      var init := steps[..|steps| - 1];
      IndexAgrees(set_, embed, init);
      NextKeepsAgreement(set_, embed, After(set_, EMPTY, init), steps[|steps| - 1], LastIndexed(set_, init));
    }
  }

  /** In every reachable state a document has exactly the rows of the last ingest of its file that
      ended Indexed since its last removal, and none when there was none; once it is indexed its
      text is the one that ingest extracted. */
  lemma RowsAreLastIndexed(set_: Settings, embed: string -> Vector, steps: seq<Step>, id: string)
    requires AllFaithful(set_, embed, steps) && id in After(set_, EMPTY, steps).docs
    ensures var st, last := After(set_, EMPTY, steps), LastIndexed(set_, steps);
            var doc := st.docs[id];
            && RowsFor(st.rows, doc.pk) == (if id in last then RowsOf(set_, embed, doc.pk, last[id]) else [])
            && (doc.status == Indexed ==> id in last && doc.text == Cut(last[id].text, TEXT_CAP))
  {
    IndexAgrees(set_, embed, steps);
    assert Explained(set_, embed, After(set_, EMPTY, steps).docs[id], id, After(set_, EMPTY, steps).rows,
                     LastIndexed(set_, steps));
  }

  /** In every reachable state an indexed document whose text was not cut has exactly the rows of
      chunking its own text column: any text below the cap, or at the cap when the text it was last
      indexed from was no longer. */
  lemma IndexedRowsAreOfText(set_: Settings, embed: string -> Vector, steps: seq<Step>, id: string)
    requires AllFaithful(set_, embed, steps) && id in After(set_, EMPTY, steps).docs
    requires After(set_, EMPTY, steps).docs[id].status == Indexed
    requires || |After(set_, EMPTY, steps).docs[id].text| < TEXT_CAP
             || (id in LastIndexed(set_, steps) ==> |LastIndexed(set_, steps)[id].text| <= TEXT_CAP)
    ensures id in LastIndexed(set_, steps)
    ensures var doc, origin := After(set_, EMPTY, steps).docs[id], LastIndexed(set_, steps)[id];
            && origin.text == doc.text
            && RowsFor(After(set_, EMPTY, steps).rows, doc.pk) == RowsOf(set_, embed, doc.pk, origin)
  {
    RowsAreLastIndexed(set_, embed, steps, id);
  }

  /** Right after an ingest that ends Indexed the rows are those of this very extraction, whatever
      came before; of a text up to and including the cap they are the rows of the saved text. */
  lemma IndexedAtOnce(set_: Settings, embed: string -> Vector, st: Store, file: FileMeta, world: World)
    requires Faithful(set_, embed, world) && file.id in st.docs && st.docs[file.id].fields == FieldsOf(file)
    requires Ingested(set_, st, file.id, world).0.docs[file.id].status == Indexed
    ensures world.extraction.Got?
    ensures var st' := Ingested(set_, st, file.id, world).0;
            var doc := st'.docs[file.id];
            && RowsFor(st'.rows, doc.pk) == RowsOf(set_, embed, doc.pk, Origin(file, world.extraction.text))
            && doc.text == Cut(world.extraction.text, TEXT_CAP)
            && (|world.extraction.text| <= TEXT_CAP ==>
                  RowsFor(st'.rows, doc.pk) == RowsOf(set_, embed, doc.pk, Origin(file, doc.text)))
  {
    IngestedChanges(set_, st, file.id, world);
    SwappedAreOrigin(set_, embed, st, file, world);
    assert |world.extraction.text| <= TEXT_CAP ==> Cut(world.extraction.text, TEXT_CAP) == world.extraction.text;
  }

  lemma IngestOthersUntouched(set_: Settings, st: Store, id: string, world: World, other: string)
    requires id in st.docs && other in st.docs && id != other && st.docs[other].pk != st.docs[id].pk
    ensures var st' := Ingested(set_, st, id, world).0;
            other in st'.docs && st'.docs[other] == st.docs[other]
            && RowsFor(st'.rows, st.docs[other].pk) == RowsFor(st.rows, st.docs[other].pk)
  {
    IngestedChanges(set_, st, id, world);
    if Ingested(set_, st, id, world).0.docs[id].status == Indexed {
      var chunks := Chunks(set_.space, set_.cfg, world.extraction.text);
      SwappedRows(st, st.docs[id].pk, MetaOf(st.docs[id].fields), chunks, world.embeddings.value, st.docs[other].pk);
    }
  }

  lemma FileIngestOthersUntouched(set_: Settings, embed: string -> Vector, st: Store, file: FileMeta, world: World,
                                  other: string, last: map<string, Origin>)
    requires Agreement(set_, embed, st, last) && other in st.docs && other != file.id
    ensures var st' := DriveFileIngested(set_, st, file, world).0;
            other in st'.docs && st'.docs[other] == st.docs[other]
            && RowsFor(st'.rows, st.docs[other].pk) == RowsFor(st.rows, st.docs[other].pk)
  {
    var st1 := Upserted(st, file);
    assert st1.docs[file.id].pk != st.docs[other].pk;
    IngestOthersUntouched(set_, st1, file.id, world, other);
  }

  /** A step on one document leaves every other document and its rows as they are. */
  lemma OthersUntouched(set_: Settings, embed: string -> Vector, st: Store, step: Step, other: string,
                        last: map<string, Origin>)
    requires Agreement(set_, embed, st, last)
    requires other in st.docs && other != (if step.Remove? then step.id else step.file.id)
    ensures var st' := Next(set_, st, step);
            other in st'.docs && st'.docs[other] == st.docs[other]
            && RowsFor(st'.rows, st.docs[other].pk) == RowsFor(st.rows, st.docs[other].pk)
  {
    match step
    case Upsert(file) =>
    case Remove(id) =>
      if id in st.docs { RowsForWithout(st.rows, st.docs[id].pk, st.docs[other].pk); }
    case Ingest(file, world) =>
      FileIngestOthersUntouched(set_, embed, st, file, world, other, last);
  }
}