/** The document routes (`/api/documents`): listing a project's documents,
    and the upload handler, which reads the form, folds the `files[N][...]`
    keys into entries, then uploads and inserts one document per entry in
    index order, stopping at the first entry that fails. The file store and
    the file upload are calls to the text-generation provider's file API and
    are parameters here. */
module Documents {
  import opened Http
  import opened UploadForm
  import Seqs

  /** A document id. The schema's ids are cuid strings; here they are values
      of a counter the store never reuses. */
  type Id = nat

  datatype DocumentType = Legal | Marketing | Technical | Other
  datatype IndexingStatus = Pending | Processing | Completed | Failed

  /** A document row (its timestamps are left out). */
  datatype Document = Document(
    id: Id,
    projectId: string,
    name: string,
    url: string,
    docType: DocumentType,
    indexingStatus: IndexingStatus,
    geminiFileUri: Option<string>)

  /** How JavaScript turns a `File` object into a string. */
  const FileAsText := "[object File]"

  function AsText(v: FormValue): string {
    match v
    case Text(s) => s
    case Upload(_) => FileAsText
  }

  /** `body[key]` of the parsed body. */
  function Lookup(body: seq<Field>, key: string): (r: Option<FormValue>)
    ensures r.None? <==> forall k :: 0 <= k < |body| ==> body[k].key != key
    ensures r.Some? ==> exists k :: 0 <= k < |body| && body[k] == Field(key, r.value)
  {
    if body == [] then None
    else if body[0].key == key then Some(body[0].value)
    else
      var r := Lookup(body[1..], key);
      assert forall k :: 1 <= k < |body| ==> body[k] == body[1..][k - 1];
      r
  }

  /** `body["projectId"]` once `if (!projectId)` has let it through: a
      missing field and an empty string are both rejected. */
  function ProjectIdOf(body: seq<Field>): (r: Option<string>)
    ensures r.None? <==> Lookup(body, "projectId") in {None, Some(Text(""))}
    ensures r.Some? ==> r.value == AsText(Lookup(body, "projectId").value) && r.value != ""
  {
    match Lookup(body, "projectId")
    case None => None
    case Some(v) => if v == Text("") then None else Some(AsText(v))
  }

  /** `project-${projectId}`, the display name of the file store. */
  function StoreName(projectId: string): string {
    "project-" + projectId
  }

  /** What the loop body needs to insert a row: the title and the name the
      upload returned. */
  datatype Draft = Draft(name: string, uri: string)

  /** One pass of the second loop's body, up to the insert, or `None` where
      it throws: a hole (`fileEntry` is undefined), a missing or non-file
      `file` (no `arrayBuffer()`), a failed upload, or a missing title (the
      `name` column is NOT NULL). */
  function DraftFor(entry: Option<Entry>, storeName: string, uploadFile: (string, FileBlob) -> Option<string>)
    : Option<Draft>
  {
    if entry.None? then None
    else
      var e := entry.value;
      if e.file.None? || !e.file.value.Upload? then None
      else
        var uri := uploadFile(storeName, e.file.value.file);
        if uri.None? || e.title.None? then None
        else Some(Draft(AsText(e.title.value), uri.value))
  }

  /** The number of leading entries whose pass reaches the insert. */
  function Accepted(files: seq<Option<Entry>>, storeName: string, uploadFile: (string, FileBlob) -> Option<string>)
    : (k: nat)
    ensures k <= |files|
    ensures forall j :: 0 <= j < k ==> DraftFor(files[j], storeName, uploadFile).Some?
    ensures k < |files| ==> DraftFor(files[k], storeName, uploadFile).None?
  {
    if files == [] || DraftFor(files[0], storeName, uploadFile).None? then 0
    else 1 + Accepted(files[1..], storeName, uploadFile)
  }

  /** The row inserted for one entry: type "other", indexing status
      "completed", and the uploaded file's name as both url and file uri. */
  function RowFor(d: Draft, projectId: string, id: Id): Document {
    Document(id, projectId, d.name, d.uri, Other, Completed, Some(d.uri))
  }

  /** The rows inserted for the first `k` entries, with consecutive ids. */
  function Rows(files: seq<Option<Entry>>, k: nat, projectId: string, storeName: string,
                uploadFile: (string, FileBlob) -> Option<string>, firstId: Id): seq<Document>
    requires k <= Accepted(files, storeName, uploadFile)
  {
    seq(k, j requires 0 <= j < k =>
      RowFor(DraftFor(files[j], storeName, uploadFile).value, projectId, firstId + j))
  }

  /** Every inserted row belongs to the project, has type "other", status
      "completed", the entry's title as name, and the upload's name as both
      url and file uri. */
  lemma RowsShape(files: seq<Option<Entry>>, k: nat, projectId: string, storeName: string,
                  uploadFile: (string, FileBlob) -> Option<string>, firstId: Id)
    requires k <= Accepted(files, storeName, uploadFile)
    ensures var rows := Rows(files, k, projectId, storeName, uploadFile, firstId);
            && |rows| == k
            && forall j :: 0 <= j < k ==>
                 && rows[j].projectId == projectId
                 && rows[j].docType == Other
                 && rows[j].indexingStatus == Completed
                 && rows[j].geminiFileUri == Some(rows[j].url)
                 && files[j].Some? && files[j].value.title.Some? && files[j].value.file.Some?
                 && files[j].value.file.value.Upload?
                 && rows[j].name == AsText(files[j].value.title.value)
                 && Some(rows[j].url) == uploadFile(storeName, files[j].value.file.value.file)
  {
    var rows := Rows(files, k, projectId, storeName, uploadFile, firstId);
    forall j | 0 <= j < k
      ensures rows[j] == RowFor(DraftFor(files[j], storeName, uploadFile).value, projectId, firstId + j)
      ensures DraftFor(files[j], storeName, uploadFile).Some?
    {
    }
  }

  /** The upload succeeds exactly when every entry is present, carries a
      file and a title, and its upload answers; a hole in the indexes or an
      entry without a file makes it fail at that entry. */
  lemma {:induction false} AllAcceptedIff(files: seq<Option<Entry>>, storeName: string,
                                          uploadFile: (string, FileBlob) -> Option<string>)
    ensures Accepted(files, storeName, uploadFile) == |files| <==>
            forall j :: 0 <= j < |files| ==> DraftFor(files[j], storeName, uploadFile).Some?
  {
    var k := Accepted(files, storeName, uploadFile);
    if k < |files| {
      assert DraftFor(files[k], storeName, uploadFile).None?;
    }
  }

  /** The schema declares the id column with `.default(createId())`: the
      call runs once, when the schema is loaded, so every insert that leaves
      `id` out receives the same `defaultId`, and the primary key rejects any
      insert after the first. */
  function InsertWithSchemaDefault(table: seq<Document>, projectId: string, d: Draft, defaultId: Id)
    : Option<seq<Document>>
  {
    if exists i :: 0 <= i < |table| && table[i].id == defaultId then None
    else Some(table + [RowFor(d, projectId, defaultId)])
  }

  /** With the schema's default id, a second document can never be inserted:
      an upload of two well-formed entries answers 500 after storing one. */
  lemma SchemaDefaultIdCollides(table: seq<Document>, projectId: string, d1: Draft, d2: Draft, defaultId: Id)
    ensures var first := InsertWithSchemaDefault(table, projectId, d1, defaultId);
            first.Some? ==> InsertWithSchemaDefault(first.value, projectId, d2, defaultId).None?
  {
    var first := InsertWithSchemaDefault(table, projectId, d1, defaultId);
    if first.Some? {
      assert first.value[|table|].id == defaultId;
    }
  }

  function DocumentKey(d: Document): int { d.id }

  /** The documents table. */
  class DocumentStore {
    var documents: seq<Document>
    var nextId: nat

    /** Ids are unique: each row gets a fresh one. */
    ghost predicate Valid()
      reads this
    {
      && Seqs.StrictlyIncreasing(documents, DocumentKey)
      && forall i :: 0 <= i < |documents| ==> documents[i].id < nextId
    }

    constructor ()
      ensures Valid() && documents == []
    {
      documents, nextId := [], 0;
    }

    /** Inserts one row with a fresh id: unlike the schema default, the id
        never collides with a stored one, so every insert succeeds. */
    method Insert(projectId: string, d: Draft) returns (doc: Document)
      requires Valid()
      modifies this
      ensures Valid()
      ensures doc == RowFor(d, projectId, old(nextId))
      ensures forall i :: 0 <= i < |old(documents)| ==> old(documents)[i].id != doc.id
      ensures documents == old(documents) + [doc] && nextId == old(nextId) + 1
    {
      doc := RowFor(d, projectId, nextId);
      Seqs.AppendIncreasing(documents, doc, DocumentKey);
      documents := documents + [doc];
      nextId := nextId + 1;
    }

    /** GET /project/:projectId: no session check; the rows whose
        `projectId` equals the parameter (the query sets no order). */
    method ListByProject(projectId: string) returns (docs: seq<Document>)
      requires Valid()
      ensures forall d :: d in docs <==> d in documents && d.projectId == projectId
      ensures forall i, j :: 0 <= i < j < |docs| ==> docs[i] != docs[j]
    {
      var keep := (d: Document) => d.projectId == projectId;
      docs := Seqs.Filter(documents, keep);
      Seqs.FilterIncreasing(documents, keep, DocumentKey);
    }

    /** POST /upload. `createStore` and `uploadFile` are the file-store
        calls: `createStore` fails or not, `uploadFile` returns the stored
        file's name or fails. */
    method Upload(caller: Option<UserId>, body: seq<Field>, createStore: string -> bool,
                  uploadFile: (string, FileBlob) -> Option<string>)
      returns (r: Reply<seq<Document>>)
      requires Valid()
      modifies this
      ensures Valid()
      ensures caller.None? ==> r == Fail(Unauthorized, UnauthorizedError)
      ensures caller.Some? && ProjectIdOf(body).None? ==> r == Fail(BadRequest, MissingProjectError)
      ensures caller.Some? && ProjectIdOf(body).Some? && Width(body) == 0 ==>
                r == Fail(BadRequest, NoFilesError)
      ensures r.Fail? && r.status != ServerError ==> documents == old(documents)
      ensures caller.Some? && ProjectIdOf(body).Some? && Width(body) > 0 ==>
                var projectId := ProjectIdOf(body).value;
                var storeName := StoreName(projectId);
                var files := EntriesOf(body);
                var k := Accepted(files, storeName, uploadFile);
                if !createStore(storeName) then
                  r == Fail(ServerError, UploadFailedError) && documents == old(documents)
                else
                  && documents == old(documents) + Rows(files, k, projectId, storeName, uploadFile, old(nextId))
                  && (k == |files| ==> r == Ok(Rows(files, k, projectId, storeName, uploadFile, old(nextId))))
                  && (k < |files| ==> r == Fail(ServerError, UploadFailedError))
    {
      if caller.None? {
        return Fail(Unauthorized, UnauthorizedError);
      }
      var projectId := ProjectIdOf(body);
      if projectId.None? {
        return Fail(BadRequest, MissingProjectError);
      }
      var files := CollectEntries(body);
      if |files| == 0 {
        return Fail(BadRequest, NoFilesError);
      }
      var storeName := StoreName(projectId.value);
      if !createStore(storeName) {
        return Fail(ServerError, UploadFailedError);
      }
      r := StoreEntries(projectId.value, storeName, files, uploadFile);
    }

    /** The second loop of the upload handler: for each entry in index order,
        upload its file and insert its row; the first entry that throws ends
        the request with 500, and the rows inserted before it stay. */
    method StoreEntries(projectId: string, storeName: string, files: seq<Option<Entry>>,
                        uploadFile: (string, FileBlob) -> Option<string>)
      returns (r: Reply<seq<Document>>)
      requires Valid()
      modifies this
      ensures Valid()
      ensures var k := Accepted(files, storeName, uploadFile);
              var rows := Rows(files, k, projectId, storeName, uploadFile, old(nextId));
              && documents == old(documents) + rows
              && (k == |files| ==> r == Ok(rows))
              && (k < |files| ==> r == Fail(ServerError, UploadFailedError))
    {
      ghost var k := Accepted(files, storeName, uploadFile);
      var uploaded: seq<Document> := [];
      var j := 0;
      while j < |files|
        invariant 0 <= j <= |files| && j <= k
        invariant Valid()
        invariant nextId == old(nextId) + j
        invariant uploaded == Rows(files, j, projectId, storeName, uploadFile, old(nextId))
        invariant documents == old(documents) + uploaded
      {
        if files[j].None? {
          return Fail(ServerError, UploadFailedError);
        }
        var entry := files[j].value;
        if entry.file.None? || !entry.file.value.Upload? {
          return Fail(ServerError, UploadFailedError);
        }
        var uri := uploadFile(storeName, entry.file.value.file);
        if uri.None? || entry.title.None? {
          return Fail(ServerError, UploadFailedError);
        }
        assert j < k;
        var doc := Insert(projectId, Draft(AsText(entry.title.value), uri.value));
        uploaded := uploaded + [doc];
        j := j + 1;
        assert uploaded == Rows(files, j, projectId, storeName, uploadFile, old(nextId));
      }
      r := Ok(uploaded);
    }
  }
}
